/**
 * The virtual keyboard the controller drives: seven keys, press and release
 * events, and the set of keys held down after a log of events.
 */
module Keyboard {

  datatype Key = W | A | S | D | Space | Shift | Ctrl

  /** Every key the controller may press, in the order the fail-safe releases them. */
  const AllKeys: seq<Key> := [W, A, S, D, Space, Shift, Ctrl]

  datatype Event = Press(key: Key) | Release(key: Key)

  /** One press or release; pressing a held key or releasing a free one changes nothing. */
  function Effect(held: set<Key>, e: Event): set<Key> {
    match e
    case Press(k) => held + {k}
    case Release(k) => held - {k}
  }

  /** The keys held after the events evs, starting from held. */
  function Apply(held: set<Key>, evs: seq<Event>): set<Key>
    decreases |evs|
  {
    if evs == [] then held else Effect(Apply(held, evs[..|evs| - 1]), evs[|evs| - 1])
  }

  /**
   * Reference reading of a log: k is down after evs iff the last event on k
   * is a press, or, when evs never mentions k, iff it was down before.
   */
  function DownAfter(evs: seq<Event>, k: Key, before: bool): bool
    decreases |evs|
  {
    if evs == [] then before
    else if evs[|evs| - 1].key == k then evs[|evs| - 1].Press?
    else DownAfter(evs[..|evs| - 1], k, before)
  }

  /** The fail-safe's events: a release of every key. */
  const ReleaseAll: seq<Event> :=
    [Release(W), Release(A), Release(S), Release(D), Release(Space), Release(Shift), Release(Ctrl)]

  /** The fail-safe releases the keys in the order AllKeys lists them. */
  lemma ReleaseAllInOrder()
    ensures |ReleaseAll| == |AllKeys|
    ensures forall i :: 0 <= i < |AllKeys| ==> ReleaseAll[i] == Release(AllKeys[i])
  {
  }

  lemma ApplySnoc(held: set<Key>, evs: seq<Event>, e: Event)
    ensures Apply(held, evs + [e]) == Effect(Apply(held, evs), e)
  {
    assert (evs + [e])[..|evs|] == evs;
  }

  /** Replaying a log agrees with the reference reading, key by key. */
  lemma {:induction false} ApplyDownAfter(held: set<Key>, evs: seq<Event>, k: Key)
    ensures k in Apply(held, evs) <==> DownAfter(evs, k, k in held)
    decreases |evs|
  {
    if evs != [] {
      ApplyDownAfter(held, evs[..|evs| - 1], k);
    }
  }

  /** Replaying two logs one after the other is replaying their concatenation. */
  lemma {:induction false} ApplyAppend(held: set<Key>, a: seq<Event>, b: seq<Event>)
    ensures Apply(held, a + b) == Apply(Apply(held, a), b)
    decreases |b|
  {
    if b == [] {
      assert a + b == a;
    } else {
      var b' := b[..|b| - 1];
      assert a + b == (a + b') + [b[|b| - 1]];
      ApplySnoc(held, a + b', b[|b| - 1]);
      ApplyAppend(held, a, b');
      assert b == b' + [b[|b| - 1]];
      ApplySnoc(Apply(held, a), b', b[|b| - 1]);
    }
  }

  lemma {:induction false} DownAfterSettles(evs: seq<Event>, k: Key, before: bool)
    ensures DownAfter(evs, k, DownAfter(evs, k, before)) == DownAfter(evs, k, before)
    decreases |evs|
  {
    if evs != [] && evs[|evs| - 1].key != k {
      var prefix := evs[..|evs| - 1];
      DownAfterSettles(prefix, k, before);
      DownAfterUnmentioned(evs, k, DownAfter(evs, k, before));
    }
  }

  lemma DownAfterUnmentioned(evs: seq<Event>, k: Key, before: bool)
    requires evs != [] && evs[|evs| - 1].key != k
    ensures DownAfter(evs, k, before) == DownAfter(evs[..|evs| - 1], k, before)
  {
  }

  /**
   * Replaying the same log twice leaves the keyboard as replaying it once:
   * the controller may repeat its presses and releases every frame.
   */
  lemma ApplyIdempotent(held: set<Key>, evs: seq<Event>)
    ensures Apply(Apply(held, evs), evs) == Apply(held, evs)
  {
    forall k: Key
      ensures k in Apply(Apply(held, evs), evs) <==> k in Apply(held, evs)
    {
      ApplyDownAfter(Apply(held, evs), evs, k);
      ApplyDownAfter(held, evs, k);
      DownAfterSettles(evs, k, k in held);
    }
  }

  lemma {:induction false} ReleasedIsUp(evs: seq<Event>, k: Key, i: nat, before: bool)
    requires forall n :: 0 <= n < |evs| ==> evs[n].Release?
    requires i < |evs| && evs[i].key == k
    ensures !DownAfter(evs, k, before)
    decreases |evs|
  {
    if evs[|evs| - 1].key != k {
      ReleasedIsUp(evs[..|evs| - 1], k, i, before);
    }
  }

  /** After the fail-safe's events no key is held, whatever was held before. */
  lemma ReleaseAllEmpties(held: set<Key>)
    ensures Apply(held, ReleaseAll) == {}
  {
    forall k: Key
      ensures k !in Apply(held, ReleaseAll)
    {
      var i: nat := match k
        case W => 0 case A => 1 case S => 2 case D => 3
        case Space => 4 case Shift => 5 case Ctrl => 6;
      assert ReleaseAll[i] == Release(k);
      ApplyDownAfter(held, ReleaseAll, k);
      ReleasedIsUp(ReleaseAll, k, i, k in held);
    }
  }
}
