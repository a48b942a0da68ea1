/**
 * The per-frame controller: it turns a frame's hands into presses and
 * releases of the game's keys, keeps the sprint latch and the
 * hand-present flag between frames, and releases every key when the hand
 * leaves the picture.
 */
module HandController {
  import opened Landmarks
  import opened Gestures
  import opened Keyboard

  /** What the camera and the detector deliver for one frame. */
  datatype Frame =
    | NoFrame                      // no camera, or the read failed
    | Hands(hands: seq<Hand>)      // the detector's hands, possibly none

  /** The state kept between frames: keys down, sprint latch, hand present. */
  datatype State = State(held: set<Key>, ctrlFlag: bool, inScreen: bool)

  /** What one frame does: the next state, whether an image is returned, the label, the key events. */
  datatype Outcome = Outcome(next: State, shown: bool, status: string, events: seq<Event>)

  function ShiftTo(crouch: bool): Event {
    if crouch then Press(Shift) else Release(Shift)
  }

  /**
   * The Forward block: w is pressed (after a release when the latch is being
   * cleared while set) and shift follows the crouch test; otherwise w is released.
   */
  function ForwardBlock(flag: bool, f: Features): seq<Event> {
    if Forward(f) then
      (if f.y8 > f.minYNo8 && flag then [Release(W)] else []) + [Press(W), ShiftTo(CrouchFront(f))]
    else
      [Release(W)]
  }

  /**
   * The Run block: a tap of ctrl when the latch is unset. The Forward block
   * only clears the latch when the index tip is not raised, so flag is the
   * latch as the frame found it.
   */
  function RunBlock(flag: bool, f: Features): seq<Event> {
    if Sprint(f) && !flag then [Press(Ctrl), Release(Ctrl)] else []
  }

  /** A Left, Right or Backward block: press key and set shift, or release key. */
  function SideBlock(key: Key, fires: bool, crouch: bool): seq<Event> {
    if fires then [Press(key), ShiftTo(crouch)] else [Release(key)]
  }

  function JumpBlock(f: Features): seq<Event> {
    [if Jump(f) then Press(Space) else Release(Space)]
  }

  /** The key events of a frame of Left hands, in the order the blocks issue them. */
  function FrameEvents(flag: bool, f: Features): seq<Event> {
    ForwardBlock(flag, f) + RunBlock(flag, f)
    + SideBlock(A, TiltLeft(f), CrouchFront(f))
    + SideBlock(D, TiltRight(f), CrouchFront(f))
    + SideBlock(S, Backward(f), CrouchBack(f))
    + JumpBlock(f)
  }

  /**
   * The sprint latch after a frame of Left hands: set by a sprint, cleared
   * by a forward tilt whose index tip is not raised above the rest of the
   * hand (some other landmark lies strictly above it), otherwise kept.
   */
  function LatchAfter(flag: bool, f: Features): bool {
    if Sprint(f) then true
    else if Forward(f) && f.y8 > f.minYNo8 then false
    else flag
  }

  /**
   * Whether shift is down after a frame of Left hands: the last direction
   * block that fires decides; with no direction it keeps its state.
   */
  function ShiftAfter(held: set<Key>, f: Features): bool {
    if Backward(f) then CrouchBack(f)
    else if TiltRight(f) || TiltLeft(f) || Forward(f) then CrouchFront(f)
    else Shift in held
  }

  /** One frame of the controller. */
  function Step(s: State, frame: Frame): Outcome {
    match frame
    case NoFrame => Outcome(s, false, "", [])
    case Hands(hs) =>
      if |hs| == 0 then
        if s.inScreen then
          Outcome(State(Apply(s.held, ReleaseAll), s.ctrlFlag, false), true, "", ReleaseAll)
        else
          Outcome(s, true, "", [])
      else if !AllLeft(hs) then
        Outcome(s.(inScreen := true), true, "", [])
      else
        LeftFrame(s, Extract(hs))
  }

  /** A frame whose hands are all labelled Left, with features f. */
  function LeftFrame(s: State, f: Features): Outcome {
    Outcome(State(Apply(s.held, FrameEvents(s.ctrlFlag, f)), LatchAfter(s.ctrlFlag, f), true),
            true, Label(f), FrameEvents(s.ctrlFlag, f))
  }

  lemma AppendAssoc(a: seq<Event>, b: seq<Event>, c: seq<Event>)
    ensures (a + b) + c == a + (b + c)
  {
  }

  /** The frame's events, grouped as the Forward and Run blocks, the tilt blocks and the Jump block. */
  lemma FrameEventsGrouped(flag: bool, f: Features)
    ensures (ForwardBlock(flag, f) + RunBlock(flag, f))
      + (SideBlock(A, TiltLeft(f), CrouchFront(f)) + SideBlock(D, TiltRight(f), CrouchFront(f))
         + SideBlock(S, Backward(f), CrouchBack(f)))
      + JumpBlock(f) == FrameEvents(flag, f)
  {
    var b1, b2, b3 := ForwardBlock(flag, f), RunBlock(flag, f), SideBlock(A, TiltLeft(f), CrouchFront(f));
    var b4, b5 := SideBlock(D, TiltRight(f), CrouchFront(f)), SideBlock(S, Backward(f), CrouchBack(f));
    AppendAssoc(b1 + b2, b3 + b4, b5);
    AppendAssoc(b1 + b2, b3, b4);
  }

  /** The state after a sequence of frames. */
  function Run(s: State, frames: seq<Frame>): State
    decreases |frames|
  {
    if frames == [] then s else Run(Step(s, frames[0]).next, frames[1..])
  }

  /** The key events of a sequence of frames. */
  function RunEvents(s: State, frames: seq<Frame>): seq<Event>
    decreases |frames|
  {
    if frames == [] then []
    else Step(s, frames[0]).events + RunEvents(Step(s, frames[0]).next, frames[1..])
  }

  /** ctrl is never left down, and no key is down while no hand is present. */
  predicate Consistent(s: State) {
    Ctrl !in s.held && (!s.inScreen ==> s.held == {})
  }

  // ---------------------------------------------------------------------
  // The blocks' effect on the keyboard.

  lemma ApplyOne(held: set<Key>, e: Event)
    ensures Apply(held, [e]) == Effect(held, e)
  {
    assert [e][..0] == [];
  }

  lemma ApplyTwo(held: set<Key>, e1: Event, e2: Event)
    ensures Apply(held, [e1, e2]) == Effect(Effect(held, e1), e2)
  {
    assert [e1, e2][..1] == [e1];
    ApplyOne(held, e1);
  }

  lemma SideBlockKeys(held: set<Key>, key: Key, fires: bool, crouch: bool)
    requires key != Shift
    ensures forall k :: k in Apply(held, SideBlock(key, fires, crouch)) <==>
      if k == key then fires else if k == Shift && fires then crouch else k in held
  {
    if fires {
      ApplyTwo(held, Press(key), ShiftTo(crouch));
    } else {
      ApplyOne(held, Release(key));
    }
  }

  lemma ForwardBlockKeys(held: set<Key>, flag: bool, f: Features)
    ensures forall k :: k in Apply(held, ForwardBlock(flag, f)) <==>
      if k == W then Forward(f) else if k == Shift && Forward(f) then CrouchFront(f) else k in held
  {
    if Forward(f) {
      var tail := [Press(W), ShiftTo(CrouchFront(f))];
      if f.y8 > f.minYNo8 && flag {
        ApplyOne(held, Release(W));
        ApplyAppend(held, [Release(W)], tail);
        ApplyTwo(held - {W}, Press(W), ShiftTo(CrouchFront(f)));
      } else {
        assert ForwardBlock(flag, f) == tail;
        ApplyTwo(held, Press(W), ShiftTo(CrouchFront(f)));
      }
    } else {
      ApplyOne(held, Release(W));
    }
  }

  lemma RunBlockKeys(held: set<Key>, flag: bool, f: Features)
    ensures forall k :: k in Apply(held, RunBlock(flag, f)) <==>
      if k == Ctrl then Ctrl in held && !(Sprint(f) && !flag) else k in held
  {
    if Sprint(f) && !flag {
      ApplyTwo(held, Press(Ctrl), Release(Ctrl));
    }
  }

  lemma JumpBlockKeys(held: set<Key>, f: Features)
    ensures forall k :: k in Apply(held, JumpBlock(f)) <==> if k == Space then Jump(f) else k in held
  {
    ApplyOne(held, JumpBlock(f)[0]);
    assert JumpBlock(f) == [JumpBlock(f)[0]];
  }

  /**
   * After a frame of Left hands each of w, a, d, s and space is down exactly
   * when its condition holds, shift is decided by the last direction block
   * that fired (or kept), and ctrl is down only if it already was and no
   * tap happened.
   */
  lemma LeftFrameKeys(held: set<Key>, flag: bool, f: Features)
    ensures var after := Apply(held, FrameEvents(flag, f));
      && (W in after <==> Forward(f))
      && (A in after <==> TiltLeft(f))
      && (D in after <==> TiltRight(f))
      && (S in after <==> Backward(f))
      && (Space in after <==> Jump(f))
      && (Shift in after <==> ShiftAfter(held, f))
      && (Ctrl in after <==> Ctrl in held && !(Sprint(f) && !flag))
  {
    var front := ForwardBlock(flag, f) + RunBlock(flag, f);
    var rest := SideBlock(A, TiltLeft(f), CrouchFront(f)) + SideBlock(D, TiltRight(f), CrouchFront(f))
      + SideBlock(S, Backward(f), CrouchBack(f)) + JumpBlock(f);
    FrameEventsSplit(flag, f);
    ApplyAppend(held, front, rest);
    FrontBlocksKeys(held, flag, f);
    TiltBlocksKeys(Apply(held, front), f);
  }

  /** The frame's events, split after the Run block. */
  lemma FrameEventsSplit(flag: bool, f: Features)
    ensures FrameEvents(flag, f) == (ForwardBlock(flag, f) + RunBlock(flag, f))
      + (SideBlock(A, TiltLeft(f), CrouchFront(f)) + SideBlock(D, TiltRight(f), CrouchFront(f))
         + SideBlock(S, Backward(f), CrouchBack(f)) + JumpBlock(f))
  {
    var front := ForwardBlock(flag, f) + RunBlock(flag, f);
    var tilts := SideBlock(A, TiltLeft(f), CrouchFront(f)) + SideBlock(D, TiltRight(f), CrouchFront(f))
      + SideBlock(S, Backward(f), CrouchBack(f));
    FrameEventsGrouped(flag, f);
    AppendAssoc(front, tilts, JumpBlock(f));
  }

  /** The Forward and Run blocks: w, shift and ctrl, and nothing else. */
  lemma FrontBlocksKeys(held: set<Key>, flag: bool, f: Features)
    ensures forall k :: k in Apply(held, ForwardBlock(flag, f) + RunBlock(flag, f)) <==>
      if k == W then Forward(f)
      else if k == Shift && Forward(f) then CrouchFront(f)
      else if k == Ctrl then Ctrl in held && !(Sprint(f) && !flag)
      else k in held
  {
    ApplyAppend(held, ForwardBlock(flag, f), RunBlock(flag, f));
    ForwardBlockKeys(held, flag, f);
    RunBlockKeys(Apply(held, ForwardBlock(flag, f)), flag, f);
  }

  /** The Left, Right, Backward and Jump blocks: a, d, s, space and shift, and nothing else. */
  lemma TiltBlocksKeys(held: set<Key>, f: Features)
    ensures var rest := SideBlock(A, TiltLeft(f), CrouchFront(f)) + SideBlock(D, TiltRight(f), CrouchFront(f))
      + SideBlock(S, Backward(f), CrouchBack(f)) + JumpBlock(f);
      forall k :: k in Apply(held, rest) <==>
        if k == A then TiltLeft(f)
        else if k == D then TiltRight(f)
        else if k == S then Backward(f)
        else if k == Space then Jump(f)
        else if k == Shift && Backward(f) then CrouchBack(f)
        else if k == Shift && (TiltLeft(f) || TiltRight(f)) then CrouchFront(f)
        else k in held
  {
    var b3 := SideBlock(A, TiltLeft(f), CrouchFront(f));
    var b4 := SideBlock(D, TiltRight(f), CrouchFront(f));
    var b5 := SideBlock(S, Backward(f), CrouchBack(f));
    var h3 := Apply(held, b3);
    var h4 := Apply(h3, b4);
    var h5 := Apply(h4, b5);
    ApplyAppend(held, b3, b4);
    ApplyAppend(held, b3 + b4, b5);
    ApplyAppend(held, b3 + b4 + b5, JumpBlock(f));
    SideBlockKeys(held, A, TiltLeft(f), CrouchFront(f));
    SideBlockKeys(h3, D, TiltRight(f), CrouchFront(f));
    SideBlockKeys(h4, S, Backward(f), CrouchBack(f));
    JumpBlockKeys(h5, f);
  }

  // ---------------------------------------------------------------------
  // Properties of single frames.

  /**
   * After a frame of Left hands, w and s are never both down, nor a and d.
   */
  lemma OppositeKeysExclusive(s: State, hs: seq<Hand>)
    requires |hs| > 0 && AllLeft(hs)
    ensures var held := Step(s, Hands(hs)).next.held;
      !(W in held && S in held) && !(A in held && D in held)
  {
    LeftFrameKeys(s.held, s.ctrlFlag, Extract(hs));
    OppositeTiltsExclusive(hs);
  }

  /**
   * The sprint tap: a frame of Left hands presses ctrl once and releases it
   * once exactly when the sprint condition holds with the latch unset, and
   * issues no ctrl event otherwise.
   */
  lemma CtrlEvents(flag: bool, f: Features)
    ensures multiset(FrameEvents(flag, f))[Press(Ctrl)] == if Sprint(f) && !flag then 1 else 0
    ensures multiset(FrameEvents(flag, f))[Release(Ctrl)] == if Sprint(f) && !flag then 1 else 0
  {
    OnlyRunTouchesCtrl(flag, f);
    RunBlockCtrl(flag, f);
  }

  lemma OnlyRunTouchesCtrl(flag: bool, f: Features)
    ensures multiset(FrameEvents(flag, f))[Press(Ctrl)] == multiset(RunBlock(flag, f))[Press(Ctrl)]
    ensures multiset(FrameEvents(flag, f))[Release(Ctrl)] == multiset(RunBlock(flag, f))[Release(Ctrl)]
  {
    var b1, b2, b3 := ForwardBlock(flag, f), RunBlock(flag, f), SideBlock(A, TiltLeft(f), CrouchFront(f));
    var b4, b5, b6 := SideBlock(D, TiltRight(f), CrouchFront(f)), SideBlock(S, Backward(f), CrouchBack(f)), JumpBlock(f);
    assert multiset(FrameEvents(flag, f))
      == multiset(b1) + multiset(b2) + multiset(b3) + multiset(b4) + multiset(b5) + multiset(b6);
    ForwardBlockNoCtrl(flag, f);
    SideBlockNoCtrl(A, TiltLeft(f), CrouchFront(f));
    SideBlockNoCtrl(D, TiltRight(f), CrouchFront(f));
    SideBlockNoCtrl(S, Backward(f), CrouchBack(f));
    JumpBlockNoCtrl(f);
  }

  /** No ctrl event in a block other than Run. */
  predicate CtrlFree(evs: seq<Event>) {
    multiset(evs)[Press(Ctrl)] == 0 && multiset(evs)[Release(Ctrl)] == 0
  }

  lemma ForwardBlockNoCtrl(flag: bool, f: Features)
    ensures CtrlFree(ForwardBlock(flag, f))
  {
    assert Press(Ctrl) !in ForwardBlock(flag, f) && Release(Ctrl) !in ForwardBlock(flag, f);
  }

  lemma SideBlockNoCtrl(key: Key, fires: bool, crouch: bool)
    requires key != Ctrl
    ensures CtrlFree(SideBlock(key, fires, crouch))
  {
    assert Press(Ctrl) !in SideBlock(key, fires, crouch) && Release(Ctrl) !in SideBlock(key, fires, crouch);
  }

  lemma JumpBlockNoCtrl(f: Features)
    ensures CtrlFree(JumpBlock(f))
  {
    assert Press(Ctrl) !in JumpBlock(f) && Release(Ctrl) !in JumpBlock(f);
  }

  lemma RunBlockCtrl(flag: bool, f: Features)
    ensures multiset(RunBlock(flag, f))[Press(Ctrl)] == if Sprint(f) && !flag then 1 else 0
    ensures multiset(RunBlock(flag, f))[Release(Ctrl)] == if Sprint(f) && !flag then 1 else 0
  {
  }

  /**
   * A frame of Left hands, seen through Step: its events are FrameEvents,
   * its latch LatchAfter and its label Label.
   */
  lemma StepOnLeftHands(s: State, hs: seq<Hand>)
    requires |hs| > 0 && AllLeft(hs)
    ensures Step(s, Hands(hs)) == LeftFrame(s, Extract(hs))
  {
  }

  /**
   * The sprint latch is cleared only by a frame of Left hands that tilts
   * forward with the index tip not raised above the rest of the hand (some
   * other landmark lies strictly above it); in particular the fail-safe
   * never clears it.
   */
  lemma LatchClearsOnlyWhen(s: State, frame: Frame)
    requires s.ctrlFlag && !Step(s, frame).next.ctrlFlag
    ensures frame.Hands? && |frame.hands| > 0 && AllLeft(frame.hands)
    ensures Forward(Extract(frame.hands)) && Extract(frame.hands).y8 > Extract(frame.hands).minYNo8
  {
  }

  /**
   * In the frame that clears a set latch, w is released and then pressed
   * again, so w ends down.
   */
  lemma LatchClearRepress(held: set<Key>, f: Features)
    requires Forward(f) && f.y8 > f.minYNo8
    ensures !LatchAfter(true, f)
    ensures FrameEvents(true, f)[0] == Release(W) && FrameEvents(true, f)[1] == Press(W)
    ensures W in Apply(held, FrameEvents(true, f))
  {
    var b1 := ForwardBlock(true, f);
    assert b1 == [Release(W), Press(W), ShiftTo(CrouchFront(f))];
    LeftFrameKeys(held, true, f);
  }

  /**
   * With the index tip level with the highest other landmark, the latch neither
   * clears nor taps.
   */
  lemma LatchLevelIndex(flag: bool, f: Features)
    requires f.y8 == f.minYNo8
    ensures LatchAfter(flag, f) == flag
    ensures multiset(FrameEvents(flag, f))[Press(Ctrl)] == 0
  {
    CtrlEvents(flag, f);
  }

  /** Every frame keeps ctrl up and keeps the keyboard empty while no hand is present. */
  lemma StepPreservesConsistent(s: State, frame: Frame)
    requires Consistent(s)
    ensures Consistent(Step(s, frame).next)
    ensures Step(s, frame).next.held == Apply(s.held, Step(s, frame).events)
  {
    match frame
    case NoFrame =>
    case Hands(hs) =>
      if |hs| == 0 {
        if s.inScreen {
          ReleaseAllEmpties(s.held);
        }
      } else if AllLeft(hs) {
        LeftFrameKeys(s.held, s.ctrlFlag, Extract(hs));
      }
  }

  /**
   * The presence fail-safe: a frame with no hands, while a hand was present,
   * releases all seven keys, leaves none down, clears the presence flag and
   * keeps the sprint latch; while no hand was present it changes nothing.
   */
  lemma NoHandsFrame(s: State)
    ensures var out := Step(s, Hands([]));
      if s.inScreen then
        out.events == ReleaseAll && out.next == State({}, s.ctrlFlag, false) && out.status == ""
      else
        out.events == [] && out.next == s && out.status == ""
  {
    if s.inScreen {
      ReleaseAllEmpties(s.held);
    }
  }

  /** Without a camera image nothing changes and no image is returned. */
  lemma NoCameraFrame(s: State)
    ensures Step(s, NoFrame) == Outcome(s, false, "", [])
  {
  }

  /**
   * A frame with a hand not labelled Left issues no key event and shows an
   * empty label, keeps the latch, and counts the hand as present.
   */
  lemma OtherHandFrame(s: State, hs: seq<Hand>)
    requires |hs| > 0 && !AllLeft(hs)
    ensures Step(s, Hands(hs)) == Outcome(State(s.held, s.ctrlFlag, true), true, "", [])
  {
  }

  // ---------------------------------------------------------------------
  // Properties of sequences of frames.

  predicate SprintFrame(frame: Frame) {
    frame.Hands? && |frame.hands| > 0 && AllLeft(frame.hands) && Sprint(Extract(frame.hands))
  }

  /**
   * The sprint tap is edge-triggered: over any run of sprint frames ctrl is
   * pressed and released once if the latch started unset and never if it
   * started set, and the latch ends set.
   */
  lemma {:induction false} SprintTapsOnce(s: State, frames: seq<Frame>)
    requires forall i :: 0 <= i < |frames| ==> SprintFrame(frames[i])
    ensures multiset(RunEvents(s, frames))[Press(Ctrl)] == if s.ctrlFlag || frames == [] then 0 else 1
    ensures multiset(RunEvents(s, frames))[Release(Ctrl)] == if s.ctrlFlag || frames == [] then 0 else 1
    ensures Run(s, frames).ctrlFlag == (s.ctrlFlag || frames != [])
    decreases |frames|
  {
    if frames != [] {
      var next := Step(s, frames[0]).next;
      var evs := Step(s, frames[0]).events;
      var rest := frames[1..];
      RunCons(s, frames);
      SprintStep(s, frames[0]);
      assert forall i :: 0 <= i < |rest| ==> SprintFrame(rest[i]) by {
        forall i | 0 <= i < |rest| ensures SprintFrame(rest[i]) {
          assert rest[i] == frames[i + 1];
        }
      }
      SprintTapsOnce(next, rest);
    }
  }

  /** Running a non-empty sequence of frames is one step, then the rest. */
  lemma RunCons(s: State, frames: seq<Frame>)
    requires frames != []
    ensures Run(s, frames) == Run(Step(s, frames[0]).next, frames[1..])
    ensures multiset(RunEvents(s, frames)) ==
      multiset(Step(s, frames[0]).events) + multiset(RunEvents(Step(s, frames[0]).next, frames[1..]))
  {
  }

  lemma SprintStep(s: State, frame: Frame)
    requires SprintFrame(frame)
    ensures multiset(Step(s, frame).events)[Press(Ctrl)] == if s.ctrlFlag then 0 else 1
    ensures multiset(Step(s, frame).events)[Release(Ctrl)] == if s.ctrlFlag then 0 else 1
    ensures Step(s, frame).next.ctrlFlag
  {
    StepOnLeftHands(s, frame.hands);
    CtrlEvents(s.ctrlFlag, Extract(frame.hands));
  }

  /**
   * From a consistent state, any sequence of frames that ends with a frame
   * without hands leaves no key down.
   */
  lemma {:induction false} EndsWithNoHands(s: State, frames: seq<Frame>)
    requires Consistent(s)
    requires |frames| > 0 && frames[|frames| - 1] == Hands([])
    ensures Run(s, frames).held == {}
    decreases |frames|
  {
    if |frames| == 1 {
      NoHandsFrame(s);
    } else {
      StepPreservesConsistent(s, frames[0]);
      EndsWithNoHands(Step(s, frames[0]).next, frames[1..]);
    }
  }

  // ---------------------------------------------------------------------
  // The controller as the program runs it.

  /**
   * The controller's persistent state: the keys down (as the keyboard sees
   * them), the log of every press and release issued, the sprint latch and
   * the hand-present flag.
   */
  class Controller {
    var held: set<Key>
    var log: seq<Event>
    var ctrlFlag: bool
    var inScreen: bool

    function Snapshot(): State
      reads this
    {
      State(held, ctrlFlag, inScreen)
    }

    /** The keys down are exactly those the log leaves down on a free keyboard. */
    ghost predicate Replays()
      reads this
    {
      held == Apply({}, log)
    }

    ghost predicate Valid()
      reads this
    {
      Replays() && Consistent(Snapshot())
    }

    constructor ()
      ensures Valid()
      ensures held == {} && log == [] && !ctrlFlag && !inScreen
    {
      held := {};
      log := [];
      ctrlFlag := false;
      inScreen := false;
    }

    method PressKey(k: Key)
      requires Replays()
      modifies this
      ensures Replays()
      ensures held == old(held) + {k} && log == old(log) + [Press(k)]
      ensures ctrlFlag == old(ctrlFlag) && inScreen == old(inScreen)
    {
      ApplySnoc({}, log, Press(k));
      held := held + {k};
      log := log + [Press(k)];
    }

    method ReleaseKey(k: Key)
      requires Replays()
      modifies this
      ensures Replays()
      ensures held == old(held) - {k} && log == old(log) + [Release(k)]
      ensures ctrlFlag == old(ctrlFlag) && inScreen == old(inScreen)
    {
      ApplySnoc({}, log, Release(k));
      held := held - {k};
      log := log + [Release(k)];
    }

    /**
     * The crouch step shared by the direction blocks: shift follows the
     * crouch test, and the label becomes the block's name, with " + Shift"
     * when crouching.
     */
    method CrouchKeys(crouch: bool, name: string) returns (text: string)
      requires Replays() && |name| > 0
      modifies this
      ensures Replays()
      ensures log == old(log) + [ShiftTo(crouch)]
      ensures ctrlFlag == old(ctrlFlag) && inScreen == old(inScreen)
      ensures text == WithShift(name, crouch)
    {
      text := name;
      if crouch {
        PressKey(Shift);
        if |text| > 0 { text := text + " + Shift"; } else { text := "Shift"; }
      } else {
        ReleaseKey(Shift);
      }
    }

    /**
     * The latch step of the Forward block: with the index tip not raised
     * above the rest of the hand (some other landmark lies strictly above
     * it), w is released if the latch is set, and the latch is cleared.
     */
    method ClearLatch(f: Features)
      requires Replays()
      modifies this
      ensures Replays()
      ensures log == old(log) + (if f.y8 > f.minYNo8 && old(ctrlFlag) then [Release(W)] else [])
      ensures ctrlFlag == (if f.y8 > f.minYNo8 then false else old(ctrlFlag))
      ensures inScreen == old(inScreen)
    {
      if f.y8 > f.minYNo8 {
        if ctrlFlag {
          ReleaseKey(W);
        }
        ctrlFlag := false;
      }
    }

    /**
     * The Forward block: w down, shift following the crouch test and the
     * label "Forward"; when the index tip is not raised above the rest
     * (some other landmark lies strictly above it), the latch is cleared,
     * with a release of w first if it was set. Otherwise w up.
     */
    method ForwardKeys(f: Features, text: string) returns (text': string)
      requires Replays()
      modifies this
      ensures Replays()
      ensures log == old(log) + ForwardBlock(old(ctrlFlag), f)
      ensures ctrlFlag == (if Forward(f) && f.y8 > f.minYNo8 then false else old(ctrlFlag))
      ensures inScreen == old(inScreen)
      ensures text' == Overwrite(Forward(f), WithShift("Forward", CrouchFront(f)), text)
    {
      text' := text;
      if f.y0 > f.maxY {
        ghost var lead: seq<Event> := if f.y8 > f.minYNo8 && ctrlFlag then [Release(W)] else [];
        ghost var tail := [Press(W), ShiftTo(CrouchFront(f))];
        ClearLatch(f);
        PressKey(W);
        text' := CrouchKeys(f.y20 < f.y13, "Forward");
        AppendAssoc(old(log) + lead, [Press(W)], [ShiftTo(CrouchFront(f))]);
        assert [Press(W)] + [ShiftTo(CrouchFront(f))] == tail;
        AppendAssoc(old(log), lead, tail);
      } else {
        ReleaseKey(W);
      }
    }

    /** The Run block: one tap of ctrl while the latch is unset, which sets it. */
    method RunKeys(f: Features, text: string) returns (text': string)
      requires Replays()
      modifies this
      ensures Replays()
      ensures log == old(log) + RunBlock(old(ctrlFlag), f)
      ensures ctrlFlag == (Sprint(f) || old(ctrlFlag))
      ensures inScreen == old(inScreen)
      ensures text' == Overwrite(Sprint(f), "Run", text)
    {
      text' := text;
      if f.y0 > f.maxY && f.y8 < f.minYNo8 {
        if !ctrlFlag {
          PressKey(Ctrl);
          ReleaseKey(Ctrl);
          ctrlFlag := true;
        }
        text' := "Run";
      }
    }

    /**
     * The Left, Right and Backward blocks: when the block fires, key down,
     * shift following its crouch test and the label name; otherwise key up.
     */
    method SideKeys(key: Key, fires: bool, crouch: bool, name: string, text: string) returns (text': string)
      requires Replays() && |name| > 0
      modifies this
      ensures Replays()
      ensures log == old(log) + SideBlock(key, fires, crouch)
      ensures ctrlFlag == old(ctrlFlag) && inScreen == old(inScreen)
      ensures text' == Overwrite(fires, WithShift(name, crouch), text)
    {
      text' := text;
      if fires {
        PressKey(key);
        text' := CrouchKeys(crouch, name);
        assert log == old(log) + [Press(key)] + [ShiftTo(crouch)];
      } else {
        ReleaseKey(key);
      }
    }

    /** The Jump block: space follows the thumb, and " Jump" is appended to the label. */
    method JumpKeys(f: Features, text: string) returns (text': string)
      requires Replays()
      modifies this
      ensures Replays()
      ensures log == old(log) + JumpBlock(f)
      ensures ctrlFlag == old(ctrlFlag) && inScreen == old(inScreen)
      ensures text' == WithJump(text, Jump(f))
    {
      text' := text;
      if f.x4 > f.maxXNo4 {
        PressKey(Space);
        if |text'| > 0 { text' := text' + " Jump"; } else { text' := "Jump"; }
      } else {
        ReleaseKey(Space);
      }
    }

    /** The fail-safe: release every key, in the order AllKeys lists them. */
    method ReleaseEveryKey()
      requires Replays()
      modifies this
      ensures Replays()
      ensures log == old(log) + ReleaseAll
      ensures ctrlFlag == old(ctrlFlag) && inScreen == old(inScreen)
    {
      ReleaseAllInOrder();
      var i := 0;
      while i < |AllKeys|
        invariant 0 <= i <= |AllKeys|
        invariant Replays() && log == old(log) + ReleaseAll[..i]
        invariant ctrlFlag == old(ctrlFlag) && inScreen == old(inScreen)
      {
        ReleaseKey(AllKeys[i]);
        assert ReleaseAll[..i + 1] == ReleaseAll[..i] + [ReleaseAll[i]];
        i := i + 1;
      }
      assert ReleaseAll[..|AllKeys|] == ReleaseAll;
    }

    /** The Forward and Run blocks, which share the sprint latch. */
    method FrontKeys(f: Features) returns (text: string)
      requires Replays()
      modifies this
      ensures Replays()
      ensures log == old(log) + (ForwardBlock(old(ctrlFlag), f) + RunBlock(old(ctrlFlag), f))
      ensures ctrlFlag == LatchAfter(old(ctrlFlag), f) && inScreen == old(inScreen)
      ensures text == Overwrite(Sprint(f), "Run", Overwrite(Forward(f), WithShift("Forward", CrouchFront(f)), ""))
    {
      ghost var flag := ctrlFlag;
      text := ForwardKeys(f, "");
      assert RunBlock(ctrlFlag, f) == RunBlock(flag, f);
      text := RunKeys(f, text);
      AppendAssoc(old(log), ForwardBlock(flag, f), RunBlock(flag, f));
    }

    /** The Left, Right and Backward blocks, in that order. */
    method TiltKeys(f: Features, text: string) returns (text': string)
      requires Replays()
      modifies this
      ensures Replays()
      ensures log == old(log) + (SideBlock(A, TiltLeft(f), CrouchFront(f))
        + SideBlock(D, TiltRight(f), CrouchFront(f)) + SideBlock(S, Backward(f), CrouchBack(f)))
      ensures ctrlFlag == old(ctrlFlag) && inScreen == old(inScreen)
      ensures text' == Overwrite(Backward(f), WithShift("Backward", CrouchBack(f)),
        Overwrite(TiltRight(f), WithShift("Right", CrouchFront(f)),
          Overwrite(TiltLeft(f), WithShift("Left", CrouchFront(f)), text)))
    {
      ghost var b3 := SideBlock(A, TiltLeft(f), CrouchFront(f));
      ghost var b4 := SideBlock(D, TiltRight(f), CrouchFront(f));
      ghost var b5 := SideBlock(S, Backward(f), CrouchBack(f));
      text' := SideKeys(A, TiltLeft(f), CrouchFront(f), "Left", text);
      text' := SideKeys(D, TiltRight(f), CrouchFront(f), "Right", text');
      AppendAssoc(old(log), b3, b4);
      text' := SideKeys(S, Backward(f), CrouchBack(f), "Backward", text');
      AppendAssoc(old(log), b3 + b4, b5);
    }

    /** The blocks of a frame of Left hands, in order. */
    method LeftHandKeys(f: Features) returns (text: string)
      requires Replays()
      modifies this
      ensures Replays()
      ensures log == old(log) + FrameEvents(old(ctrlFlag), f)
      ensures ctrlFlag == LatchAfter(old(ctrlFlag), f) && inScreen == old(inScreen)
      ensures text == Label(f)
    {
      ghost var front := ForwardBlock(ctrlFlag, f) + RunBlock(ctrlFlag, f);
      ghost var tilts := SideBlock(A, TiltLeft(f), CrouchFront(f))
        + SideBlock(D, TiltRight(f), CrouchFront(f)) + SideBlock(S, Backward(f), CrouchBack(f));
      text := FrontKeys(f);
      text := TiltKeys(f, text);
      assert text == BlockOrderLabel(f);
      BlockOrderIsPriority(f);
      AppendAssoc(old(log), front, tilts);
      text := JumpKeys(f, text);
      AppendAssoc(old(log), front + tilts, JumpBlock(f));
      FrameEventsGrouped(old(ctrlFlag), f);
    }

    /**
     * One frame: the landmark pass, then the Forward, Run, Left, Right,
     * Backward and Jump blocks, or the release of every key when the hand
     * has left. The new state, the events issued and the label are those
     * of Step.
     */
    method ProcessFrame(frame: Frame) returns (shown: bool, text: string)
      requires Valid()
      modifies this
      ensures Valid()
      ensures Snapshot() == Step(old(Snapshot()), frame).next
      ensures log == old(log) + Step(old(Snapshot()), frame).events
      ensures shown == Step(old(Snapshot()), frame).shown
      ensures text == Step(old(Snapshot()), frame).status
    {
      ghost var s := Snapshot();
      text := "";
      if frame.NoFrame? {
        shown := false;
        return;
      }
      shown := true;
      var hs := frame.hands;
      if |hs| > 0 {
        inScreen := true;
        var isLeft, f := ExtractFeatures(hs);
        if !isLeft {
          return;
        }
        text := LeftHandKeys(f);
        StepOnLeftHands(s, hs);
        ApplyAppend({}, old(log), FrameEvents(s.ctrlFlag, f));
        StepPreservesConsistent(s, frame);
      } else if inScreen {
        ReleaseEveryKey();
        inScreen := false;
        ApplyAppend({}, old(log), ReleaseAll);
        StepPreservesConsistent(s, frame);
      }
    }
  }
}
