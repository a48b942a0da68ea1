/**
 * Hand landmarks as the detector reports them, already scaled to integer
 * pixels, and the single pass over them that derives the controller's
 * features: a bounding box of the hand without its wrist, two extremes that
 * each leave out one fingertip, and a handful of single coordinates.
 */
module Landmarks {

  /** Sentinel that the running minima and maxima start from. */
  const INF: int := 1_000_000_000

  /** Every detected hand carries the 21 points of the standard hand topology. */
  const NumLandmarks: nat := 21

  /** A landmark in pixel space; y grows downward. */
  datatype Point = Point(x: int, y: int)

  /** The 21 landmarks of one hand, wrist first. */
  type HandPoints = s: seq<Point> | |s| == NumLandmarks
    witness seq(NumLandmarks, _ => Point(0, 0))

  /** The detector's handedness label; only Left hands steer. */
  datatype Handedness = LeftHand | RightHand

  datatype Hand = Hand(side: Handedness, points: HandPoints)

  predicate AllLeft(hs: seq<Hand>) {
    forall k :: 0 <= k < |hs| ==> hs[k].side == LeftHand
  }

  /**
   * The accumulators of the landmark pass: the box over landmarks 1..20
   * (minX, minY, maxX, maxY), the least y of every landmark but 8 and the
   * greatest x of every landmark but 4 (both include the wrist), and the
   * single coordinates the classifier reads.
   */
  datatype Features = Features(
    minX: int, minY: int, maxX: int, maxY: int,
    minYNo8: int, maxXNo4: int,
    x0: int, y0: int, y8: int, x4: int, y13: int, y14: int, y20: int)

  const Initial: Features := Features(INF, INF, -INF, -INF, INF, -INF, 0, 0, 0, 0, 0, 0, 0)

  function Min(a: int, b: int): int { if a <= b then a else b }
  function Max(a: int, b: int): int { if a >= b then a else b }

  /** What landmark number j, at p, does to the accumulators. */
  function Visit(f: Features, j: nat, p: Point): Features {
    var f1 := if j == 13 then f.(y13 := p.y) else f;
    var f2 := if j == 14 then f1.(y14 := p.y) else f1;
    var f3 := if j == 20 then f2.(y20 := p.y) else f2;
    var f4 := if j == 8 then f3.(y8 := p.y) else f3.(minYNo8 := Min(f3.minYNo8, p.y));
    var f5 := if j == 4 then f4.(x4 := p.x) else f4.(maxXNo4 := Max(f4.maxXNo4, p.x));
    if j != 0 then
      f5.(minX := Min(f5.minX, p.x), minY := Min(f5.minY, p.y),
          maxX := Max(f5.maxX, p.x), maxY := Max(f5.maxY, p.y))
    else
      f5.(x0 := p.x, y0 := p.y)
  }

  /** The accumulators after the first n landmarks of one hand, starting from f. */
  function VisitHand(f: Features, pts: HandPoints, n: nat): Features
    requires n <= NumLandmarks
  {
    if n == 0 then f else Visit(VisitHand(f, pts, n - 1), n - 1, pts[n - 1])
  }

  /** The accumulators after the first n hands; hands not labelled Left are skipped. */
  function VisitHands(hs: seq<Hand>, n: nat): Features
    requires n <= |hs|
  {
    if n == 0 then Initial
    else
      var f := VisitHands(hs, n - 1);
      if hs[n - 1].side == LeftHand then VisitHand(f, hs[n - 1].points, |hs[n - 1].points|) else f
  }

  /** The features of one frame's hands, merged across every Left hand. */
  function Extract(hs: seq<Hand>): Features {
    VisitHands(hs, |hs|)
  }

  /**
   * The landmark pass as the controller runs it: one loop over the hands,
   * one over each Left hand's landmarks, updating the accumulators in place.
   * isLeft is cleared by any hand not labelled Left.
   */
  method ExtractFeatures(hs: seq<Hand>) returns (isLeft: bool, f: Features)
    ensures isLeft == AllLeft(hs)
    ensures f == Extract(hs)
  {
    f := Initial;
    isLeft := true;
    var i := 0;
    while i < |hs|
      invariant 0 <= i <= |hs|
      invariant f == VisitHands(hs, i)
      invariant isLeft == (forall k :: 0 <= k < i ==> hs[k].side == LeftHand)
    {
      var hand := hs[i];
      if hand.side != LeftHand {
        isLeft := false;
        i := i + 1;
        continue;
      }
      f := VisitLandmarks(f, hand.points);
      i := i + 1;
    }
  }

  /** The landmark loop over one hand, from the accumulators f. */
  method VisitLandmarks(f: Features, pts: HandPoints) returns (g: Features)
    ensures g == VisitHand(f, pts, |pts|)
  {
    g := f;
    var j := 0;
    while j < |pts|
      invariant 0 <= j <= |pts|
      invariant g == VisitHand(f, pts, j)
    {
      var p := pts[j];
      if j == 13 { g := g.(y13 := p.y); }
      if j == 14 { g := g.(y14 := p.y); }
      if j == 20 { g := g.(y20 := p.y); }
      if j == 8 { g := g.(y8 := p.y); } else { g := g.(minYNo8 := Min(g.minYNo8, p.y)); }
      if j == 4 { g := g.(x4 := p.x); } else { g := g.(maxXNo4 := Max(g.maxXNo4, p.x)); }
      if j != 0 {
        g := g.(minX := Min(g.minX, p.x), minY := Min(g.minY, p.y),
                maxX := Max(g.maxX, p.x), maxY := Max(g.maxY, p.y));
      } else {
        g := g.(x0 := p.x, y0 := p.y);
      }
      j := j + 1;
    }
  }

  // ---------------------------------------------------------------------
  // The six running extremes, treated uniformly.

  /** One of the six min/max accumulators. */
  datatype Extreme = MinX | MinY | MaxX | MaxY | MinYNo8 | MaxXNo4

  function Read(f: Features, e: Extreme): int {
    match e
    case MinX => f.minX
    case MinY => f.minY
    case MaxX => f.maxX
    case MaxY => f.maxY
    case MinYNo8 => f.minYNo8
    case MaxXNo4 => f.maxXNo4
  }

  /** The coordinate of a landmark that an accumulator compares. */
  function Coord(p: Point, e: Extreme): int {
    match e
    case MinX => p.x
    case MaxX => p.x
    case MaxXNo4 => p.x
    case MinY => p.y
    case MaxY => p.y
    case MinYNo8 => p.y
  }

  /** The landmark an accumulator leaves out. */
  function Skipped(e: Extreme): nat {
    match e
    case MinYNo8 => 8
    case MaxXNo4 => 4
    case _ => 0
  }

  predicate IsMin(e: Extreme) {
    e.MinX? || e.MinY? || e.MinYNo8?
  }

  function Sentinel(e: Extreme): int {
    if IsMin(e) then INF else -INF
  }

  /** u is at least as extreme as v, in e's direction. */
  predicate Beats(e: Extreme, u: int, v: int) {
    if IsMin(e) then u <= v else v <= u
  }

  /** The accumulator e after it has seen landmark j at p, given it held m. */
  function Combine(e: Extreme, m: int, j: nat, p: Point): int {
    if j == Skipped(e) then m
    else if IsMin(e) then Min(m, Coord(p, e))
    else Max(m, Coord(p, e))
  }

  /**
   * Landmark j of hand k is one that e ranges over and that comes before
   * landmark p of hand n in the pass.
   */
  ghost predicate Visited(hs: seq<Hand>, n: nat, p: nat, k: int, j: int, skip: nat) {
    0 <= k < |hs| && hs[k].side == LeftHand && 0 <= j < NumLandmarks && j != skip &&
    (k < n || (k == n && j < p))
  }

  /**
   * m is the extreme, in e's direction, of e's sentinel and of every
   * landmark coordinate e ranges over before landmark p of hand n.
   */
  ghost predicate Extremal(e: Extreme, m: int, hs: seq<Hand>, n: nat, p: nat) {
    Beats(e, m, Sentinel(e)) &&
    (forall k: int, j: int :: Visited(hs, n, p, k, j, Skipped(e)) ==> Beats(e, m, Coord(hs[k].points[j], e))) &&
    (m == Sentinel(e) ||
     exists k: int, j: int :: Visited(hs, n, p, k, j, Skipped(e)) && m == Coord(hs[k].points[j], e))
  }

  lemma VisitRead(f: Features, j: nat, p: Point, e: Extreme)
    ensures Read(Visit(f, j, p), e) == Combine(e, Read(f, e), j, p)
  {
  }

  lemma ExtremalStep(e: Extreme, m: int, hs: seq<Hand>, n: nat, p: nat)
    requires n < |hs| && hs[n].side == LeftHand && p < NumLandmarks
    requires Extremal(e, m, hs, n, p)
    ensures Extremal(e, Combine(e, m, p, hs[n].points[p]), hs, n, p + 1)
  {
    var m' := Combine(e, m, p, hs[n].points[p]);
    var v := Coord(hs[n].points[p], e);
    forall k: int, j: int | Visited(hs, n, p + 1, k, j, Skipped(e))
      ensures Beats(e, m', Coord(hs[k].points[j], e))
    {
      if !(k == n && j == p) {
        assert Visited(hs, n, p, k, j, Skipped(e));
      }
    }
    if m' != Sentinel(e) {
      if p != Skipped(e) && m' == v {
        assert Visited(hs, n, p + 1, n, p, Skipped(e));
      } else {
        assert m' == m;
        var k: int, j: int :| Visited(hs, n, p, k, j, Skipped(e)) && m == Coord(hs[k].points[j], e);
        assert Visited(hs, n, p + 1, k, j, Skipped(e));
      }
    }
  }

  lemma NextHand(e: Extreme, m: int, hs: seq<Hand>, n: nat)
    requires n < |hs|
    requires Extremal(e, m, hs, n, if hs[n].side == LeftHand then NumLandmarks else 0)
    ensures Extremal(e, m, hs, n + 1, 0)
  {
    var q := if hs[n].side == LeftHand then NumLandmarks else 0;
    forall k: int, j: int | Visited(hs, n + 1, 0, k, j, Skipped(e))
      ensures Visited(hs, n, q, k, j, Skipped(e))
    {
    }
    if m != Sentinel(e) {
      var k: int, j: int :| Visited(hs, n, q, k, j, Skipped(e)) && m == Coord(hs[k].points[j], e);
      assert Visited(hs, n + 1, 0, k, j, Skipped(e));
    }
  }

  lemma {:induction false} HandExtremal(e: Extreme, hs: seq<Hand>, n: nat, start: Features, p: nat)
    requires n < |hs| && hs[n].side == LeftHand && p <= NumLandmarks
    requires Extremal(e, Read(start, e), hs, n, 0)
    ensures Extremal(e, Read(VisitHand(start, hs[n].points, p), e), hs, n, p)
  {
    if p > 0 {
      var before := VisitHand(start, hs[n].points, p - 1);
      HandExtremal(e, hs, n, start, p - 1);
      VisitRead(before, p - 1, hs[n].points[p - 1], e);
      ExtremalStep(e, Read(before, e), hs, n, p - 1);
    }
  }

  lemma {:induction false} HandsExtremal(e: Extreme, hs: seq<Hand>, n: nat)
    requires n <= |hs|
    ensures Extremal(e, Read(VisitHands(hs, n), e), hs, n, 0)
  {
    if n > 0 {
      var before := VisitHands(hs, n - 1);
      HandsExtremal(e, hs, n - 1);
      if hs[n - 1].side == LeftHand {
        HandExtremal(e, hs, n - 1, before, |hs[n - 1].points|);
      }
      NextHand(e, Read(VisitHands(hs, n), e), hs, n - 1);
    }
  }

  /**
   * Each of the six accumulators ends as the least (or greatest) of its
   * sentinel and of the coordinates of every landmark it ranges over, in
   * every Left hand of the frame.
   */
  lemma ExtractExtremes(hs: seq<Hand>, e: Extreme)
    ensures Extremal(e, Read(Extract(hs), e), hs, |hs|, 0)
  {
    HandsExtremal(e, hs, |hs|);
  }

  /**
   * Every landmark but the wrist lies inside the box; the wrist and every
   * landmark but the index tip lie on or below minYNo8; the wrist and every
   * landmark but the thumb tip lie on or left of maxXNo4.
   */
  lemma ExtractBounds(hs: seq<Hand>)
    ensures forall k, j | 0 <= k < |hs| && hs[k].side == LeftHand && 1 <= j < NumLandmarks ::
      Extract(hs).minX <= hs[k].points[j].x <= Extract(hs).maxX &&
      Extract(hs).minY <= hs[k].points[j].y <= Extract(hs).maxY
    ensures forall k, j | 0 <= k < |hs| && hs[k].side == LeftHand && 0 <= j < NumLandmarks && j != 8 ::
      Extract(hs).minYNo8 <= hs[k].points[j].y
    ensures forall k, j | 0 <= k < |hs| && hs[k].side == LeftHand && 0 <= j < NumLandmarks && j != 4 ::
      hs[k].points[j].x <= Extract(hs).maxXNo4
  {
    ExtractExtremes(hs, MinX);
    ExtractExtremes(hs, MinY);
    ExtractExtremes(hs, MaxX);
    ExtractExtremes(hs, MaxY);
    ExtractExtremes(hs, MinYNo8);
    ExtractExtremes(hs, MaxXNo4);
    forall k, j | 0 <= k < |hs| && hs[k].side == LeftHand && 0 <= j < NumLandmarks
      ensures j != 0 ==> Visited(hs, |hs|, 0, k, j, 0)
      ensures j != 8 ==> Visited(hs, |hs|, 0, k, j, 8)
      ensures j != 4 ==> Visited(hs, |hs|, 0, k, j, 4)
    {
    }
  }

  /** Every coordinate of every hand lies strictly between the sentinels. */
  ghost predicate InRange(hs: seq<Hand>) {
    forall k, j | 0 <= k < |hs| && 0 <= j < NumLandmarks ::
      -INF < hs[k].points[j].x < INF && -INF < hs[k].points[j].y < INF
  }

  /**
   * With a Left hand present and coordinates inside the sentinels, each
   * accumulator is attained: it is the coordinate of some landmark it
   * ranges over.
   */
  lemma ExtractAttained(hs: seq<Hand>, left: nat, e: Extreme)
    requires left < |hs| && hs[left].side == LeftHand
    requires InRange(hs)
    ensures exists k: int, j: int ::
              Visited(hs, |hs|, 0, k, j, Skipped(e)) && Read(Extract(hs), e) == Coord(hs[k].points[j], e)
  {
    ExtractExtremes(hs, e);
    assert Visited(hs, |hs|, 0, left, 1, Skipped(e));
    assert -INF < Coord(hs[left].points[1], e) < INF;
  }

  /** hs[k] is the last hand labelled Left. */
  ghost predicate IsLastLeft(hs: seq<Hand>, k: nat) {
    k < |hs| && hs[k].side == LeftHand &&
    forall k' :: k < k' < |hs| ==> hs[k'].side != LeftHand
  }

  /** f carries the single coordinates of pts. */
  ghost predicate CarriesSingles(f: Features, pts: HandPoints) {
    f.x0 == pts[0].x && f.y0 == pts[0].y && f.y8 == pts[8].y && f.x4 == pts[4].x &&
    f.y13 == pts[13].y && f.y14 == pts[14].y && f.y20 == pts[20].y
  }

  lemma {:induction false} HandSingles(f: Features, pts: HandPoints, p: nat)
    requires p <= NumLandmarks
    ensures var g := VisitHand(f, pts, p);
      g.x0 == (if p > 0 then pts[0].x else f.x0) && g.y0 == (if p > 0 then pts[0].y else f.y0) &&
      g.x4 == (if p > 4 then pts[4].x else f.x4) && g.y8 == (if p > 8 then pts[8].y else f.y8) &&
      g.y13 == (if p > 13 then pts[13].y else f.y13) && g.y14 == (if p > 14 then pts[14].y else f.y14) &&
      g.y20 == (if p > 20 then pts[20].y else f.y20)
  {
    if p > 0 {
      HandSingles(f, pts, p - 1);
    }
  }

  lemma {:induction false} HandsSingles(hs: seq<Hand>, k: nat, n: nat)
    requires k < n <= |hs| && hs[k].side == LeftHand
    requires forall k' :: k < k' < n ==> hs[k'].side != LeftHand
    ensures CarriesSingles(VisitHands(hs, n), hs[k].points)
  {
    if n == k + 1 {
      HandSingles(VisitHands(hs, k), hs[k].points, |hs[k].points|);
    } else {
      HandsSingles(hs, k, n - 1);
    }
  }

  /**
   * The single coordinates (wrist, thumb tip, index tip, ring MCP and PIP,
   * pinky tip) come from the last Left hand of the frame.
   */
  lemma ExtractSinglePoints(hs: seq<Hand>, k: nat)
    requires IsLastLeft(hs, k)
    ensures var f := Extract(hs); var pts := hs[k].points;
      f.x0 == pts[0].x && f.y0 == pts[0].y && f.y8 == pts[8].y && f.x4 == pts[4].x &&
      f.y13 == pts[13].y && f.y14 == pts[14].y && f.y20 == pts[20].y
  {
    HandsSingles(hs, k, |hs|);
  }
}
