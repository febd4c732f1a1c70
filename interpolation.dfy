/**
 * Filling the frames where no ball was found. Per coordinate, pandas' `interpolate()`
 * draws a straight line between the known frames on either side of a gap and carries
 * the last known value forward over a trailing gap; `bfill()` then copies the first
 * known value back over a leading gap. All four coordinates of a box are missing
 * together, so the rule is stated per box.
 */
module Interpolation {
  import opened Wrappers
  import opened ImageUtils

  /** The latest known frame at or before `m`. */
  function PrevKnown(s: seq<Option<Box>>, m: nat): (r: Option<nat>)
    requires m < |s|
    ensures r.None? <==> forall k :: 0 <= k <= m ==> s[k].None?
    ensures r.Some? ==> r.value <= m && s[r.value].Some? && forall k :: r.value < k <= m ==> s[k].None?
  {
    if s[m].Some? then Some(m)
    else if m == 0 then None
    else PrevKnown(s, m - 1)
  }

  /** The earliest known frame at or after `m`. */
  function NextKnown(s: seq<Option<Box>>, m: nat): (r: Option<nat>)
    requires m < |s|
    ensures r.None? <==> forall k :: m <= k < |s| ==> s[k].None?
    ensures r.Some? ==> m <= r.value < |s| && s[r.value].Some? && forall k :: m <= k < r.value ==> s[k].None?
    decreases |s| - m
  {
    if s[m].Some? then Some(m)
    else if m == |s| - 1 then None
    else NextKnown(s, m + 1)
  }

  lemma PrevKnownIs(s: seq<Option<Box>>, i: nat, m: nat)
    requires i <= m < |s| && s[i].Some?
    requires forall k :: i < k <= m ==> s[k].None?
    ensures PrevKnown(s, m) == Some(i)
  {
  }

  lemma NextKnownIs(s: seq<Option<Box>>, m: nat, j: nat)
    requires m <= j < |s| && s[j].Some?
    requires forall k :: m <= k < j ==> s[k].None?
    ensures NextKnown(s, m) == Some(j)
  {
  }

  /** The point a fraction `t` of the way from `a` to `b`. */
  function Lerp(a: real, b: real, t: real): real {
    a + ScaleBy(b - a, t)
  }

  /** For `t` in [0, 1] the point lies between the two ends. */
  lemma LerpBetween(a: real, b: real, t: real)
    requires 0.0 <= t <= 1.0
    ensures Min(a, b) <= Lerp(a, b, t) <= Max(a, b)
  {
    ScaledWithin(b - a, t);
  }

  lemma ScaledWithin(d: real, t: real)
    requires 0.0 <= t <= 1.0
    ensures d >= 0.0 ==> 0.0 <= ScaleBy(d, t) <= d
    ensures d <= 0.0 ==> d <= ScaleBy(d, t) <= 0.0
  {
    assert d - d * t == d * (1.0 - t);
  }

  function LerpBox(a: Box, b: Box, t: real): Box {
    Box(Lerp(a.x1, b.x1, t), Lerp(a.y1, b.y1, t), Lerp(a.x2, b.x2, t), Lerp(a.y2, b.y2, t))
  }

  /** Each coordinate of `LerpBox(a, b, t)` is `a + (b - a) * t`. */
  lemma LerpBoxCoordinates(a: Box, b: Box, t: real)
    ensures var v := LerpBox(a, b, t);
      && v.x1 == a.x1 + (b.x1 - a.x1) * t && v.y1 == a.y1 + (b.y1 - a.y1) * t
      && v.x2 == a.x2 + (b.x2 - a.x2) * t && v.y2 == a.y2 + (b.y2 - a.y2) * t
  {
  }

  predicate SomeKnown(s: seq<Option<Box>>) {
    exists k :: 0 <= k < |s| && s[k].Some?
  }

  /** The value frame `m` holds after `interpolate().bfill()`. */
  function FilledAt(s: seq<Option<Box>>, m: nat): Box
    requires m < |s| && SomeKnown(s)
  {
    match PrevKnown(s, m)
    case Some(i) =>
      (match NextKnown(s, m)
       case Some(j) =>
         if i == j then s[i].value
         else LerpBox(s[i].value, s[j].value, (m - i) as real / (j - i) as real)
       case None => s[i].value)
    case None =>
      var next := NextKnown(s, m);
      assert next.Some?;
      s[next.value].value
  }

  /** The box a frame of ball tracks holds under key 1, if any. */
  function BallBox(frame: map<int, Box>): Option<Box> {
    if 1 in frame then Some(frame[1]) else None
  }

  /**
   * `interpolate_ball_positions` on a track with at least one ball: one frame out per
   * frame in, each holding the single key 1. The other inputs are handled by `Interpolate`.
   */
  function InterpolateBallPositions(ball: seq<map<int, Box>>): (r: seq<map<int, Box>>)
    requires SomeKnown(BallBoxes(ball))
    ensures |r| == |ball|
    ensures forall m :: 0 <= m < |r| ==> r[m].Keys == {1}
  {
    var s := BallBoxes(ball);
    seq(|ball|, m requires 0 <= m < |ball| => map[1 := FilledAt(s, m)])
  }

  /**
   * Why `interpolate_ball_positions` raises: there are frames but none holds a ball, so
   * every row handed to the data frame is empty while four column names are given, and
   * pandas refuses the shape with a `ValueError`.
   */
  datatype InterpolationError = NoBallColumns

  /**
   * `interpolate_ball_positions` on every input: an empty track gives an empty result, a
   * track with frames but no ball raises, and any other track is filled as
   * `InterpolateBallPositions` says.
   */
  function Interpolate(ball: seq<map<int, Box>>): (r: Result<seq<map<int, Box>>, InterpolationError>)
    ensures r.Err? <==> |ball| > 0 && !SomeKnown(BallBoxes(ball))
    ensures r.Ok? ==> |r.value| == |ball| && forall m :: 0 <= m < |ball| ==> r.value[m].Keys == {1}
    ensures r.Ok? && |ball| > 0 ==> SomeKnown(BallBoxes(ball)) && r.value == InterpolateBallPositions(ball)
  {
    if |ball| == 0 then Ok([])
    else if SomeKnown(BallBoxes(ball)) then Ok(InterpolateBallPositions(ball))
    else Err(NoBallColumns)
  }

  function BallBoxes(ball: seq<map<int, Box>>): (s: seq<Option<Box>>)
    ensures |s| == |ball|
    ensures forall m :: 0 <= m < |ball| ==> s[m] == BallBox(ball[m])
  {
    seq(|ball|, m requires 0 <= m < |ball| => BallBox(ball[m]))
  }

  /** A frame where the ball was found keeps its box. */
  lemma KnownFrameUnchanged(ball: seq<map<int, Box>>, m: nat)
    requires SomeKnown(BallBoxes(ball))
    requires m < |ball| && 1 in ball[m]
    ensures InterpolateBallPositions(ball)[m][1] == ball[m][1]
  {
  }

  /**
   * A gap frame `m` between known frames `i` and `j`, with nothing known in between,
   * lies on the straight line from the box at `i` to the box at `j`, at the fraction
   * `(m - i) / (j - i)` of the way.
   */
  lemma InteriorGapIsLerp(ball: seq<map<int, Box>>, i: nat, m: nat, j: nat)
    requires SomeKnown(BallBoxes(ball))
    requires i < m < j < |ball| && 1 in ball[i] && 1 in ball[j]
    requires forall k :: i < k < j ==> 1 !in ball[k]
    ensures InterpolateBallPositions(ball)[m][1] == LerpBox(ball[i][1], ball[j][1], (m - i) as real / (j - i) as real)
  {
    var s := BallBoxes(ball);
    PrevKnownIs(s, i, m);
    NextKnownIs(s, m, j);
    var t := (m - i) as real / (j - i) as real;
    assert FilledAt(s, m) == LerpBox(ball[i][1], ball[j][1], t);
    assert InterpolateBallPositions(ball)[m][1] == FilledAt(s, m);
  }

  /** Each coordinate of an interpolated box lies between the coordinates of its neighbours. */
  lemma InteriorGapBetween(ball: seq<map<int, Box>>, i: nat, m: nat, j: nat)
    requires SomeKnown(BallBoxes(ball))
    requires i < m < j < |ball| && 1 in ball[i] && 1 in ball[j]
    requires forall k :: i < k < j ==> 1 !in ball[k]
    ensures var a, b, v := ball[i][1], ball[j][1], InterpolateBallPositions(ball)[m][1];
      && Min(a.x1, b.x1) <= v.x1 <= Max(a.x1, b.x1) && Min(a.y1, b.y1) <= v.y1 <= Max(a.y1, b.y1)
      && Min(a.x2, b.x2) <= v.x2 <= Max(a.x2, b.x2) && Min(a.y2, b.y2) <= v.y2 <= Max(a.y2, b.y2)
  {
    InteriorGapIsLerp(ball, i, m, j);
    RatioInUnit(m - i, j - i);
    LerpBoxBetween(ball[i][1], ball[j][1], (m - i) as real / (j - i) as real);
  }

  lemma RatioInUnit(p: nat, q: nat)
    requires p <= q && q > 0
    ensures 0.0 <= p as real / q as real <= 1.0
  {
    assert p as real / q as real * q as real == p as real;
  }

  lemma LerpBoxBetween(a: Box, b: Box, t: real)
    requires 0.0 <= t <= 1.0
    ensures var v := LerpBox(a, b, t);
      && Min(a.x1, b.x1) <= v.x1 <= Max(a.x1, b.x1) && Min(a.y1, b.y1) <= v.y1 <= Max(a.y1, b.y1)
      && Min(a.x2, b.x2) <= v.x2 <= Max(a.x2, b.x2) && Min(a.y2, b.y2) <= v.y2 <= Max(a.y2, b.y2)
  {
    LerpBetween(a.x1, b.x1, t);
    LerpBetween(a.y1, b.y1, t);
    LerpBetween(a.x2, b.x2, t);
    LerpBetween(a.y2, b.y2, t);
  }

  function Min(a: real, b: real): real { if a <= b then a else b }
  function Max(a: real, b: real): real { if a <= b then b else a }

  /** Frames before the first sighting take the first known box (`bfill`). */
  lemma LeadingGapBackFilled(ball: seq<map<int, Box>>, m: nat, j: nat)
    requires SomeKnown(BallBoxes(ball))
    requires m < j < |ball| && 1 in ball[j]
    requires forall k :: 0 <= k < j ==> 1 !in ball[k]
    ensures InterpolateBallPositions(ball)[m][1] == ball[j][1]
  {
    NextKnownIs(BallBoxes(ball), m, j);
  }

  /** Frames after the last sighting keep the last known box. */
  lemma TrailingGapCarriesLast(ball: seq<map<int, Box>>, i: nat, m: nat)
    requires SomeKnown(BallBoxes(ball))
    requires i < m < |ball| && 1 in ball[i]
    requires forall k :: i < k < |ball| ==> 1 !in ball[k]
    ensures InterpolateBallPositions(ball)[m][1] == ball[i][1]
  {
    PrevKnownIs(BallBoxes(ball), i, m);
  }

  /** A single sighting is copied into every frame. */
  lemma SingleSightingEverywhere(ball: seq<map<int, Box>>, i: nat)
    requires i < |ball| && 1 in ball[i]
    requires forall k :: 0 <= k < |ball| && k != i ==> 1 !in ball[k]
    ensures assert BallBoxes(ball)[i].Some?;
      forall m :: 0 <= m < |ball| ==> InterpolateBallPositions(ball)[m][1] == ball[i][1]
  {
    assert BallBoxes(ball)[i].Some?;
    forall m | 0 <= m < |ball| ensures InterpolateBallPositions(ball)[m][1] == ball[i][1] {
      if m < i {
        LeadingGapBackFilled(ball, m, i);
      } else if m > i {
        TrailingGapCarriesLast(ball, i, m);
      }
    }
  }

  /** Interpolating twice changes nothing: after the first pass every frame is known. */
  lemma InterpolateIdempotent(ball: seq<map<int, Box>>)
    requires SomeKnown(BallBoxes(ball))
    ensures var once := InterpolateBallPositions(ball);
      assert |once| > 0 && BallBoxes(once)[0].Some?;
      InterpolateBallPositions(once) == once
  {
    var once := InterpolateBallPositions(ball);
    assert |once| > 0 && BallBoxes(once)[0].Some?;
    var twice := InterpolateBallPositions(once);
    forall m | 0 <= m < |once| ensures twice[m] == once[m] {
      KnownFrameUnchanged(once, m);
    }
  }

  /** A ball missing for one frame between two sightings is put halfway between them. */
  lemma OneFrameGapMidpoint(a: Box, b: Box)
    ensures var ball := [map[1 := a], map[], map[1 := b]];
      assert BallBoxes(ball)[0].Some?;
      InterpolateBallPositions(ball)[1][1]
        == Box((a.x1 + b.x1) / 2.0, (a.y1 + b.y1) / 2.0, (a.x2 + b.x2) / 2.0, (a.y2 + b.y2) / 2.0)
  {
    var ball := [map[1 := a], map[], map[1 := b]];
    assert BallBoxes(ball)[0].Some?;
    InteriorGapIsLerp(ball, 0, 1, 2);
    LerpBoxCoordinates(a, b, 0.5);
  }
}
