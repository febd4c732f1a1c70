/**
 * Choosing the ball among a frame's candidate detections: each ball-class candidate is
 * scored by its confidence and, once a ball has been seen, by how close it lies to the
 * last accepted ball centre; the first candidate with the greatest score wins.
 */
module BallScoring {
  import opened Wrappers
  import opened ImageUtils

  /** One detection as the scorer sees it: `(bbox, class_id, confidence)`. */
  datatype Candidate = Candidate(bbox: Box, classId: int, confidence: real)

  /**
   * The Euclidean distance between two points (`np.linalg.norm` of their difference).
   * Dafny's reals have no square root, so the distance is a parameter of the model.
   */
  type Distance = (Point, Point) -> real

  const ConfidenceWeight: real := 0.6
  const ProximityWeight: real := 0.4

  /**
   * `max(0, 1 - distance / max_distance)`: one at the last position, falling linearly to
   * zero at `max_distance`. With `max_distance == 0` numpy's division gives infinity (or
   * NaN), and Python's `max(0, ...)` then returns 0.
   */
  function DistanceFactor(distance: real, maxDistance: real): real {
    if maxDistance == 0.0 then 0.0
    else if 1.0 - distance / maxDistance > 0.0 then 1.0 - distance / maxDistance
    else 0.0
  }

  /**
   * The factor lies in [0, 1] for a positive range and a non-negative distance, and is zero
   * exactly from `max_distance` on.
   */
  lemma DistanceFactorRange(distance: real, maxDistance: real)
    ensures DistanceFactor(distance, maxDistance) >= 0.0
    ensures maxDistance > 0.0 && distance >= 0.0 ==> DistanceFactor(distance, maxDistance) <= 1.0
    ensures maxDistance > 0.0 ==> (DistanceFactor(distance, maxDistance) == 0.0 <==> distance >= maxDistance)
    ensures maxDistance == 0.0 ==> DistanceFactor(distance, maxDistance) == 0.0
  {
    if maxDistance > 0.0 {
      assert distance / maxDistance >= 1.0 <==> distance >= maxDistance by {
        assert distance / maxDistance * maxDistance == distance;
      }
    }
  }

  /** `_calculate_ball_score`. */
  function BallScore(confidence: real, bbox: Box, last: Option<Point>, maxDistance: real, dist: Distance): real {
    match last
    case None => confidence
    case Some(p) =>
      var distance := dist(Center(bbox), p);
      confidence * ConfidenceWeight + DistanceFactor(distance, maxDistance) * ProximityWeight
  }

  /**
   * A non-negative confidence scores at least zero, above the initial `best_score` of -1;
   * a confidence of at most one scores at most one when the range is positive.
   */
  lemma BallScoreRange(confidence: real, bbox: Box, last: Option<Point>, maxDistance: real, dist: Distance)
    ensures confidence >= 0.0 ==> BallScore(confidence, bbox, last, maxDistance, dist) >= 0.0
    ensures 0.0 <= confidence <= 1.0 && (last.Some? ==> maxDistance > 0.0 && dist(Center(bbox), last.value) >= 0.0)
      ==> BallScore(confidence, bbox, last, maxDistance, dist) <= 1.0
  {
    if last.Some? {
      DistanceFactorRange(dist(Center(bbox), last.value), maxDistance);
    }
  }

  /** A larger distance never raises the score. */
  lemma ScoreNonIncreasingInDistance(confidence: real, near: Box, far: Box, p: Point, maxDistance: real, dist: Distance)
    requires maxDistance > 0.0
    requires dist(Center(near), p) <= dist(Center(far), p)
    ensures BallScore(confidence, near, Some(p), maxDistance, dist) >= BallScore(confidence, far, Some(p), maxDistance, dist)
  {
    var dn, df := dist(Center(near), p), dist(Center(far), p);
    assert dn / maxDistance <= df / maxDistance by {
      assert df / maxDistance - dn / maxDistance == (df - dn) / maxDistance;
    }
  }

  /** With equal confidence, a candidate within range that is strictly closer scores strictly higher. */
  lemma CloserScoresHigher(confidence: real, near: Box, far: Box, p: Point, maxDistance: real, dist: Distance)
    requires maxDistance > 0.0
    requires dist(Center(near), p) < dist(Center(far), p)
    requires dist(Center(near), p) < maxDistance
    ensures BallScore(confidence, near, Some(p), maxDistance, dist) > BallScore(confidence, far, Some(p), maxDistance, dist)
  {
    var dn, df := dist(Center(near), p), dist(Center(far), p);
    assert dn / maxDistance < df / maxDistance by {
      assert df / maxDistance - dn / maxDistance == (df - dn) / maxDistance;
    }
    DistanceFactorRange(dn, maxDistance);
    DistanceFactorRange(df, maxDistance);
  }

  /** The parameters `_select_best_ball_bbox` passes on to the scorer. */
  datatype Scoring = Scoring(ballClassId: int, last: Option<Point>, maxDistance: real, dist: Distance)

  function ScoreOf(c: Candidate, sc: Scoring): real {
    BallScore(c.confidence, c.bbox, sc.last, sc.maxDistance, sc.dist)
  }

  predicate IsBall(c: Candidate, sc: Scoring) {
    c.classId == sc.ballClassId
  }

  /**
   * Among the first `n` candidates, candidate `i` is a ball scoring above the initial
   * `best_score` of -1, no ball scores more, and every earlier ball scores strictly less.
   */
  predicate WinsAmong(dets: seq<Candidate>, sc: Scoring, n: int, i: int) {
    && 0 <= i < n <= |dets|
    && IsBall(dets[i], sc) && ScoreOf(dets[i], sc) > -1.0
    && (forall j :: 0 <= j < n && IsBall(dets[j], sc) ==> ScoreOf(dets[j], sc) <= ScoreOf(dets[i], sc))
    && (forall j :: 0 <= j < i && IsBall(dets[j], sc) ==> ScoreOf(dets[j], sc) < ScoreOf(dets[i], sc))
  }

  /** No ball among the first `n` candidates scores above -1. */
  predicate NoContender(dets: seq<Candidate>, sc: Scoring, n: int)
    requires 0 <= n <= |dets|
  {
    forall j :: 0 <= j < n && IsBall(dets[j], sc) ==> ScoreOf(dets[j], sc) <= -1.0
  }

  lemma {:induction false} WinnerExists(dets: seq<Candidate>, sc: Scoring, n: int)
    requires 0 <= n <= |dets|
    requires !NoContender(dets, sc, n)
    ensures exists i :: WinsAmong(dets, sc, n, i)
  {
    if NoContender(dets, sc, n - 1) {
      assert WinsAmong(dets, sc, n, n - 1);
    } else {
      WinnerExists(dets, sc, n - 1);
      var i :| WinsAmong(dets, sc, n - 1, i);
      var last := dets[n - 1];
      if IsBall(last, sc) && ScoreOf(last, sc) > ScoreOf(dets[i], sc) {
        assert WinsAmong(dets, sc, n, n - 1);
      } else {
        assert WinsAmong(dets, sc, n, i);
      }
    }
  }

  lemma WinnerUnique(dets: seq<Candidate>, sc: Scoring, n: int, i: int, k: int)
    requires WinsAmong(dets, sc, n, i) && WinsAmong(dets, sc, n, k)
    ensures i == k
  {
  }

  /**
   * The box `_select_best_ball_bbox` returns: `None` when no ball candidate scores above
   * -1, otherwise the box of the first ball candidate with the greatest score.
   */
  ghost function BestBall(dets: seq<Candidate>, sc: Scoring): (r: Option<Box>)
    ensures r.None? <==> NoContender(dets, sc, |dets|)
    ensures r.Some? ==> exists i :: WinsAmong(dets, sc, |dets|, i) && r.value == dets[i].bbox
  {
    if NoContender(dets, sc, |dets|) then None
    else
      WinnerExists(dets, sc, |dets|);
      var i :| WinsAmong(dets, sc, |dets|, i);
      Some(dets[i].bbox)
  }

  /** `_select_best_ball_bbox`: one pass keeping the best score so far. */
  method SelectBestBall(detections: seq<Candidate>, ballClassId: int, last: Option<Point>,
                        maxDistance: real, dist: Distance) returns (best: Option<Box>)
    ensures best == BestBall(detections, Scoring(ballClassId, last, maxDistance, dist))
  {
    ghost var sc := Scoring(ballClassId, last, maxDistance, dist);
    var bestScore: real := -1.0;
    best := None;
    ghost var winner := 0;
    for k := 0 to |detections|
      invariant best.None? ==> bestScore == -1.0 && NoContender(detections, sc, k)
      invariant best.Some? ==> WinsAmong(detections, sc, k, winner) && best.value == detections[winner].bbox
                               && bestScore == ScoreOf(detections[winner], sc)
    {
      var d := detections[k];
      if d.classId == ballClassId {
        var score := BallScore(d.confidence, d.bbox, last, maxDistance, dist);
        if score > bestScore {
          bestScore := score;
          best := Some(d.bbox);
          winner := k;
        }
      }
    }
    if best.Some? {
      ghost var spec := BestBall(detections, sc);
      ghost var i :| WinsAmong(detections, sc, |detections|, i) && spec.value == detections[i].bbox;
      WinnerUnique(detections, sc, |detections|, i, winner);
    }
  }

  /** With non-negative confidences, nothing is selected exactly when no candidate has the ball class. */
  lemma NoneIffNoBallCandidate(dets: seq<Candidate>, sc: Scoring)
    requires forall j :: 0 <= j < |dets| ==> dets[j].confidence >= 0.0
    ensures BestBall(dets, sc).None? <==> forall j :: 0 <= j < |dets| ==> !IsBall(dets[j], sc)
  {
    if exists j :: 0 <= j < |dets| && IsBall(dets[j], sc) {
      var j :| 0 <= j < |dets| && IsBall(dets[j], sc);
      BallScoreRange(dets[j].confidence, dets[j].bbox, sc.last, sc.maxDistance, sc.dist);
    }
  }

  /** Only ball-class candidates are ever selected, and the selection is one of the given boxes. */
  lemma SelectedIsBallCandidate(dets: seq<Candidate>, sc: Scoring)
    requires BestBall(dets, sc).Some?
    ensures exists i :: 0 <= i < |dets| && IsBall(dets[i], sc) && dets[i].bbox == BestBall(dets, sc).value
  {
  }

  /**
   * Once a ball has been seen, among candidates of equal confidence the winner is at
   * least as close to the last position as any rival that lies within `max_distance`.
   */
  lemma WinnerClosestAmongEqualConfidence(dets: seq<Candidate>, sc: Scoring, i: int, j: int)
    requires sc.last.Some? && sc.maxDistance > 0.0
    requires WinsAmong(dets, sc, |dets|, i)
    requires 0 <= j < |dets| && IsBall(dets[j], sc) && dets[j].confidence == dets[i].confidence
    requires sc.dist(Center(dets[j].bbox), sc.last.value) < sc.maxDistance
    ensures sc.dist(Center(dets[i].bbox), sc.last.value) <= sc.dist(Center(dets[j].bbox), sc.last.value)
  {
    var p := sc.last.value;
    if sc.dist(Center(dets[j].bbox), p) < sc.dist(Center(dets[i].bbox), p) {
      CloserScoresHigher(dets[i].confidence, dets[j].bbox, dets[i].bbox, p, sc.maxDistance, sc.dist);
      assert false;
    }
  }

  /**
   * Before any ball has been seen the winner has the highest confidence, and every
   * earlier ball candidate has strictly lower confidence.
   */
  lemma WinnerMostConfidentWithoutLast(dets: seq<Candidate>, sc: Scoring, i: int)
    requires sc.last.None?
    requires WinsAmong(dets, sc, |dets|, i)
    ensures forall j :: 0 <= j < |dets| && IsBall(dets[j], sc) ==> dets[j].confidence <= dets[i].confidence
    ensures forall j :: 0 <= j < i && IsBall(dets[j], sc) ==> dets[j].confidence < dets[i].confidence
  {
    forall j | 0 <= j < |dets| && IsBall(dets[j], sc) ensures dets[j].confidence <= dets[i].confidence {
      assert ScoreOf(dets[j], sc) <= ScoreOf(dets[i], sc);
    }
    forall j | 0 <= j < i && IsBall(dets[j], sc) ensures dets[j].confidence < dets[i].confidence {
      assert ScoreOf(dets[j], sc) < ScoreOf(dets[i], sc);
    }
  }

  /**
   * Two ball candidates of equal confidence: the strictly closer one wins when it is
   * within range; otherwise the first is kept.
   */
  lemma TwoEqualConfidenceCandidates(a: Box, b: Box, id: int, conf: real, p: Point, maxDistance: real, dist: Distance)
    requires conf >= 0.0 && maxDistance > 0.0
    ensures var sc := Scoring(id, Some(p), maxDistance, dist);
      var dets := [Candidate(a, id, conf), Candidate(b, id, conf)];
      && (dist(Center(b), p) < dist(Center(a), p) && dist(Center(b), p) < maxDistance ==> BestBall(dets, sc) == Some(b))
      && (dist(Center(a), p) <= dist(Center(b), p) ==> BestBall(dets, sc) == Some(a))
  {
    var sc := Scoring(id, Some(p), maxDistance, dist);
    var dets := [Candidate(a, id, conf), Candidate(b, id, conf)];
    BallScoreRange(conf, a, sc.last, maxDistance, dist);
    BallScoreRange(conf, b, sc.last, maxDistance, dist);
    var r := BestBall(dets, sc);
    var i :| WinsAmong(dets, sc, 2, i) && r.value == dets[i].bbox;
    if dist(Center(b), p) < dist(Center(a), p) && dist(Center(b), p) < maxDistance {
      CloserScoresHigher(conf, b, a, p, maxDistance, dist);
      assert WinsAmong(dets, sc, 2, 1);
      WinnerUnique(dets, sc, 2, i, 1);
    }
    if dist(Center(a), p) <= dist(Center(b), p) {
      ScoreNonIncreasingInDistance(conf, a, b, p, maxDistance, dist);
      assert WinsAmong(dets, sc, 2, 0);
      WinnerUnique(dets, sc, 2, i, 0);
    }
  }
}
