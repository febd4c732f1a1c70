/**
 * The tracking engine: per frame, the player model's detections go through ByteTrack,
 * the tracked players are kept by track id, and the ball is chosen among the raw and
 * tracked detections or, failing that, by a second ball model. The result can be
 * read from and written to a cache of files.
 *
 * The two YOLO models and ByteTrack are outside the model: each is a function the
 * tracker is given. ByteTrack keeps state between calls, so it is a function of every
 * detection list it has been fed so far; the tracker keeps that history.
 */
module Tracking {
  import opened Wrappers
  import opened ImageUtils
  import opened BallScoring

  /** One video frame as the models receive it; the model never looks inside. */
  type Frame = seq<bv8>

  /** One row of ByteTrack's output: `(xyxy, class_id, confidence, tracker_id)`. */
  datatype Tracked = Tracked(bbox: Box, classId: int, confidence: real, trackerId: int)

  /** What the player model reports for one frame: its class-name table, in dict order, and its detections. */
  datatype FrameResult = FrameResult(names: seq<(int, string)>, detections: seq<Candidate>)

  /** The track store: per frame, player boxes by track id and the ball box under key 1. */
  datatype Tracks = Tracks(players: seq<map<int, Box>>, ball: seq<map<int, Box>>)

  /** A cache file as `pickle.load` sees it. */
  datatype CacheFile = Pickled(tracks: Tracks) | Unreadable

  datatype TrackError =
    | MissingClassName(name: string)   // `KeyError` from `_get_class_ids`
    | CacheUnreadable(path: string)    // `pickle.load` raising on a cache file

  /**
   * The models the tracker is built with. `detect` is the player model on one frame,
   * before its `classes=[1]` filter; `detectBall` the ball model on one frame for one
   * ball class id; `byteTrack` what ByteTrack returns after being fed a history of
   * detection lists, the last one being the current frame's.
   */
  datatype Models = Models(
    detect: Frame -> FrameResult,
    detectBall: (Frame, int) -> seq<Candidate>,
    byteTrack: seq<seq<Candidate>> -> seq<Tracked>)

  /** The class ids the player model is asked to keep (`classes=[1]`). */
  const PrimaryClasses: set<int> := {1}

  /** The detections of the given classes, in their original order. */
  function Restrict(dets: seq<Candidate>, classes: set<int>): (r: seq<Candidate>)
    ensures |r| <= |dets|
    ensures forall k :: 0 <= k < |r| ==> r[k].classId in classes && r[k] in dets
    ensures forall d :: d in dets && d.classId in classes ==> d in r
  {
    if |dets| == 0 then []
    else
      var rest := Restrict(dets[1..], classes);
      if dets[0].classId in classes then [dets[0]] + rest else rest
  }

  /** A single detection is kept exactly when its class is one of the given ones. */
  lemma RestrictSingle(d: Candidate, classes: set<int>)
    ensures Restrict([d], classes) == if d.classId in classes then [d] else []
  {
    assert [d][1..] == [];
  }

  /**
   * Filtering a concatenation filters each part in turn. With `RestrictSingle` this
   * fixes the result entirely: the kept detections, each as often as it occurs and in
   * their original order.
   */
  lemma {:induction false} RestrictAppend(a: seq<Candidate>, b: seq<Candidate>, classes: set<int>)
    ensures Restrict(a + b, classes) == Restrict(a, classes) + Restrict(b, classes)
    decreases |a|
  {
    if |a| == 0 {
      assert a + b == b;
    } else {
      assert (a + b)[0] == a[0];
      assert (a + b)[1..] == a[1..] + b;
      RestrictAppend(a[1..], b, classes);
    }
  }

  /** The detection list the player model hands on for one frame. */
  function PrimaryDetections(fr: FrameResult): seq<Candidate> {
    Restrict(fr.detections, PrimaryClasses)
  }

  /** The detection lists ByteTrack is fed for a run of frames, one per frame. */
  function Inputs(m: Models, frames: seq<Frame>): (r: seq<seq<Candidate>>)
    ensures |r| == |frames|
    ensures forall k :: 0 <= k < |frames| ==> r[k] == PrimaryDetections(m.detect(frames[k]))
  {
    seq(|frames|, k requires 0 <= k < |frames| => PrimaryDetections(m.detect(frames[k])))
  }

  lemma InputsSnoc(m: Models, frames: seq<Frame>, n: nat)
    requires n < |frames|
    ensures Inputs(m, frames[..n + 1]) == Inputs(m, frames[..n]) + [PrimaryDetections(m.detect(frames[n]))]
  {
    var a, b := Inputs(m, frames[..n + 1]), Inputs(m, frames[..n]) + [PrimaryDetections(m.detect(frames[n]))];
    forall k | 0 <= k < |a| ensures a[k] == b[k] {
      if k < n {
        assert frames[..n + 1][k] == frames[..n][k];
      }
    }
  }

  /** Feeding ByteTrack one more frame extends the history by that frame's detections. */
  lemma HistoryStep(m: Models, frames: seq<Frame>, history0: seq<seq<Candidate>>, n: nat)
    requires n < |frames|
    ensures history0 + Inputs(m, frames[..n + 1])
         == (history0 + Inputs(m, frames[..n])) + [PrimaryDetections(m.detect(frames[n]))]
  {
    InputsSnoc(m, frames, n);
  }

  /** The key of the last `(key, value)` pair whose value is `name`, as a dict inversion keeps it. */
  function InverseLookup(items: seq<(int, string)>, name: string): (r: Option<int>)
    ensures r.None? <==> forall k :: 0 <= k < |items| ==> items[k].1 != name
    ensures r.Some? ==> exists k :: 0 <= k < |items| && items[k] == (r.value, name)
                                    && forall l :: k < l < |items| ==> items[l].1 != name
  {
    if |items| == 0 then None
    else
      var last := items[|items| - 1];
      if last.1 == name then Some(last.0)
      else
        var r := InverseLookup(items[..|items| - 1], name);
        r
  }

  /** `_get_class_ids`: the ids named "player" and "ball"; a missing name raises `KeyError`, "player" first. */
  function GetClassIds(names: seq<(int, string)>): (r: Result<(int, int), TrackError>)
    ensures r.Ok? <==> InverseLookup(names, "player").Some? && InverseLookup(names, "ball").Some?
    ensures r.Ok? ==> r.value == (InverseLookup(names, "player").value, InverseLookup(names, "ball").value)
    ensures r.Err? ==> r.error == MissingClassName(if InverseLookup(names, "player").None? then "player" else "ball")
  {
    match (InverseLookup(names, "player"), InverseLookup(names, "ball"))
    case (None, _) => Err(MissingClassName("player"))
    case (_, None) => Err(MissingClassName("ball"))
    case (Some(p), Some(b)) => Ok((p, b))
  }

  /** `_extract_tracks`: the boxes of the tracked objects of one class, by track id, in a left-to-right pass. */
  function ExtractTracks(tracked: seq<Tracked>, classId: int): map<int, Box> {
    if |tracked| == 0 then map[]
    else
      var t := tracked[|tracked| - 1];
      var rest := ExtractTracks(tracked[..|tracked| - 1], classId);
      if t.classId == classId then rest[t.trackerId := t.bbox] else rest
  }

  /** Some entry of the class has track id `id`. */
  predicate HasTrack(tracked: seq<Tracked>, classId: int, id: int) {
    exists k :: 0 <= k < |tracked| && tracked[k].classId == classId && tracked[k].trackerId == id
  }

  /** `b` is the box of the last entry of the class with track id `id`. */
  predicate LatestBox(tracked: seq<Tracked>, classId: int, id: int, b: Box) {
    exists k :: 0 <= k < |tracked| && LastOfTrack(tracked, classId, id, k) && b == tracked[k].bbox
  }

  /**
   * The extracted ids are exactly the track ids of the class's entries.
   */
  lemma {:induction false} ExtractTracksSpec(tracked: seq<Tracked>, classId: int)
    ensures forall id :: id in ExtractTracks(tracked, classId) <==> HasTrack(tracked, classId, id)
  {
    if |tracked| > 0 {
      var n := |tracked| - 1;
      var init := tracked[..n];
      var t := tracked[n];
      var r := ExtractTracks(tracked, classId);
      var rest := ExtractTracks(init, classId);
      ExtractTracksSpec(init, classId);
      forall id ensures id in r <==> HasTrack(tracked, classId, id) {
        if t.classId == classId && t.trackerId == id {
          assert tracked[n].classId == classId && tracked[n].trackerId == id;
        } else {
          assert id in r <==> id in rest;
          if HasTrack(tracked, classId, id) {
            var k :| 0 <= k < |tracked| && tracked[k].classId == classId && tracked[k].trackerId == id;
            assert k < n && init[k] == tracked[k];
          }
          if HasTrack(init, classId, id) {
            var k :| 0 <= k < n && init[k].classId == classId && init[k].trackerId == id;
            assert init[k] == tracked[k];
          }
        }
      }
    }
  }

  /** Each extracted id holds the box of its last entry: a track id that occurs twice keeps its later box. */
  lemma {:induction false} ExtractTracksLatest(tracked: seq<Tracked>, classId: int)
    ensures forall id :: id in ExtractTracks(tracked, classId) ==>
      LatestBox(tracked, classId, id, ExtractTracks(tracked, classId)[id])
  {
    if |tracked| > 0 {
      var n := |tracked| - 1;
      var init := tracked[..n];
      var t := tracked[n];
      var r := ExtractTracks(tracked, classId);
      var rest := ExtractTracks(init, classId);
      ExtractTracksLatest(init, classId);
      forall id | id in r ensures LatestBox(tracked, classId, id, r[id]) {
        if t.classId == classId && t.trackerId == id {
          assert LastOfTrack(tracked, classId, id, n);
        } else {
          RestEntry(rest, t, classId, id);
          var k :| 0 <= k < n && LastOfTrack(init, classId, id, k) && rest[id] == init[k].bbox;
          LastOfTrackExtended(tracked, classId, id, k);
        }
      }
    }
  }

  /** An entry that does not match `id` leaves the map's value for `id` alone. */
  lemma RestEntry(rest: map<int, Box>, t: Tracked, classId: int, id: int)
    requires !(t.classId == classId && t.trackerId == id)
    requires id in (if t.classId == classId then rest[t.trackerId := t.bbox] else rest)
    ensures id in rest && (if t.classId == classId then rest[t.trackerId := t.bbox] else rest)[id] == rest[id]
  {
  }

  lemma LastOfTrackExtended(tracked: seq<Tracked>, classId: int, id: int, k: nat)
    requires |tracked| > 0 && k < |tracked| - 1
    requires LastOfTrack(tracked[..|tracked| - 1], classId, id, k)
    requires !(tracked[|tracked| - 1].classId == classId && tracked[|tracked| - 1].trackerId == id)
    ensures LastOfTrack(tracked, classId, id, k)
  {
    var init := tracked[..|tracked| - 1];
    assert forall l :: k <= l < |init| ==> init[l] == tracked[l];
  }

  /** Entry `k` is of the class, has track id `id`, and no later entry of the class has that id. */
  predicate LastOfTrack(tracked: seq<Tracked>, classId: int, id: int, k: int)
    requires 0 <= k < |tracked|
  {
    && tracked[k].classId == classId && tracked[k].trackerId == id
    && forall l :: k < l < |tracked| ==> !(tracked[l].classId == classId && tracked[l].trackerId == id)
  }

  /** `_get_best_ball_bbox`'s candidate list: the frame's detections followed by ByteTrack's rows. */
  function BallCandidates(dets: seq<Candidate>, tracked: seq<Tracked>): (r: seq<Candidate>)
    ensures |r| == |dets| + |tracked|
    ensures r[..|dets|] == dets
    ensures forall k :: 0 <= k < |tracked| ==>
      r[|dets| + k] == Candidate(tracked[k].bbox, tracked[k].classId, tracked[k].confidence)
  {
    dets + seq(|tracked|, k requires 0 <= k < |tracked| =>
                 Candidate(tracked[k].bbox, tracked[k].classId, tracked[k].confidence))
  }

  /** A frame's ball entry: the chosen box under key 1, or nothing. */
  function BallEntry(best: Option<Box>): map<int, Box> {
    if best.Some? then map[1 := best.value] else map[]
  }

  /** `last_ball_position` after a run of frames: the centre of the latest ball box, if any. */
  function LastKnown(ball: seq<map<int, Box>>): (r: Option<Point>)
    ensures r.None? <==> forall k :: 0 <= k < |ball| ==> 1 !in ball[k]
    ensures r.Some? ==> exists k :: LastBallAt(ball, k) && r.value == Center(ball[k][1])
  {
    if |ball| == 0 then None
    else if 1 in ball[|ball| - 1] then
      assert LastBallAt(ball, |ball| - 1);
      Some(Center(ball[|ball| - 1][1]))
    else
      var init := ball[..|ball| - 1];
      EarlierFrames(ball, init);
      LastKnown(init)
  }

  /** Frame `k` holds a ball and no later frame does. */
  predicate LastBallAt(ball: seq<map<int, Box>>, k: int) {
    0 <= k < |ball| && 1 in ball[k] && forall l :: k < l < |ball| ==> 1 !in ball[l]
  }

  /** Dropping a last frame without a ball keeps the earlier frames and their last ball. */
  lemma EarlierFrames(ball: seq<map<int, Box>>, init: seq<map<int, Box>>)
    requires |ball| > 0 && init == ball[..|ball| - 1] && 1 !in ball[|ball| - 1]
    ensures forall k :: 0 <= k < |init| ==> init[k] == ball[k]
    ensures forall k :: LastBallAt(init, k) ==> LastBallAt(ball, k)
  {
  }

  /** A frame with no ball leaves the last position as it was; a ball box moves it to its centre. */
  lemma LastKnownStep(ball: seq<map<int, Box>>, entry: map<int, Box>)
    ensures 1 !in entry ==> LastKnown(ball + [entry]) == LastKnown(ball)
    ensures 1 in entry ==> LastKnown(ball + [entry]) == Some(Center(entry[1]))
  {
    assert (ball + [entry])[..|ball|] == ball;
  }

  /**
   * `cache_path` is given when it is truthy: present and not the empty string. The cache is
   * read only when `use_cache` is set as well and the file exists.
   */
  predicate PathGiven(cachePath: Option<string>) {
    cachePath.Some? && |cachePath.value| > 0
  }

  predicate CacheHit(useCache: bool, cachePath: Option<string>, files: map<string, CacheFile>) {
    useCache && PathGiven(cachePath) && cachePath.value in files
  }

  function Loaded(file: CacheFile, path: string): (r: Result<Tracks, TrackError>)
    ensures r.Ok? <==> file.Pickled?
    ensures r.Ok? ==> r.value == file.tracks
  {
    match file
    case Pickled(t) => Ok(t)
    case Unreadable => Err(CacheUnreadable(path))
  }

  /**
   * What frame `k` of a run contributes, given the players, balls and per-frame fallback
   * call counts recorded so far: the class ids are found; the players are the tracked
   * objects of the player class; the fallback model is consulted exactly when the
   * primary candidates yield no ball; and the ball entry is the primary choice, else the
   * fallback's, both scored against the centre of the latest ball before frame `k`.
   */
  ghost predicate FrameTracked(m: Models, frames: seq<Frame>, history0: seq<seq<Candidate>>,
                               maxDistance: real, dist: Distance,
                               players: seq<map<int, Box>>, ball: seq<map<int, Box>>, log: seq<nat>, k: nat)
    requires k < |frames| && k < |players| && k < |ball| && k < |log|
  {
    var fr := m.detect(frames[k]);
    && GetClassIds(fr.names).Ok?
    && var (playerId, ballId) := GetClassIds(fr.names).value;
       var tracked := m.byteTrack(history0 + Inputs(m, frames[..k + 1]));
       var sc := Scoring(ballId, LastKnown(ball[..k]), maxDistance, dist);
       var primary := BestBall(BallCandidates(PrimaryDetections(fr), tracked), sc);
       && players[k] == ExtractTracks(tracked, playerId)
       && log[k] == (if primary.None? then 1 else 0)
       && ball[k] == BallEntry(if primary.Some? then primary else BestBall(m.detectBall(frames[k], ballId), sc))
  }

  /** A whole run: one player map, ball entry and fallback count per frame, each as `FrameTracked` demands. */
  ghost predicate RunRecorded(m: Models, frames: seq<Frame>, history0: seq<seq<Candidate>>,
                              maxDistance: real, dist: Distance, t: Tracks, log: seq<nat>)
  {
    && |t.players| == |frames| && |t.ball| == |frames| && |log| == |frames|
    && forall k :: 0 <= k < |frames| ==> FrameTracked(m, frames, history0, maxDistance, dist, t.players, t.ball, log, k)
  }

  /** The first frame whose class-name table lacks "player" or "ball". */
  predicate FirstMissingNames(m: Models, frames: seq<Frame>, k: nat) {
    && k < |frames|
    && GetClassIds(m.detect(frames[k]).names).Err?
    && forall l :: 0 <= l < k ==> GetClassIds(m.detect(frames[l]).names).Ok?
  }

  /** The cache as a set of files; `os.path.exists` is membership. */
  class CacheStore {
    var files: map<string, CacheFile>

    constructor(files: map<string, CacheFile>)
      ensures this.files == files
    {
      this.files := files;
    }

    /** `_load_cached_tracks`. */
    method Load(path: string) returns (r: Result<Tracks, TrackError>)
      requires path in files
      ensures r == Loaded(files[path], path)
    {
      r := Loaded(files[path], path);
    }

    /** `_save_cached_tracks`: a plain overwrite of the file. */
    method Save(path: string, tracks: Tracks)
      modifies this
      ensures files == old(files)[path := Pickled(tracks)]
    {
      files := files[path := Pickled(tracks)];
    }
  }

  class Tracker {
    const models: Models
    /** Every detection list ByteTrack has been fed, oldest first. */
    var trackerHistory: seq<seq<Candidate>>
    /** How often the fallback ball model has run. */
    ghost var fallbackCalls: nat
    /** For each frame processed so far, how often the fallback model ran on it. */
    ghost var fallbackLog: seq<nat>

    constructor(models: Models)
      ensures this.models == models
      ensures trackerHistory == [] && fallbackCalls == 0 && fallbackLog == []
    {
      this.models := models;
      trackerHistory := [];
      fallbackCalls := 0;
      fallbackLog := [];
    }

    /** `update_with_detections`: ByteTrack takes one more frame's detections. */
    method UpdateWithDetections(dets: seq<Candidate>) returns (tracked: seq<Tracked>)
      modifies this
      ensures trackerHistory == old(trackerHistory) + [dets]
      ensures tracked == models.byteTrack(trackerHistory)
      ensures fallbackCalls == old(fallbackCalls) && fallbackLog == old(fallbackLog)
    {
      trackerHistory := trackerHistory + [dets];
      tracked := models.byteTrack(trackerHistory);
    }

    /** `_fallback_ball_detection`: the ball model on the frame, scored like the primary candidates. */
    method FallbackBall(frame: Frame, ballClassId: int, last: Option<Point>, maxDistance: real, dist: Distance)
      returns (best: Option<Box>)
      modifies this
      ensures best == BestBall(models.detectBall(frame, ballClassId), Scoring(ballClassId, last, maxDistance, dist))
      ensures fallbackCalls == old(fallbackCalls) + 1
      ensures trackerHistory == old(trackerHistory) && fallbackLog == old(fallbackLog)
    {
      fallbackCalls := fallbackCalls + 1;
      best := SelectBestBall(models.detectBall(frame, ballClassId), ballClassId, last, maxDistance, dist);
    }

    /**
     * One pass of the frame loop of `get_object_tracks`: ByteTrack takes the frame's
     * detections, the players of the player class are extracted, and the ball is chosen
     * among the detections and the tracked rows, or by the fallback model when none is.
     * The ghost parameters are the run so far; the frame extends it as `FrameTracked` demands.
     */
    method TrackFrame(frame: Frame, fr: FrameResult, playerId: int, ballId: int, last: Option<Point>,
                      maxDistance: real, dist: Distance,
                      ghost frames: seq<Frame>, ghost index: nat, ghost history0: seq<seq<Candidate>>,
                      ghost players: seq<map<int, Box>>, ghost ball: seq<map<int, Box>>, ghost log: seq<nat>)
      returns (playerTracks: map<int, Box>, best: Option<Box>, ghost calls: nat)
      requires index < |frames| && frame == frames[index] && fr == models.detect(frame)
      requires GetClassIds(fr.names) == Ok((playerId, ballId))
      requires |players| == index && |ball| == index && |log| == index
      requires forall j :: 0 <= j < index ==> FrameTracked(models, frames, history0, maxDistance, dist, players, ball, log, j)
      requires trackerHistory == history0 + Inputs(models, frames[..index])
      requires last == LastKnown(ball)
      modifies this
      ensures trackerHistory == history0 + Inputs(models, frames[..index + 1])
      ensures fallbackCalls == old(fallbackCalls) + calls && fallbackLog == old(fallbackLog)
      ensures forall j :: 0 <= j < index + 1 ==>
        FrameTracked(models, frames, history0, maxDistance, dist, players + [playerTracks],
                     ball + [BallEntry(best)], log + [calls], j)
      ensures LastKnown(ball + [BallEntry(best)]) == if best.Some? then Some(Center(best.value)) else last
    {
      HistoryStep(models, frames, history0, index);
      var dets := PrimaryDetections(fr);
      var tracked := UpdateWithDetections(dets);
      playerTracks := ExtractTracks(tracked, playerId);
      ghost var sc := Scoring(ballId, last, maxDistance, dist);
      ghost var primary := BestBall(BallCandidates(dets, tracked), sc);
      best := SelectBestBall(BallCandidates(dets, tracked), ballId, last, maxDistance, dist);
      if best.None? {
        best := FallbackBall(frame, ballId, last, maxDistance, dist);
        calls := 1;
      } else {
        calls := 0;
      }
      assert dets == PrimaryDetections(models.detect(frames[index]));
      assert tracked == models.byteTrack(history0 + Inputs(models, frames[..index + 1]));
      assert best == (if primary.Some? then primary else BestBall(models.detectBall(frames[index], ballId), sc));
      assert calls == (if primary.None? then 1 else 0);
      FrameStep(models, frames, history0, maxDistance, dist, players, ball, log, index,
                playerId, ballId, tracked, best,
                players + [playerTracks], ball + [BallEntry(best)], log + [calls]);
    }

    /**
     * `get_object_tracks`. A cache hit returns the stored tracks untouched. Otherwise every
     * frame is processed in order, and the result is saved when a cache path is given. A
     * frame whose class names lack "player" or "ball" stops the run, and nothing is saved.
     */
    method GetObjectTracks(frames: seq<Frame>, useCache: bool, cachePath: Option<string>,
                           maxBallDistance: real, dist: Distance, store: CacheStore)
      returns (r: Result<Tracks, TrackError>)
      modifies this, store
      ensures CacheHit(useCache, cachePath, old(store.files)) ==>
        && r == Loaded(old(store.files)[cachePath.value], cachePath.value)
        && store.files == old(store.files)
        && trackerHistory == old(trackerHistory) && fallbackCalls == old(fallbackCalls)
        && fallbackLog == old(fallbackLog)
      ensures !CacheHit(useCache, cachePath, old(store.files)) && r.Ok? ==>
        && trackerHistory == old(trackerHistory) + Inputs(models, frames)
        && |fallbackLog| == |old(fallbackLog)| + |frames| && fallbackLog[..|old(fallbackLog)|] == old(fallbackLog)
        && RunRecorded(models, frames, old(trackerHistory), maxBallDistance, dist, r.value, fallbackLog[|old(fallbackLog)|..])
        && store.files == (if PathGiven(cachePath) then old(store.files)[cachePath.value := Pickled(r.value)]
                           else old(store.files))
      ensures !CacheHit(useCache, cachePath, old(store.files)) && r.Err? ==>
        && store.files == old(store.files)
        && exists k: nat :: FirstMissingNames(models, frames, k)
             && r.error == GetClassIds(models.detect(frames[k]).names).error
             && trackerHistory == old(trackerHistory) + Inputs(models, frames[..k])
    {
      if useCache && PathGiven(cachePath) && cachePath.value in store.files {
        r := store.Load(cachePath.value);
        return;
      }
      r := TrackFrames(frames, maxBallDistance, dist);
      if r.Ok? && PathGiven(cachePath) {
        store.Save(cachePath.value, r.value);
      }
    }

    /**
     * The frame loop of `get_object_tracks`: detection of every frame, then per frame the
     * class ids, ByteTrack, the players, an empty ball entry, the primary ball choice, the
     * fallback when that found nothing, and the ball box with the new last position.
     */
    method TrackFrames(frames: seq<Frame>, maxBallDistance: real, dist: Distance)
      returns (r: Result<Tracks, TrackError>)
      modifies this
      ensures r.Ok? ==>
        && trackerHistory == old(trackerHistory) + Inputs(models, frames)
        && |fallbackLog| == |old(fallbackLog)| + |frames| && fallbackLog[..|old(fallbackLog)|] == old(fallbackLog)
        && RunRecorded(models, frames, old(trackerHistory), maxBallDistance, dist, r.value, fallbackLog[|old(fallbackLog)|..])
      ensures r.Err? ==>
        exists k: nat :: FirstMissingNames(models, frames, k)
          && r.error == GetClassIds(models.detect(frames[k]).names).error
          && trackerHistory == old(trackerHistory) + Inputs(models, frames[..k])
    {
      var detections := seq(|frames|, i requires 0 <= i < |frames| => models.detect(frames[i]));
      var players: seq<map<int, Box>> := [];
      var ball: seq<map<int, Box>> := [];
      var lastBallPosition: Option<Point> := None;
      ghost var history0 := trackerHistory;
      ghost var log0 := fallbackLog;

      ghost var log: seq<nat> := [];
      for index := 0 to |frames|
        invariant |players| == index && |ball| == index && |log| == index
        invariant fallbackLog == log0 + log
        invariant trackerHistory == history0 + Inputs(models, frames[..index])
        invariant lastBallPosition == LastKnown(ball)
        invariant forall k :: 0 <= k < index ==>
          FrameTracked(models, frames, history0, maxBallDistance, dist, players, ball, log, k)
      {
        var fr := detections[index];
        var ids := GetClassIds(fr.names);
        if ids.Err? {
          r := Err(ids.error);
          FirstMissingAt(models, frames, history0, maxBallDistance, dist, players, ball, log, index);
          return;
        }
        var (playerId, ballId) := ids.value;
        assert fr == models.detect(frames[index]);

        var playerTracks, best, calls := TrackFrame(frames[index], fr, playerId, ballId, lastBallPosition, maxBallDistance, dist,
                                             frames, index, history0, players, ball, log);
        ghost var ball0 := ball;
        players := players + [playerTracks];
        ball := ball + [map[]];
        if best.Some? {
          ball := ball[index := map[1 := best.value]];
          lastBallPosition := Some(Center(best.value));
        }
        assert ball == ball0 + [BallEntry(best)];
        log := log + [calls];
        fallbackLog := fallbackLog + [calls];
      }
      assert fallbackLog[|log0|..] == log;

      assert frames[..|frames|] == frames;
      r := Ok(Tracks(players, ball));
    }
  }

  /** A run stopped at a frame lacking a class name stopped at the first such frame. */
  lemma FirstMissingAt(m: Models, frames: seq<Frame>, history0: seq<seq<Candidate>>,
                       maxDistance: real, dist: Distance,
                       players: seq<map<int, Box>>, ball: seq<map<int, Box>>, log: seq<nat>, k: nat)
    requires k < |frames| && |players| == k && |ball| == k && |log| == k
    requires forall j :: 0 <= j < k ==> FrameTracked(m, frames, history0, maxDistance, dist, players, ball, log, j)
    requires GetClassIds(m.detect(frames[k]).names).Err?
    ensures FirstMissingNames(m, frames, k)
  {
    forall j | 0 <= j < k ensures GetClassIds(m.detect(frames[j]).names).Ok? {
      assert FrameTracked(m, frames, history0, maxDistance, dist, players, ball, log, j);
    }
  }

  /**
   * One turn of the frame loop keeps its invariant: the new frame is recorded as
   * `FrameTracked` demands, the earlier frames keep theirs, and the last position moves
   * to the centre of the new ball box, if any.
   */
  lemma FrameStep(m: Models, frames: seq<Frame>, history0: seq<seq<Candidate>>,
                  maxDistance: real, dist: Distance,
                  players: seq<map<int, Box>>, ball: seq<map<int, Box>>, log: seq<nat>, k: nat,
                  playerId: int, ballId: int, tracked: seq<Tracked>, best: Option<Box>,
                  players': seq<map<int, Box>>, ball': seq<map<int, Box>>, log': seq<nat>)
    requires k < |frames| && |players| == k && |ball| == k && |log| == k
    requires forall j :: 0 <= j < k ==> FrameTracked(m, frames, history0, maxDistance, dist, players, ball, log, j)
    requires GetClassIds(m.detect(frames[k]).names) == Ok((playerId, ballId))
    requires tracked == m.byteTrack(history0 + Inputs(m, frames[..k + 1]))
    requires var sc := Scoring(ballId, LastKnown(ball), maxDistance, dist);
      var primary := BestBall(BallCandidates(PrimaryDetections(m.detect(frames[k])), tracked), sc);
      && best == (if primary.Some? then primary else BestBall(m.detectBall(frames[k], ballId), sc))
      && log' == log + [if primary.None? then 1 else 0]
    requires players' == players + [ExtractTracks(tracked, playerId)] && ball' == ball + [BallEntry(best)]
    ensures forall j :: 0 <= j < k + 1 ==> FrameTracked(m, frames, history0, maxDistance, dist, players', ball', log', j)
    ensures LastKnown(ball') == (if best.Some? then Some(Center(best.value)) else LastKnown(ball))
  {
    LastKnownStep(ball, BallEntry(best));
    assert players'[..k] == players && ball'[..k] == ball && log'[..k] == log;
    FrameTrackedExtended(m, frames, history0, maxDistance, dist, players, ball, log, players', ball', log', k);
    assert FrameTracked(m, frames, history0, maxDistance, dist, players', ball', log', k);
  }

  /** Appending a frame leaves what the earlier frames recorded as it was. */
  lemma FrameTrackedExtended(m: Models, frames: seq<Frame>, history0: seq<seq<Candidate>>,
                             maxDistance: real, dist: Distance,
                             players: seq<map<int, Box>>, ball: seq<map<int, Box>>, log: seq<nat>,
                             players': seq<map<int, Box>>, ball': seq<map<int, Box>>, log': seq<nat>, n: nat)
    requires n <= |frames| && |players| == |ball| == |log| == n
    requires n < |players'| && n < |ball'| && n < |log'|
    requires players'[..n] == players && ball'[..n] == ball && log'[..n] == log
    requires forall k :: 0 <= k < n ==> FrameTracked(m, frames, history0, maxDistance, dist, players, ball, log, k)
    ensures forall k :: 0 <= k < n ==> FrameTracked(m, frames, history0, maxDistance, dist, players', ball', log', k)
  {
    forall k | 0 <= k < n
      ensures FrameTracked(m, frames, history0, maxDistance, dist, players', ball', log', k)
    {
      assert FrameTracked(m, frames, history0, maxDistance, dist, players, ball, log, k);
      assert ball'[..k] == ball[..k];
      assert players'[k] == players[k] && ball'[k] == ball[k] && log'[k] == log[k];
    }
  }

  /** Every ball entry of a run is empty or holds key 1 alone. */
  lemma BallEntriesShape(m: Models, frames: seq<Frame>, history0: seq<seq<Candidate>>,
                         maxDistance: real, dist: Distance, t: Tracks, log: seq<nat>)
    requires |t.players| == |frames| && |t.ball| == |frames| && |log| == |frames|
    requires forall k :: 0 <= k < |frames| ==> FrameTracked(m, frames, history0, maxDistance, dist, t.players, t.ball, log, k)
    ensures forall k :: 0 <= k < |frames| ==> t.ball[k] == map[] || t.ball[k].Keys == {1}
    ensures forall k :: 0 <= k < |frames| ==> log[k] <= 1
  {
    forall k | 0 <= k < |frames| ensures t.ball[k] == map[] || t.ball[k].Keys == {1} {
      assert FrameTracked(m, frames, history0, maxDistance, dist, t.players, t.ball, log, k);
    }
    forall k | 0 <= k < |frames| ensures log[k] <= 1 {
      assert FrameTracked(m, frames, history0, maxDistance, dist, t.players, t.ball, log, k);
    }
  }

  /**
   * The fallback runs on a frame exactly when the primary candidates give no ball; when it
   * does not run, the frame's ball is the primary choice.
   */
  lemma FallbackOnlyWhenNeeded(m: Models, frames: seq<Frame>, history0: seq<seq<Candidate>>,
                               maxDistance: real, dist: Distance, t: Tracks, log: seq<nat>, k: nat)
    requires |t.players| == |frames| && |t.ball| == |frames| && |log| == |frames| && k < |frames|
    requires FrameTracked(m, frames, history0, maxDistance, dist, t.players, t.ball, log, k)
    ensures var fr := m.detect(frames[k]);
      var ballId := GetClassIds(fr.names).value.1;
      var tracked := m.byteTrack(history0 + Inputs(m, frames[..k + 1]));
      var primary := BestBall(BallCandidates(PrimaryDetections(fr), tracked),
                              Scoring(ballId, LastKnown(t.ball[..k]), maxDistance, dist));
      && (log[k] == 1 <==> primary.None?)
      && (primary.Some? ==> t.ball[k] == map[1 := primary.value])
  {
  }

  /**
   * Because the player model keeps class 1 only, a ByteTrack that reports only classes it
   * was given sees nothing but class 1: a ball class other than 1 is then never found in
   * the primary candidates, and a player class other than 1 yields no players.
   */
  lemma PrimaryPassSeesOnlyClassOne(fr: FrameResult, tracked: seq<Tracked>, sc: Scoring, playerId: int)
    requires forall t :: t in tracked ==> t.classId in PrimaryClasses
    ensures forall c :: c in BallCandidates(PrimaryDetections(fr), tracked) ==> c.classId == 1
    ensures sc.ballClassId != 1 ==> BestBall(BallCandidates(PrimaryDetections(fr), tracked), sc).None?
    ensures playerId != 1 ==> ExtractTracks(tracked, playerId) == map[]
  {
    var dets := PrimaryDetections(fr);
    var cands := BallCandidates(dets, tracked);
    forall c | c in cands ensures c.classId == 1 {
      var k :| 0 <= k < |cands| && cands[k] == c;
      if k < |dets| {
        assert cands[k] == cands[..|dets|][k] == dets[k];
      } else {
        assert tracked[k - |dets|] in tracked;
      }
    }
    if sc.ballClassId != 1 {
      assert forall j :: 0 <= j < |cands| ==> cands[j] in cands;
    }
    if playerId != 1 {
      forall k | 0 <= k < |tracked| ensures tracked[k].classId != playerId {
        assert tracked[k] in tracked;
      }
    }
  }
}
