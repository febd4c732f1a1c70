# Football tracking and dataset preparation, modelled in Dafny

This project models the deterministic core of a football-video pipeline:

- the tracking engine, which builds per-frame player tracks and a single ball track from detector output;
- the ball scoring rule that chooses the ball among candidates, with its fallback detector;
- the cache shortcut around tracking;
- the interpolation that fills frames where no ball was found;
- the bounding-box geometry of the drawing helpers;
- the conversion of MOTChallenge ground truth (`gt.txt` and `labels.txt`) into one YOLO label file per frame;
- the preparation of the train/val/test datasets: label-file listing, the sorted half split of sequence 2, prefixed copying of image/label pairs, and frame loading.

Modules, one per concern:

| file | module | models |
|---|---|---|
| `wrappers.dfy` | `Wrappers` | `Option` / `Result`, for `None` and raised exceptions |
| `strings.dfy` | `Strings` | the `str` operations used: `in`, `startswith`/`endswith`, `replace`, `split`, `strip`, `lower` |
| `numerals.dfy` | `Numerals` | `int(text)`, `float(text)` and the `f"{n:06}"` format |
| `ordering.dfy` | `Ordering` | string order and `sorted()` |
| `paths.dfy` | `Paths` | POSIX `os.path.join` and `os.path.basename` |
| `image_utils.dfy` | `ImageUtils` | `image_utils.py`: centre, width, and the pixel arithmetic of the drawing helpers |
| `ball_scoring.dfy` | `BallScoring` | `_calculate_ball_score` and `_select_best_ball_bbox` |
| `interpolation.dfy` | `Interpolation` | `interpolate_ball_positions` |
| `tracker.dfy` | `Tracking` | the `Tracker` class: `get_object_tracks`, its frame loop, `_get_class_ids`, `_extract_tracks`, `_get_best_ball_bbox`, the fallback and the cache |
| `file_store.dfy` | `FileStore` | the file system as a `Disk` object holding a path-to-contents map |
| `convert_gt.dfy` | `GtConversion` | `convert_gt_to_yolo` |
| `dataset_utils.dfy` | `DatasetUtils` | `copy_files` and `load_frames` |
| `create_dataset.dfy` | `DatasetSplit` | `prepare_datasets` |

Where the code changes state, the model is imperative:

- The tracker is a class. It holds ByteTrack's input history and a ghost count of fallback calls.
- The cache store and the disk are classes, each holding a `map` that its methods reassign.
- The frame loop, the selection loop, the gt parsing loop, the label-writing loop, the copy loop and the frame-loading loop are `for` loops with invariants.
- Each loop-bearing method is proved against a specification function: `BestBall`, `FrameTracked`, `ConvertLines`/`WriteLabelFiles`, `CopyAll`, `ReadFrames` or `Prepared`. The properties are then proved about those functions.

External collaborators are parameters:

- The player model, the ball model and ByteTrack are functions in `Tracking.Models`. ByteTrack is stateful, so it is a function of the whole history of detection lists it has been fed.
- The Euclidean distance is a function parameter, because Dafny's reals have no square root.
- Directory listings, the image decoder (`cv2.imread`) and the lines of the input text files are parameters.
- `os.path.exists` and `os.path.isfile` are membership in the disk's map.

Facts about the code that shape the model:

- **Primary pass.** It keeps class 1 only (`classes=[1]`, `tracker.py:38`).
- **ByteTrack input.** ByteTrack receives every detection of that pass.
- **Ball candidates.** The candidate list is the pass's detections followed by ByteTrack's rows.
- **Missing class names.** A class-name table without "player" or "ball" raises, and stops the run with `MissingClassName`.
- **Cache save.** The save is a plain overwrite of the cache file.
- **Unreadable cache.** Reading a cache file that cannot be unpickled raises `CacheUnreadable`.
- **Trailing gaps.** A trailing gap in the ball track keeps the last known box, pandas' default forward direction.

## Model

| member | source | states |
|---|---|---|
| Strings.ContainsIffOccurs | create_dataset.py:54 | Python's substring test `pat in s` holds exactly when `pat` occurs at some index of `s` |
| Strings.ReplaceAll | dataset_utils.py:17 | `str.replace` leaves a string without the pattern unchanged |
| Strings.ReplaceLast | dataset_utils.py:17 | in a name `stem + pat` where the pattern starts nowhere in the stem, only that final occurrence is replaced |
| Strings.Split | convert_gt_to_yolo.py:57 | `split(',')` returns at least one field, no field contains the separator, and joining the fields with it gives back the text |
| Strings.SplitJoin | convert_gt_to_yolo.py:57 | splitting a join of separator-free fields returns exactly those fields |
| Strings.StripLeft | convert_gt_to_yolo.py:57 | the result is a suffix of the input, everything dropped is whitespace, and the result does not start with whitespace |
| Strings.StripRight | convert_gt_to_yolo.py:57 | the result is a prefix of the input, everything dropped is whitespace, and the result does not end with whitespace |
| Strings.Strip | convert_gt_to_yolo.py:47 | `strip()` returns a slice of the input, surrounded only by whitespace, that neither starts nor ends with whitespace |
| Strings.StripBoth | convert_gt_to_yolo.py:57 | stripping the left and then the right leaves the whitespace-free slice at the left offset |
| Strings.LowerAscii | dataset_utils.py:28 | `lower()` keeps the length and maps every character on its own, A-Z to a-z |
| Numerals.IndexOf | convert_gt_to_yolo.py:59 | the first index of a character, or `None` exactly when it does not occur |
| Numerals.ParseInt | convert_gt_to_yolo.py:58 | `int(text)` on ASCII numerals: strip the text, take an optional sign, then read at least one digit; any other text is `None`, standing for `ValueError`. `ParseUnsigned`, `ParseNegative` and `ParseZeroPadded` pin its values down |
| Numerals.ParseFloat | convert_gt_to_yolo.py:59 | `float(text)` on ASCII decimal numerals with an optional sign, fraction and exponent; any other text is `None`. `IntegerNumeralAsFloat` ties it to `ParseInt` |
| Numerals.IntegerNumeralAsFloat | convert_gt_to_yolo.py:59 | text that `int()` accepts is read by `float()` as the same value |
| Numerals.ShowNat | convert_gt_to_yolo.py:74 | the decimal digits of `n`: non-empty, all digits, valued `n`, and no leading zero unless `n` is 0 |
| Numerals.LeadingZeros | convert_gt_to_yolo.py:74 | zero padding does not change the value of a numeral |
| Numerals.FormatZeroPadded | convert_gt_to_yolo.py:74 | `f"{n:0W}"` is at least `W` characters long, and all digits for `n >= 0` |
| Numerals.ParseZeroPadded | convert_gt_to_yolo.py:74 | `int()` reads every zero-padded numeral back as the integer it came from |
| Numerals.ParseUnsigned | convert_gt_to_yolo.py:58 | `int()` of a non-empty run of digits is its decimal value |
| Numerals.ParseNegative | convert_gt_to_yolo.py:58 | `int()` of `-` followed by digits is minus their value |
| Numerals.StripKeeps | convert_gt_to_yolo.py:57 | `strip()` leaves text alone when it neither starts nor ends with whitespace |
| Numerals.ZeroPaddedInjective | convert_gt_to_yolo.py:74 | distinct integers get distinct zero-padded numerals |
| Ordering.LessEqReflexive | create_dataset.py:60 | every string is at most itself |
| Ordering.LessEqTotal | create_dataset.py:60 | any two strings are comparable |
| Ordering.LessEqTransitive | create_dataset.py:60 | string order is transitive |
| Ordering.LessEqAntisymmetric | create_dataset.py:60 | two strings each at most the other are equal |
| Ordering.Insert | create_dataset.py:60 | inserting into a sorted list keeps it sorted and adds exactly that element |
| Ordering.Sort | create_dataset.py:60 | `sorted()` returns an ascending permutation of its input |
| Ordering.SortedUnique | create_dataset.py:60 | two ascending permutations of the same names are equal, so the result of any sort is `Sort(s)` |
| Paths.PathJoin | dataset_utils.py:17-21 | `os.path.join(dir, name)` ends with `name` when `name` is relative |
| Paths.Basename | create_dataset.py:54 | `os.path.basename` is the slash-free suffix after the last `/` |
| Paths.BasenameOfJoin | create_dataset.py:54 | the base name of `dir` joined with a plain name is that name |
| ImageUtils.Center | image_utils.py:5-7 | the centre lies halfway between opposite edges, on both axes |
| ImageUtils.Width | image_utils.py:9-11 | the width added to the left edge gives the right edge, and it is non-negative exactly when `x1 <= x2` |
| ImageUtils.CenterInside | image_utils.py:5-7 | for a box with `x1 <= x2` and `y1 <= y2`, the centre lies inside it |
| ImageUtils.Trunc | image_utils.py:50-53 | `int()` of a float: the floor for non-negative values and the ceiling for negative ones. `TruncTowardZero`, `TruncWithinOne` and `TruncMonotone` state its properties |
| ImageUtils.TruncTowardZero | image_utils.py:50-53 | `int()` of a float rounds toward zero |
| ImageUtils.TruncWithinOne | image_utils.py:50-53 | `int()` moves a value by less than one |
| ImageUtils.EllipseLayoutOf | image_utils.py:13-28 | the arc sits at (truncated centre x, truncated `y2`) with half-axes `int(w)` and `int(0.35 w)`, from -45 to 235 degrees. The id tag exists exactly when an id is given and is 40 by 20, its left edge at `int(x_c - 20)` and so centred on the box within a pixel, with its top 5 pixels below the arc centre. Its text starts 12 pixels in, or 2 for ids above 99, and 15 pixels down |
| ImageUtils.TriangleOf | image_utils.py:30-36 | the apex is at (truncated centre x, truncated `y1`), and the base is 20 pixels wide, centred on it, 20 pixels above it |
| ImageUtils.CentredRectEdges | image_utils.py:48-53 | each rectangle edge is within one pixel of the exact edge `centre -+ size/2`, and a non-negative size keeps the edges in order |
| ImageUtils.YoloToPixel | image_utils.py:48-53 | a YOLO label scaled by the image size: the truncated edges `centre -+ size/2`. `CentredRectEdges` bounds each edge, and `GtConversion.NormaliseRoundTrip` shows it inverts the conversion's normalisation |
| ImageUtils.TruncMonotone | image_utils.py:50-53 | truncation keeps ordered values ordered |
| ImageUtils.ClassNameAt | image_utils.py:54 | `names[int(cls)]` exists exactly for indices in `[-n, n)`, negative ones counting from the end |
| ImageUtils.BoxesToDraw | image_utils.py:38-58 | an unreadable image paints nothing. Otherwise there is one box per label, in file order: the label's YOLO-to-pixel rectangle and its class name, with the text 5 pixels above the corner. An out-of-range class index fails at the first such line |
| ImageUtils.DrawLabels | image_utils.py:45-56 | the per-line loop behind `BoxesToDraw`, from a given line on |
| BallScoring.DistanceFactor | tracker.py:138 | `max(0, 1 - distance / max_distance)`, and 0 for a zero range. `DistanceFactorRange` gives its range and its zero set |
| BallScoring.BallScore | tracker.py:133-139 | the confidence alone without a last position; otherwise `0.6` times the confidence plus `0.4` times the distance factor of the box centre. `BallScoreRange`, `ScoreNonIncreasingInDistance` and `CloserScoresHigher` state its behaviour |
| BallScoring.DistanceFactorRange | tracker.py:138 | `max(0, 1 - d/max_distance)` is never negative, is at most 1 for a positive range, and is 0 exactly from `max_distance` on (and always for a zero range) |
| BallScoring.BallScoreRange | tracker.py:133-139 | a non-negative confidence scores at least 0, above the initial best score of -1, and a confidence of at most 1 scores at most 1 |
| BallScoring.ScoreNonIncreasingInDistance | tracker.py:136-139 | moving farther from the last position never raises the score |
| BallScoring.CloserScoresHigher | tracker.py:136-139 | with equal confidence, a strictly closer candidate within range scores strictly higher |
| BallScoring.WinnerExists | tracker.py:121-131 | if some ball candidate scores above -1, a first best-scoring ball candidate exists |
| BallScoring.WinnerUnique | tracker.py:121-131 | that winner is unique |
| BallScoring.BestBall | tracker.py:121-131 | `None` exactly when no ball-class candidate scores above -1; otherwise the box of the first ball candidate with the greatest score |
| BallScoring.SelectBestBall | tracker.py:121-131 | the loop keeping `best_score`/`best_bbox` returns exactly `BestBall` |
| BallScoring.NoneIffNoBallCandidate | tracker.py:121-131 | with non-negative confidences, nothing is selected exactly when no candidate has the ball class |
| BallScoring.SelectedIsBallCandidate | tracker.py:125-130 | a selected box is the box of a ball-class candidate |
| BallScoring.WinnerClosestAmongEqualConfidence | tracker.py:127-130 | once a ball has been seen, the winner is at least as close to it as any equal-confidence ball candidate within range |
| BallScoring.WinnerMostConfidentWithoutLast | tracker.py:134-135 | with no last position, the winner has the highest confidence, and every earlier ball candidate a strictly lower one |
| BallScoring.TwoEqualConfidenceCandidates | tracker.py:124-130 | of two equal-confidence ball candidates, the strictly closer one in range wins; otherwise the first is kept |
| Interpolation.PrevKnown | tracker.py:77 | the latest known frame at or before `m`, or `None` exactly when there is none |
| Interpolation.NextKnown | tracker.py:77 | the earliest known frame at or after `m`, or `None` exactly when there is none |
| Interpolation.FilledAt | tracker.py:76-77 | the value of frame `m` after `interpolate().bfill()`: a known box, the linear value between its neighbours, the last box after the last sighting, or the first box before the first sighting. The lemmas from `KnownFrameUnchanged` to `TrailingGapCarriesLast` state each case |
| Interpolation.LerpBetween | tracker.py:77 | a point a fraction in [0, 1] of the way between two values lies between them |
| Interpolation.LerpBoxCoordinates | tracker.py:77 | each coordinate of the interpolated box is `a + (b - a) * t` |
| Interpolation.InterpolateBallPositions | tracker.py:74-78 | one frame out per frame in, each holding key 1 and nothing else |
| Interpolation.Interpolate | tracker.py:74-78 | every input: an empty track gives an empty result; a track with frames but no ball raises, because pandas is given empty rows for four columns; any other track gives `InterpolateBallPositions`, one key-1 frame per input frame |
| Interpolation.BallBoxes | tracker.py:75 | frame `m` gives the box stored under key 1, or nothing |
| Interpolation.KnownFrameUnchanged | tracker.py:74-78 | a frame with a ball keeps its box |
| Interpolation.InteriorGapIsLerp | tracker.py:77 | a gap frame `m` between known frames `i < j` gets `B_i + (B_j - B_i)(m - i)/(j - i)`, coordinate by coordinate |
| Interpolation.InteriorGapBetween | tracker.py:77 | each coordinate of an interior gap frame lies between the neighbouring known coordinates |
| Interpolation.LerpBoxBetween | tracker.py:77 | each coordinate of a box interpolated at a fraction in [0, 1] lies between the two boxes' coordinates |
| Interpolation.LeadingGapBackFilled | tracker.py:77 | frames before the first sighting take the first known box (`bfill`) |
| Interpolation.TrailingGapCarriesLast | tracker.py:77 | frames after the last sighting keep the last known box |
| Interpolation.SingleSightingEverywhere | tracker.py:74-78 | a single sighting is copied into every frame |
| Interpolation.InterpolateIdempotent | tracker.py:74-78 | interpolating an interpolated track changes nothing |
| Interpolation.OneFrameGapMidpoint | tracker.py:77 | a one-frame gap between two sightings gets their midpoint |
| Tracking.Restrict | tracker.py:38 | the `classes=[1]` filter: every kept detection is an input detection of a given class, and every input detection of a given class is kept |
| Tracking.RestrictSingle | tracker.py:38 | one detection is kept exactly when its class is given |
| Tracking.RestrictAppend | tracker.py:38 | filtering a concatenation is the concatenation of the filtered parts, so with `RestrictSingle` the filter keeps each matching detection as often as it occurs and in input order |
| Tracking.Inputs | tracker.py:47-55 | ByteTrack is fed one detection list per frame, the frame's class-1 detections |
| Tracking.InputsSnoc | tracker.py:55 | feeding one more frame appends that frame's detections |
| Tracking.HistoryStep | tracker.py:55 | ByteTrack's history grows by exactly the current frame's detections |
| Tracking.InverseLookup | tracker.py:92 | in the inverted name table a name maps to the key of its last occurrence, and is absent exactly when no key has that name |
| Tracking.GetClassIds | tracker.py:91-93 | succeeds exactly when both "player" and "ball" are named, returning their inverted keys. Otherwise it raises for "player" first, then "ball" |
| Tracking.ExtractTracks | tracker.py:95-100 | `_extract_tracks`: the rows of the target class, folded into a map from track id to box in row order. `ExtractTracksSpec` and `ExtractTracksLatest` state its keys and values |
| Tracking.ExtractTracksSpec | tracker.py:95-100 | the extracted track ids are exactly those of the tracked rows of the target class |
| Tracking.ExtractTracksLatest | tracker.py:95-100 | each extracted id holds the box of its last row, so a later duplicate id overwrites an earlier one |
| Tracking.RestEntry | tracker.py:96-100 | a row of another id or class leaves an id's box as it was |
| Tracking.LastOfTrackExtended | tracker.py:96-100 | a row that does not match keeps an earlier row the last of its track |
| Tracking.BallCandidates | tracker.py:102-106 | the candidate list is the frame's detections followed by every ByteTrack row as `(bbox, class, confidence)` |
| Tracking.LastKnown | tracker.py:49-67 | `last_ball_position` is the centre of the latest ball box, or `None` exactly when no frame so far has one |
| Tracking.LastKnownStep | tracker.py:65-67 | a frame without a ball leaves the last position unchanged, and a ball box moves it to the box centre |
| Tracking.Loaded | tracker.py:141-143 | a readable cache file gives its stored tracks verbatim, and an unreadable one raises |
| Tracking.CacheStore.Load | tracker.py:141-143 | loading returns `Loaded` of the stored file |
| Tracking.CacheStore.Save | tracker.py:145-147 | saving overwrites the file at the path with the tracks, and touches no other path |
| Tracking.Tracker.constructor | tracker.py:23-28 | a new tracker holds the given player model, ball model and a fresh ByteTrack with an empty history |
| Tracking.Tracker.UpdateWithDetections | tracker.py:55 | ByteTrack's history grows by this frame's detections, and its output is ByteTrack on that history |
| Tracking.Tracker.FallbackBall | tracker.py:108-119 | the fallback result is `BestBall` over the ball model's detections, scored against the same last position. The fallback counter grows by one |
| Tracking.Tracker.TrackFrame | tracker.py:52-67 | one frame of the loop records exactly what `FrameTracked` demands: players of the player class, and the primary ball or else the fallback's. The fallback runs only when the primary choice is `None`. The last position moves to the new ball's centre or stays |
| Tracking.Tracker.GetObjectTracks | tracker.py:43-72 | a cache hit returns the stored tracks verbatim, changing nothing. Otherwise the run is recorded frame by frame as `RunRecorded` demands, and saved exactly when a cache path is given. A missing class name stops at the first such frame and saves nothing |
| Tracking.Tracker.TrackFrames | tracker.py:47-67 | the frame loop yields one player map and one ball entry per frame, each as `FrameTracked` demands, or the error of the first frame lacking a class name |
| Tracking.FirstMissingAt | tracker.py:52 | a run that fails at a frame fails at the first frame whose class names are incomplete |
| Tracking.FrameStep | tracker.py:51-67 | one turn of the frame loop keeps its invariant and moves the last position as described |
| Tracking.FrameTrackedExtended | tracker.py:57-58 | appending a frame leaves the earlier frames' records unchanged |
| Tracking.BallEntriesShape | tracker.py:58-66 | every ball entry is empty or holds key 1 alone, and the fallback runs at most once per frame |
| Tracking.FallbackOnlyWhenNeeded | tracker.py:60-63 | the fallback runs on a frame exactly when the primary selection is `None`. Otherwise the frame's ball is the primary choice |
| Tracking.PrimaryPassSeesOnlyClassOne | tracker.py:38 | since the primary pass keeps class 1 only, and ByteTrack reports only classes it was given, every primary candidate has class 1. A ball class other than 1 is then never chosen in the primary pass, and a player class other than 1 yields no players |
| GtConversion.ClassNames | convert_gt_to_yolo.py:46-47 | the class names are the lines of `labels.txt`, each stripped |
| GtConversion.LastIndexOf | convert_gt_to_yolo.py:49 | `name_to_index` maps a name to its last index, and has no entry exactly when the name is missing |
| GtConversion.YoloClass | convert_gt_to_yolo.py:61-65 | a gt class id has a YOLO class exactly when it is in `1..n`. That class is an index holding the same name as `labels[k-1]`, at or after `k-1` |
| GtConversion.YoloClassOfDistinctNames | convert_gt_to_yolo.py:48-49 | with distinct names, gt class `k` becomes YOLO class `k - 1` |
| GtConversion.Normalise | convert_gt_to_yolo.py:68-71 | the YOLO label: class id, box centre divided by the image size, and box size divided by the image size. `NormaliseInUnitRange` and `NormaliseRoundTrip` state its range and its inverse |
| GtConversion.NormaliseInUnitRange | convert_gt_to_yolo.py:68-71 | a box inside the image normalises to four values in [0, 1] |
| GtConversion.NormaliseRoundTrip | convert_gt_to_yolo.py:68-71 | drawing a normalised box with the YOLO-to-pixel rule of `image_utils.py` gives `int(x)`, `int(y)`, `int(x + w)` and `int(y + h)` |
| GtConversion.ScaledLabelRect | image_utils.py:48-53 | a label whose scaled centre and size match a box is drawn at that box's truncated corners |
| GtConversion.FrameFileName | convert_gt_to_yolo.py:74 | `f"{frame:06}.txt"`. `FrameFileNameInjective` and `FrameFileNameHasNoSlash` state its properties |
| GtConversion.FrameFileNameInjective | convert_gt_to_yolo.py:74 | distinct frames get distinct label files |
| GtConversion.FrameFileNameHasNoSlash | convert_gt_to_yolo.py:74 | a label file name contains no `/` |
| GtConversion.ParseGtLine | convert_gt_to_yolo.py:56-60 | a gt line is stripped and split on commas; with fewer than 8 fields, or a field `int`/`float` refuses, it is `None`, standing for the exception; otherwise frame = field 0, box = fields 2-5, class = field 7. `ParseIntegerLine` and `ParseGtLineOfParts` state when it succeeds and what it returns |
| GtConversion.EntryOf | convert_gt_to_yolo.py:56-78 | one gt line: a malformed line raises; a class id without a name in `labels.txt` is skipped; a zero image size raises; otherwise an entry for the frame's file, holding the normalised label and the class name. `ConvertStep` states this as a step of the fold |
| GtConversion.Record | convert_gt_to_yolo.py:75-84 | one kept line: its file is listed and given zero counters on first use, the label is appended, and the matching counter grows. `RecordKeepsLabels` and `AddLine` state its effect |
| GtConversion.ConvertRecords | convert_gt_to_yolo.py:56-84 | the loop over parsed lines as a fold, stopping at the first error. `ConvertRecordsEntries`, `ErrorPersists` and `RecordAllGroups` state its result |
| GtConversion.ConvertLines | convert_gt_to_yolo.py:55-84 | `ConvertRecords` over every gt line parsed. `ConvertGtToYolo` is proved to return it |
| GtConversion.ParseAll | convert_gt_to_yolo.py:56-60 | one parsed record, or a failure, per line |
| GtConversion.ErrorPersists | convert_gt_to_yolo.py:56-60 | once a line raises, the conversion ends with that error, whatever follows |
| GtConversion.ConvertRecordsEntries | convert_gt_to_yolo.py:56-84 | a successful parse records exactly the kept lines' entries, in input order |
| GtConversion.RecordAllGroups | convert_gt_to_yolo.py:75-84 | grouping: each file holds exactly its frame's kept labels, in input order. Each file is listed once and exists exactly when it has a line. Its counts are exactly its "player" and "ball" lines |
| GtConversion.RecordAllLabels | convert_gt_to_yolo.py:75-78 | the label part of that grouping |
| GtConversion.RecordKeepsLabels | convert_gt_to_yolo.py:75-78 | recording one more kept line keeps the files in step with the kept lines |
| GtConversion.RecordAllCounts | convert_gt_to_yolo.py:77-84 | the counters have the same keys as the label files and count exactly the kept "player" and "ball" lines |
| GtConversion.EveryFileNonEmpty | convert_gt_to_yolo.py:75-78 | every label file written holds at least one line |
| GtConversion.CountsBoundedByLines | convert_gt_to_yolo.py:77-84 | a file's player count plus ball count never exceeds its line count |
| GtConversion.CountsWithinLines | convert_gt_to_yolo.py:81-84 | per file, the "player" and "ball" lines together are at most all its lines |
| GtConversion.EntryFileIsFrameFile | convert_gt_to_yolo.py:74-78 | every kept line goes to the file named after its frame |
| GtConversion.LinesForHasEntry | convert_gt_to_yolo.py:75-78 | a file with lines is the file of some kept line |
| GtConversion.OrderIsPlainDistinct | convert_gt_to_yolo.py:75-89 | the files written are listed once each and are plain names |
| GtConversion.ConvertedLabelFiles | convert_gt_to_yolo.py:86-89 | after a successful conversion, `output_dir/<frame>.txt` holds exactly that frame's labels in input order, and no other path changes |
| GtConversion.ShowFacts | convert_gt_to_yolo.py:58 | `str(n)` has no comma, starts with a sign or digit, ends with a digit and reads back through `int` |
| GtConversion.ShowShape | convert_gt_to_yolo.py:57 | the shape half of `ShowFacts` |
| GtConversion.Shows | convert_gt_to_yolo.py:57 | the texts of a row of integers |
| GtConversion.ParseIntegerLine | convert_gt_to_yolo.py:57-60 | a comma-joined line of at least 8 integers parses to frame = field 0, box = fields 2-5, class = field 7 |
| GtConversion.IntegerReadsAsFloat | convert_gt_to_yolo.py:59 | `float(str(n))` is `n` |
| GtConversion.ParseGtLineOfParts | convert_gt_to_yolo.py:57-60 | a line whose fields read as given parses to that record |
| GtConversion.IntegerLineSplits | convert_gt_to_yolo.py:57 | a comma-joined line of integers survives `strip()` and splits back into its fields |
| GtConversion.IntegerLineStrips | convert_gt_to_yolo.py:57 | such a line is left alone by `strip()` |
| GtConversion.WriteLabelFiles | convert_gt_to_yolo.py:86-89 | each listed file's labels written at `output_dir/<file>`, in listing order. `WriteLabelFilesEffect` and `ConvertedLabelFiles` state the final disk |
| GtConversion.WriteLabelFilesEffect | convert_gt_to_yolo.py:86-89 | writing distinct plain names puts each file's lines at its own path, and every other path keeps its contents |
| GtConversion.ConvertStep | convert_gt_to_yolo.py:56-84 | reading one more line either raises, skips it, or records it |
| GtConversion.ConvertGtToYolo | convert_gt_to_yolo.py:38-89 | the converter's result is `ConvertLines` over the stripped class names. On an error the disk is unchanged. On success exactly `WriteLabelFiles` of the dictionaries has been written |
| GtConversion.AddLine | convert_gt_to_yolo.py:75-84 | the loop body creates a file's entry on first use, appends the line and bumps the matching counter, which is exactly `Record` |
| GtConversion.WriteAll | convert_gt_to_yolo.py:86-89 | the writing loop writes `WriteLabelFiles` |
| DatasetUtils.ImageName | dataset_utils.py:17 | `filename.replace(".txt", ".jpg")`. `ImageNameOfLabel` and `ImageNameKeepsSlashOut` state its effect |
| DatasetUtils.ImageNameOfLabel | dataset_utils.py:17 | for a dot-free stem, `<stem>.txt` goes with `<stem>.jpg` |
| DatasetUtils.ImageNameKeepsSlashOut | dataset_utils.py:20 | replacing ".txt" by ".jpg" introduces no `/` |
| DatasetUtils.ReplaceKeepsCharOut | dataset_utils.py:17 | `replace` introduces no character that was absent from both the text and the replacement |
| DatasetUtils.CopyPair | dataset_utils.py:17-23 | one file name: when both the image and the label exist, the image is copied and then the label, each to its `prefix_` name; otherwise nothing changes. `CopyPairKeepsOthers` and `CopyPairCopies` state its effect |
| DatasetUtils.CopyAll | dataset_utils.py:16-23 | `CopyPair` for each file name in order. `CopyAllEffect`, `CopyAllKeepsFiles` and `CopyAllKeepsOthers` state its effect |
| DatasetUtils.CopyFiles | dataset_utils.py:12-23 | `copy_files` leaves the disk exactly as `CopyAll` says: in order, each pair whose image and label both exist is copied under its prefixed names |
| DatasetUtils.CopyAllKeepsFiles | dataset_utils.py:16-23 | copying never removes a file |
| DatasetUtils.CopyAllKeepsOthers | dataset_utils.py:16-23 | a path that is no name's destination is left unchanged |
| DatasetUtils.CopyAllEffect | dataset_utils.py:16-23 | with non-interfering destinations, each name's image and label are copied to `prefix_` names exactly when both sources existed. Otherwise its destinations are untouched |
| DatasetUtils.CopyPairKeepsOthers | dataset_utils.py:19-23 | copying one pair touches only its two destinations |
| DatasetUtils.CopyPairCopies | dataset_utils.py:19-23 | copying one pair leaves its destinations as promised |
| DatasetUtils.LabelTargetsDistinct | dataset_utils.py:21 | distinct plain label names get distinct destination labels |
| DatasetUtils.ListedImages | dataset_utils.py:25-29 | the joined paths of the listed names that exist and end in .jpg, .jpeg or .png case-insensitively, in listing order. `ListedImagesSound` and `ListedImagesComplete` state both directions |
| DatasetUtils.ListedImagesSound | dataset_utils.py:25-29 | every path kept joins the directory with a listed name that is an existing image file |
| DatasetUtils.ListedImagesComplete | dataset_utils.py:25-29 | every listed image file that exists is kept |
| DatasetUtils.ReadFrames | dataset_utils.py:31-38 | the images decoded from the paths in order, skipping those that cannot be read. `FramesAtMostPaths` and `FramesAlignWithPaths` state its length and alignment |
| DatasetUtils.LoadFrames | dataset_utils.py:24-38 | the paths are the sorted existing image files. The frames are those decoded from them in order, skipping unreadable ones |
| DatasetUtils.ImageFilesSortedAndListed | dataset_utils.py:25-29 | the paths are ascending and are exactly the joined paths of listed existing files ending in .jpg, .jpeg or .png, case-insensitively |
| DatasetUtils.FramesAtMostPaths | dataset_utils.py:31-38 | there are never more frames than paths, and as many exactly when every image can be read |
| DatasetUtils.FramesAlignWithPaths | dataset_utils.py:31-38 | when every image can be read, frame `i` is the image at path `i` |
| DatasetSplit.LabelFiles | create_dataset.py:54 | the base names of the listed entries matching `*.txt` whose joined path does not contain "labels.txt", in listing order. `LabelFilesMembers` and `LabelFilesAvoidLabelsTxt` state which names are kept |
| DatasetSplit.LabelFilesMembers | create_dataset.py:54 | for plain listed names, a name is kept exactly when it ends in .txt, is not hidden, and its joined path avoids "labels.txt" |
| DatasetSplit.LabelFilesAvoidLabelsTxt | create_dataset.py:54 | no kept name contains "labels.txt" |
| DatasetSplit.ContainsInSuffix | create_dataset.py:54 | text found in a suffix of a path is found in the path |
| DatasetSplit.TrainHalf | create_dataset.py:60-63 | the first `n // 2` names after sorting. `SplitHalves` states its properties |
| DatasetSplit.ValHalf | create_dataset.py:60-64 | the remaining sorted names. `SplitHalves` and `SplitDisjoint` state its properties |
| DatasetSplit.SplitHalves | create_dataset.py:60-64 | train then val is the sorted list, and train has `n // 2` names. Val has as many or one more, together they are a permutation of the names, each half is sorted, and no train name sorts after a val name |
| DatasetSplit.SortKeepsLength | create_dataset.py:60 | sorting keeps the number of names |
| DatasetSplit.SlicesOfSorted | create_dataset.py:63-64 | cutting a sorted list gives two sorted parts, the first below the second |
| DatasetSplit.SplitDisjoint | create_dataset.py:63-64 | with unique file names, no name goes to both train and val |
| DatasetSplit.DistinctCountsAtMostOne | create_dataset.py:63-64 | a list of distinct names holds each name at most once |
| DatasetSplit.CountsAtMostOneDistinct | create_dataset.py:63-64 | a list holding each name at most once has distinct entries |
| DatasetSplit.Jobs | create_dataset.py:52-72 | the four `copy_files` calls in order: sequence 1 to train with prefix "1", sequence 2 to train and then to val with prefix "2", and sequence 3 to test with prefix "3", each from its `img1` and `labels` folders. `TrainSequencesApart` shows the two train jobs never overwrite each other |
| DatasetSplit.PrepareDatasets | create_dataset.py:43-72 | after the clean-up, the disk is `Prepared` over the four `copy_files` calls, in order: sequence 1 to train under "1", sequence 2's sorted first half to train and second half to val under "2", sequence 3 to test under "3" |
| DatasetSplit.PreparedStep | create_dataset.py:55-72 | each call copies its names into the disk the earlier calls left |
| DatasetSplit.PrefixesKeepSequencesApart | create_dataset.py:55-72 | plain names under different prefixes of equal length never share a destination in one directory |
| DatasetSplit.PrefixedNamesDiffer | dataset_utils.py:20-21 | `prefix_name` paths with different prefixes differ |
| DatasetSplit.TrainSequencesApart | create_dataset.py:55-65 | in train, sequence 1's files ("1_") and sequence 2's files ("2_") never overwrite each other |

## Left out

- **Models:** YOLO inference, its batching in `detect_frames`, and ByteTrack's algorithm. They are functions the tracker is given. ByteTrack is a function of its input history.
- **Drawing and image I/O:** the OpenCV drawing, image reading and writing, and `draw_annotations`. Only the coordinates the drawing helpers compute are modelled. `cv2.imread` is a decoder parameter.
- **Pickle:** the serialised format. A cache file is either readable tracks or unreadable.
- **Distance:** the square root inside `np.linalg.norm`. The distance is a function parameter.
- **Floating point:** IEEE rounding, infinities and NaN. Arithmetic is exact over reals. A zero `max_distance` gives a distance factor of 0, as numpy's infinity or NaN followed by `max(0, ...)` does.
- Numerals.ParseInt: accepts ASCII digits only. Python's `int()` also accepts underscores between digits (`"1_0"` reads as 10) and non-ASCII decimal digits; the model reads those texts as `ValueError`, so a gt line written that way is a malformed line here.
- Numerals.ParseFloat: accepts ASCII decimal numerals only. Python's `float()` also accepts `inf`, `nan`, underscores between digits and non-ASCII decimal digits; the model reads those texts as `ValueError`.
- **Ball scoring:** `BallScoring.BallScoreRange`'s upper bound holds for confidences in [0, 1] and a non-negative distance only.
- **pandas:** the data frame internals. `Interpolate` covers every input: an empty track, a track with frames but no ball (where pandas raises a `ValueError`), and the rest. `InterpolateBallPositions` and its lemmas assume a track with at least one ball.
- **`.6f` output:** the rendering of a YOLO line. A written label file holds the label values themselves.
- **Printing and directories:** all printing; directory creation and deletion (`os.makedirs`, `shutil.rmtree`). Directories are not entries of the disk. `PrepareDatasets` models the run after the clean-up.
- **File metadata:** `shutil.copy2` copies contents only.
- **Directory order:** listings (`os.listdir`, `glob`) are parameters in the order the system yields them. `glob`'s hidden-file rule is modelled; its other pattern features are not.
- **`draw_boxes_on_frame` line parsing:** `map(float, line.strip().split())` is not modelled. `BoxesToDraw` takes parsed labels, and a malformed label line is outside the model.
- **`lower()`:** modelled on ASCII letters only.
- **Other code:** `save_image` in `dataset_utils.py`, and the scripts' `__main__` blocks. The configuration module and the scripts for video creation, training, prediction and label visualisation are not part of this model.
