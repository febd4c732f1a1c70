/**
 * `convert_gt_to_yolo`: MOTChallenge ground truth (`gt.txt`, one comma-separated
 * annotation per line, plus `labels.txt` naming the classes) turned into one YOLO
 * label file per frame, with the per-frame player and ball counts it reports.
 * The `:.6f` text rendering of a YOLO line is not modelled: a written label file
 * holds the labels themselves.
 */
module GtConversion {
  import opened Wrappers
  import opened Strings
  import opened Numerals
  import opened Paths
  import opened ImageUtils
  import opened FileStore

  /** The fields of one gt line the converter reads: 0 (frame), 2-5 (box) and 7 (class). */
  datatype GtRecord = GtRecord(frame: int, x: real, y: real, w: real, h: real, classId: int)

  /** Where the conversion stops: an exception while reading line `line` (0-based). */
  datatype ConvertError =
    | MalformedLine(line: nat)   // too few fields, or `int`/`float` rejects one
    | ZeroImageSize(line: nat)   // `img_width` or `img_height` is 0 at the first kept line

  datatype FrameCounts = FrameCounts(players: nat, balls: nat)

  /**
   * The two dictionaries the parsing loop fills: `labels` (`label_data`) and `counts`
   * (`frame_objects`), with `order` the order their keys were inserted in.
   */
  datatype Conversion = Conversion(order: seq<string>, labels: map<string, seq<YoloLabel>>,
                                   counts: map<string, FrameCounts>)

  /** One gt line; `None` where indexing, `int` or `float` raises. */
  function ParseGtLine(line: string): Option<GtRecord> {
    var parts := Split(Strip(line), ',');
    if |parts| < 8 then None
    else
      var frame, classId := ParseInt(parts[0]), ParseInt(parts[7]);
      var x, y, w, h := ParseFloat(parts[2]), ParseFloat(parts[3]), ParseFloat(parts[4]), ParseFloat(parts[5]);
      if frame.Some? && x.Some? && y.Some? && w.Some? && h.Some? && classId.Some?
      then Some(GtRecord(frame.value, x.value, y.value, w.value, h.value, classId.value))
      else None
  }

  /** `str(n)` for an integer. */
  function Show(n: int): string {
    FormatZeroPadded(n, 0)
  }

  /** The class names: the lines of `labels.txt`, each stripped. */
  function ClassNames(labelLines: seq<string>): (classes: seq<string>)
    ensures |classes| == |labelLines|
    ensures forall k :: 0 <= k < |labelLines| ==> classes[k] == Strip(labelLines[k])
  {
    seq(|labelLines|, k requires 0 <= k < |labelLines| => Strip(labelLines[k]))
  }

  /** `name_to_index[name]`: the dictionary comprehension keeps the last index of a repeated name. */
  function LastIndexOf(classes: seq<string>, name: string): (r: Option<nat>)
    ensures r.None? <==> name !in classes
    ensures r.Some? ==>
      && r.value < |classes| && classes[r.value] == name
      && forall k :: r.value < k < |classes| ==> classes[k] != name
  {
    if |classes| == 0 then None
    else if classes[|classes| - 1] == name then Some(|classes| - 1)
    else LastIndexOf(classes[..|classes| - 1], name)
  }

  /**
   * The YOLO class of gt class `classId`: `class_dict` maps `k` to `classes[k - 1]`
   * (gt ids start at 1), and that name is looked up in `name_to_index`.
   * `None`: the id has no class name and the line is skipped.
   */
  function YoloClass(classes: seq<string>, classId: int): (r: Option<nat>)
    ensures r.Some? <==> 1 <= classId <= |classes|
    ensures r.Some? ==>
      && r.value < |classes| && classes[r.value] == classes[classId - 1]
      && r.value >= classId - 1
  {
    if 1 <= classId <= |classes| then
      var name := classes[classId - 1];
      assert name in classes;
      LastIndexOf(classes, name)
    else None
  }

  /** With distinct class names, gt class `k` becomes YOLO class `k - 1`. */
  lemma YoloClassOfDistinctNames(classes: seq<string>, classId: int)
    requires forall i, j :: 0 <= i < j < |classes| ==> classes[i] != classes[j]
    requires 1 <= classId <= |classes|
    ensures YoloClass(classes, classId) == Some(classId - 1)
  {
  }

  /** The box normalised by the image size: centre, width and height as fractions of it. */
  function Normalise(rec: GtRecord, yoloId: nat, imgWidth: real, imgHeight: real): YoloLabel
    requires imgWidth != 0.0 && imgHeight != 0.0
  {
    YoloLabel(yoloId as real, (rec.x + rec.w / 2.0) / imgWidth, (rec.y + rec.h / 2.0) / imgHeight,
              rec.w / imgWidth, rec.h / imgHeight)
  }

  /** A box inside the image normalises to four values in [0, 1]. */
  lemma NormaliseInUnitRange(rec: GtRecord, yoloId: nat, imgWidth: real, imgHeight: real)
    requires imgWidth > 0.0 && imgHeight > 0.0
    requires 0.0 <= rec.x && 0.0 <= rec.w && rec.x + rec.w <= imgWidth
    requires 0.0 <= rec.y && 0.0 <= rec.h && rec.y + rec.h <= imgHeight
    ensures var l := Normalise(rec, yoloId, imgWidth, imgHeight);
      && 0.0 <= l.x <= 1.0 && 0.0 <= l.y <= 1.0 && 0.0 <= l.w <= 1.0 && 0.0 <= l.h <= 1.0
  {
    UnitFraction(rec.x + rec.w / 2.0, imgWidth);
    UnitFraction(rec.y + rec.h / 2.0, imgHeight);
    UnitFraction(rec.w, imgWidth);
    UnitFraction(rec.h, imgHeight);
  }

  lemma UnitFraction(a: real, b: real)
    requires 0.0 <= a <= b && b > 0.0
    ensures 0.0 <= a / b <= 1.0
  {
    assert a / b * b == a;
  }

  /**
   * Drawing a converted box (image_utils' YOLO-to-pixel rule) with the same image size
   * gives back the truncated corners of the original gt box.
   */
  lemma NormaliseRoundTrip(rec: GtRecord, yoloId: nat, imgWidth: real, imgHeight: real)
    requires imgWidth != 0.0 && imgHeight != 0.0
    ensures YoloToPixel(Normalise(rec, yoloId, imgWidth, imgHeight), imgWidth, imgHeight)
      == PixelRect(Trunc(rec.x), Trunc(rec.y), Trunc(rec.x + rec.w), Trunc(rec.y + rec.h))
  {
    var l := Normalise(rec, yoloId, imgWidth, imgHeight);
    DivMul(rec.x + rec.w / 2.0, imgWidth);
    DivMul(rec.w, imgWidth);
    DivMul(rec.y + rec.h / 2.0, imgHeight);
    DivMul(rec.h, imgHeight);
    ScaledLabelRect(l, imgWidth, imgHeight, rec);
  }

  /** A label whose scaled centre and size are those of the gt box is drawn at the box's truncated corners. */
  lemma ScaledLabelRect(l: YoloLabel, imgWidth: real, imgHeight: real, rec: GtRecord)
    requires ScaleBy(l.x, imgWidth) == rec.x + rec.w / 2.0 && ScaleBy(l.w, imgWidth) == rec.w
    requires ScaleBy(l.y, imgHeight) == rec.y + rec.h / 2.0 && ScaleBy(l.h, imgHeight) == rec.h
    ensures YoloToPixel(l, imgWidth, imgHeight)
      == PixelRect(Trunc(rec.x), Trunc(rec.y), Trunc(rec.x + rec.w), Trunc(rec.y + rec.h))
  {
    CentredRectFromEdges(ScaleBy(l.x, imgWidth), ScaleBy(l.y, imgHeight), ScaleBy(l.w, imgWidth), ScaleBy(l.h, imgHeight),
                         rec.x, rec.y, rec.x + rec.w, rec.y + rec.h);
  }

  /** Dividing by a non-zero size and scaling back is the identity. */
  lemma DivMul(v: real, w: real)
    requires w != 0.0
    ensures ScaleBy(v / w, w) == v
  {
  }

  lemma CentredRectFromEdges(xCenter: real, yCenter: real, boxWidth: real, boxHeight: real,
                             left: real, top: real, right: real, bottom: real)
    requires xCenter - boxWidth / 2.0 == left && xCenter + boxWidth / 2.0 == right
    requires yCenter - boxHeight / 2.0 == top && yCenter + boxHeight / 2.0 == bottom
    ensures CentredRect(xCenter, yCenter, boxWidth, boxHeight) == PixelRect(Trunc(left), Trunc(top), Trunc(right), Trunc(bottom))
  {
  }

  /** `f"{frame:06}.txt"`. */
  function FrameFileName(frame: int): string {
    FormatZeroPadded(frame, 6) + ".txt"
  }

  /** Distinct frames get distinct label files. */
  lemma FrameFileNameInjective(a: int, b: int)
    requires FrameFileName(a) == FrameFileName(b)
    ensures a == b
  {
    var fa, fb := FormatZeroPadded(a, 6), FormatZeroPadded(b, 6);
    assert |fa| == |fb|;
    assert fa == FrameFileName(a)[..|fa|];
    assert fb == FrameFileName(b)[..|fb|];
    ZeroPaddedInjective(a, b, 6);
  }

  /** A label file name is a plain name: it never contains `/`. */
  lemma FrameFileNameHasNoSlash(frame: int)
    ensures '/' !in FrameFileName(frame)
  {
    var digits := FormatZeroPadded(if frame >= 0 then frame else -frame, if frame >= 0 then 6 else 5);
    assert AllDigits(digits);
    if frame < 0 {
      assert FormatZeroPadded(frame, 6) == "-" + digits;
    }
    var name := FrameFileName(frame);
    forall k | 0 <= k < |name| ensures name[k] != '/' {
      if frame >= 0 {
        if k < |digits| { assert name[k] == digits[k]; assert IsDigit(digits[k]); }
      } else {
        if 1 <= k <= |digits| { assert name[k] == digits[k - 1]; assert IsDigit(digits[k - 1]); }
      }
    }
  }

  /** One kept line: the file it goes to, its YOLO label and its class name. */
  datatype Entry = Entry(file: string, yolo: YoloLabel, name: string)

  /** Appends a kept line to its frame's file and counts it when it is a player or a ball. */
  function Record(c: Conversion, e: Entry): Conversion {
    var isNew := e.file !in c.labels;
    var lines := if isNew then [] else c.labels[e.file];
    var cnt := if isNew || e.file !in c.counts then FrameCounts(0, 0) else c.counts[e.file];
    var cnt' :=
      if e.name == "player" then cnt.(players := cnt.players + 1)
      else if e.name == "ball" then cnt.(balls := cnt.balls + 1)
      else cnt;
    Conversion(if isNew then c.order + [e.file] else c.order,
               c.labels[e.file := lines + [e.yolo]], c.counts[e.file := cnt'])
  }

  /**
   * What gt line `k`, parsed, contributes: an error, nothing (class id without a name),
   * or an entry. The image size is only divided by once a line is kept.
   */
  function EntryOf(parsed: Option<GtRecord>, k: nat, classes: seq<string>, imgWidth: real, imgHeight: real)
    : Result<Option<Entry>, ConvertError>
  {
    match parsed
    case None => Err(MalformedLine(k))
    case Some(rec) =>
      match YoloClass(classes, rec.classId)
      case None => Ok(None)
      case Some(yoloId) =>
        if imgWidth == 0.0 || imgHeight == 0.0 then Err(ZeroImageSize(k))
        else Ok(Some(Entry(FrameFileName(rec.frame), Normalise(rec, yoloId, imgWidth, imgHeight),
                           classes[rec.classId - 1])))
  }

  const Empty := Conversion([], map[], map[])

  /** Every line of `gt.txt`, parsed. */
  function ParseAll(lines: seq<string>): (recs: seq<Option<GtRecord>>)
    ensures |recs| == |lines|
  {
    seq(|lines|, k requires 0 <= k < |lines| => ParseGtLine(lines[k]))
  }

  /** The dictionaries after the parsing loop has read `lines`, or the exception it stops at. */
  function ConvertLines(lines: seq<string>, classes: seq<string>, imgWidth: real, imgHeight: real)
    : Result<Conversion, ConvertError>
  {
    ConvertRecords(ParseAll(lines), classes, imgWidth, imgHeight)
  }

  /** The parsing loop over lines already parsed: it stops at the first line that raises. */
  function ConvertRecords(recs: seq<Option<GtRecord>>, classes: seq<string>, imgWidth: real, imgHeight: real)
    : Result<Conversion, ConvertError>
  {
    if |recs| == 0 then Ok(Empty)
    else
      match ConvertRecords(recs[..|recs| - 1], classes, imgWidth, imgHeight)
      case Err(e) => Err(e)
      case Ok(c) =>
        match EntryOf(recs[|recs| - 1], |recs| - 1, classes, imgWidth, imgHeight)
        case Err(e) => Err(e)
        case Ok(None) => Ok(c)
        case Ok(Some(e)) => Ok(Record(c, e))
  }

  /** Once a prefix fails, the whole file fails with the same error. */
  lemma {:induction false} ErrorPersists(recs: seq<Option<GtRecord>>, n: nat, classes: seq<string>,
                                         imgWidth: real, imgHeight: real)
    requires n <= |recs| && ConvertRecords(recs[..n], classes, imgWidth, imgHeight).Err?
    ensures ConvertRecords(recs, classes, imgWidth, imgHeight)
      == ConvertRecords(recs[..n], classes, imgWidth, imgHeight)
    decreases |recs|
  {
    if n < |recs| {
      var init := recs[..|recs| - 1];
      assert init[..n] == recs[..n];
      ErrorPersists(init, n, classes, imgWidth, imgHeight);
    } else {
      assert recs[..n] == recs;
    }
  }

  /** The kept lines' entries, in input order, when every line is well-formed. */
  function Entries(recs: seq<Option<GtRecord>>, classes: seq<string>, imgWidth: real, imgHeight: real): seq<Entry> {
    if |recs| == 0 then []
    else
      var init := Entries(recs[..|recs| - 1], classes, imgWidth, imgHeight);
      match EntryOf(recs[|recs| - 1], |recs| - 1, classes, imgWidth, imgHeight)
      case Ok(Some(e)) => init + [e]
      case _ => init
  }

  /** The labels that go to `file`, in input order. */
  function LinesFor(es: seq<Entry>, file: string): seq<YoloLabel> {
    if |es| == 0 then []
    else LinesFor(es[..|es| - 1], file) + (if es[|es| - 1].file == file then [es[|es| - 1].yolo] else [])
  }

  /** How many entries for `file` carry the class name `name`. */
  function CountFor(es: seq<Entry>, file: string, name: string): nat {
    if |es| == 0 then 0
    else CountFor(es[..|es| - 1], file, name) + (if es[|es| - 1].file == file && es[|es| - 1].name == name then 1 else 0)
  }

  /** The dictionaries after recording a sequence of entries, one at a time. */
  function RecordAll(es: seq<Entry>): Conversion {
    if |es| == 0 then Empty else Record(RecordAll(es[..|es| - 1]), es[|es| - 1])
  }

  /** A successful conversion records exactly the kept lines' entries. */
  lemma {:induction false} ConvertRecordsEntries(recs: seq<Option<GtRecord>>, classes: seq<string>,
                                                 imgWidth: real, imgHeight: real)
    requires ConvertRecords(recs, classes, imgWidth, imgHeight).Ok?
    ensures ConvertRecords(recs, classes, imgWidth, imgHeight).value
      == RecordAll(Entries(recs, classes, imgWidth, imgHeight))
    decreases |recs|
  {
    if |recs| > 0 {
      var init := recs[..|recs| - 1];
      ConvertRecordsEntries(init, classes, imgWidth, imgHeight);
      var es := Entries(init, classes, imgWidth, imgHeight);
      match EntryOf(recs[|recs| - 1], |recs| - 1, classes, imgWidth, imgHeight)
      case Ok(Some(e)) =>
        assert (es + [e])[..|es|] == es;
      case _ =>
    }
  }

  /**
   * Grouping: every file holds exactly the labels of its frame's kept lines, in input
   * order, and counts exactly its players and balls; `order` lists each file once.
   */
  lemma RecordAllGroups(es: seq<Entry>)
    ensures var c := RecordAll(es);
      && (forall i, j :: 0 <= i < j < |c.order| ==> c.order[i] != c.order[j])
      && (forall f :: f in c.order <==> f in c.labels)
      && c.counts.Keys == c.labels.Keys
      && (forall f :: f in c.labels <==> LinesFor(es, f) != [])
      && (forall f :: f in c.labels ==> c.labels[f] == LinesFor(es, f))
      && (forall f :: f in c.counts ==>
            c.counts[f] == FrameCounts(CountFor(es, f, "player"), CountFor(es, f, "ball")))
  {
    RecordAllLabels(es);
    RecordAllCounts(es);
  }

  /**
   * `c` holds the label files of the entries `es`: each file once in `order`, exactly
   * the files with at least one entry, each with its entries' lines in input order.
   */
  ghost predicate LabelsMatch(c: Conversion, es: seq<Entry>) {
    && (forall i, j :: 0 <= i < j < |c.order| ==> c.order[i] != c.order[j])
    && (forall f :: f in c.order <==> f in c.labels)
    && (forall f :: f in c.labels <==> LinesFor(es, f) != [])
    && (forall f :: f in c.labels ==> c.labels[f] == LinesFor(es, f))
  }

  lemma {:induction false} RecordAllLabels(es: seq<Entry>)
    ensures LabelsMatch(RecordAll(es), es)
    decreases |es|
  {
    if |es| > 0 {
      var init := es[..|es| - 1];
      RecordAllLabels(init);
      RecordKeepsLabels(RecordAll(init), init, es[|es| - 1]);
      assert init + [es[|es| - 1]] == es;
    }
  }

  /** Recording one more entry keeps the label files in step with the entries. */
  lemma RecordKeepsLabels(c: Conversion, es: seq<Entry>, e: Entry)
    requires LabelsMatch(c, es)
    ensures LabelsMatch(Record(c, e), es + [e])
  {
    var es' := es + [e];
    assert es'[..|es'| - 1] == es;
    forall f ensures LinesFor(es', f) == LinesFor(es, f) + (if e.file == f then [e.yolo] else []) {
    }
  }

  lemma {:induction false} RecordAllCounts(es: seq<Entry>)
    ensures var c := RecordAll(es);
      && c.counts.Keys == c.labels.Keys
      && (forall f :: f in c.counts ==>
            c.counts[f] == FrameCounts(CountFor(es, f, "player"), CountFor(es, f, "ball")))
    decreases |es|
  {
    if |es| > 0 {
      var init := es[..|es| - 1];
      var e := es[|es| - 1];
      RecordAllCounts(init);
      RecordAllLabels(init);
      var c0 := RecordAll(init);
      var c := RecordAll(es);
      forall f | f in c.counts
        ensures c.counts[f] == FrameCounts(CountFor(es, f, "player"), CountFor(es, f, "ball"))
      {
        if f == e.file {
          if f !in c0.labels {
            CountsWithinLines(init, f);
          }
        }
      }
    }
  }

  /** Every label file that is written holds at least one line. */
  lemma EveryFileNonEmpty(recs: seq<Option<GtRecord>>, classes: seq<string>, imgWidth: real, imgHeight: real)
    requires ConvertRecords(recs, classes, imgWidth, imgHeight).Ok?
    ensures var c := ConvertRecords(recs, classes, imgWidth, imgHeight).value;
      forall f :: f in c.labels ==> |c.labels[f]| > 0
  {
    ConvertRecordsEntries(recs, classes, imgWidth, imgHeight);
    RecordAllGroups(Entries(recs, classes, imgWidth, imgHeight));
  }

  /** A file's player and ball counts together never exceed its number of lines. */
  lemma CountsBoundedByLines(recs: seq<Option<GtRecord>>, classes: seq<string>, imgWidth: real, imgHeight: real)
    requires ConvertRecords(recs, classes, imgWidth, imgHeight).Ok?
    ensures var c := ConvertRecords(recs, classes, imgWidth, imgHeight).value;
      forall f :: f in c.labels ==> f in c.counts && c.counts[f].players + c.counts[f].balls <= |c.labels[f]|
  {
    var es := Entries(recs, classes, imgWidth, imgHeight);
    ConvertRecordsEntries(recs, classes, imgWidth, imgHeight);
    RecordAllGroups(es);
    forall f {
      CountsWithinLines(es, f);
    }
  }

  lemma {:induction false} CountsWithinLines(es: seq<Entry>, f: string)
    ensures CountFor(es, f, "player") + CountFor(es, f, "ball") <= |LinesFor(es, f)|
    decreases |es|
  {
    if |es| > 0 {
      CountsWithinLines(es[..|es| - 1], f);
    }
  }

  /** Every kept line lands in the file named after its frame. */
  lemma {:induction false} EntryFileIsFrameFile(recs: seq<Option<GtRecord>>, classes: seq<string>,
                                                imgWidth: real, imgHeight: real, i: nat)
    requires i < |Entries(recs, classes, imgWidth, imgHeight)|
    ensures exists k ::
      && 0 <= k < |recs| && recs[k].Some?
      && Entries(recs, classes, imgWidth, imgHeight)[i].file == FrameFileName(recs[k].value.frame)
    decreases |recs|
  {
    var n := |recs| - 1;
    var init := recs[..n];
    var es := Entries(init, classes, imgWidth, imgHeight);
    if i < |es| {
      EntryFileIsFrameFile(init, classes, imgWidth, imgHeight, i);
      var k :| 0 <= k < |init| && init[k].Some? && es[i].file == FrameFileName(init[k].value.frame);
      assert recs[k] == init[k];
    } else {
      assert recs[n].Some?;
    }
  }

  /** A label file name that occurs among the entries names the frame of some kept line. */
  lemma {:induction false} LinesForHasEntry(es: seq<Entry>, f: string)
    requires LinesFor(es, f) != []
    ensures exists i :: 0 <= i < |es| && es[i].file == f
    decreases |es|
  {
    var init := es[..|es| - 1];
    if es[|es| - 1].file != f {
      LinesForHasEntry(init, f);
      var i :| 0 <= i < |init| && init[i].file == f;
      assert es[i] == init[i];
    }
  }

  /** The files a conversion writes are listed once each and are plain names without a '/'. */
  lemma OrderIsPlainDistinct(recs: seq<Option<GtRecord>>, classes: seq<string>, imgWidth: real, imgHeight: real)
    requires ConvertRecords(recs, classes, imgWidth, imgHeight).Ok?
    ensures var c := ConvertRecords(recs, classes, imgWidth, imgHeight).value;
      && (forall i, j :: 0 <= i < j < |c.order| ==> c.order[i] != c.order[j])
      && (forall f :: f in c.order ==> f in c.labels && '/' !in f)
  {
    var es := Entries(recs, classes, imgWidth, imgHeight);
    ConvertRecordsEntries(recs, classes, imgWidth, imgHeight);
    RecordAllLabels(es);
    var c := RecordAll(es);
    forall f | f in c.order ensures '/' !in f {
      LinesForHasEntry(es, f);
      var i :| 0 <= i < |es| && es[i].file == f;
      EntryFileIsFrameFile(recs, classes, imgWidth, imgHeight, i);
      var k :| 0 <= k < |recs| && recs[k].Some? && es[i].file == FrameFileName(recs[k].value.frame);
      FrameFileNameHasNoSlash(recs[k].value.frame);
    }
  }

  /**
   * The end result of a successful conversion: `outputDir/<frame>.txt` holds exactly
   * that frame's labels, in input order, and no other path changes.
   */
  lemma ConvertedLabelFiles(recs: seq<Option<GtRecord>>, classes: seq<string>, imgWidth: real, imgHeight: real,
                            files: map<string, Content>, outputDir: string)
    requires ConvertRecords(recs, classes, imgWidth, imgHeight).Ok?
    ensures var c := ConvertRecords(recs, classes, imgWidth, imgHeight).value;
      && (forall f :: f in c.order <==> f in c.labels)
      && (var es := Entries(recs, classes, imgWidth, imgHeight);
          var w := WriteLabelFiles(files, outputDir, c.order, c.labels);
          && (forall f :: f in c.labels ==>
                LabelPath(outputDir, f) in w && w[LabelPath(outputDir, f)] == YoloText(LinesFor(es, f)))
          && (forall p :: (forall f :: f in c.labels ==> p != LabelPath(outputDir, f)) ==>
                (p in w <==> p in files) && (p in files ==> w[p] == files[p])))
  {
    var es := Entries(recs, classes, imgWidth, imgHeight);
    OrderIsPlainDistinct(recs, classes, imgWidth, imgHeight);
    ConvertRecordsEntries(recs, classes, imgWidth, imgHeight);
    RecordAllLabels(es);
    var c := RecordAll(es);
    WriteLabelFilesEffect(files, outputDir, c.order, c.labels);
  }

  /** Python's `str(n)` has no commas, starts with a sign or digit, ends with a digit and reads back through `int`. */
  lemma ShowFacts(n: int)
    ensures |Show(n)| > 0 && ',' !in Show(n)
    ensures !IsSpace(Show(n)[0]) && IsDigit(Show(n)[|Show(n)| - 1])
    ensures ParseInt(Show(n)) == Some(n)
  {
    ParseZeroPadded(n, 0);
    ShowShape(n);
  }

  lemma ShowShape(n: int)
    ensures |Show(n)| > 0 && ',' !in Show(n)
    ensures !IsSpace(Show(n)[0]) && IsDigit(Show(n)[|Show(n)| - 1])
  {
    var ds := ShowNat(if n >= 0 then n else -n);
    DigitsShape(ds);
    assert ZeroPad(ds, 0) == ds && ZeroPad(ds, -1) == ds;
    if n < 0 {
      assert Show(n) == "-" + ds;
      NegatedShape(ds);
    }
  }

  lemma NegatedShape(ds: string)
    requires |ds| > 0 && ',' !in ds && IsDigit(ds[|ds| - 1])
    ensures var s := "-" + ds; ',' !in s && !IsSpace(s[0]) && IsDigit(s[|s| - 1])
  {
    var s := "-" + ds;
    assert s[|s| - 1] == ds[|ds| - 1];
    assert forall k :: 1 <= k < |s| ==> s[k] == ds[k - 1];
    SignOrDigitNotSpace(s[0]);
  }

  lemma DigitsShape(ds: string)
    requires |ds| > 0 && AllDigits(ds)
    ensures ',' !in ds && !IsSpace(ds[0]) && IsDigit(ds[|ds| - 1])
  {
    SignOrDigitNotSpace(ds[0]);
    assert forall k :: 0 <= k < |ds| ==> ds[k] != ',' by {
      forall k | 0 <= k < |ds| ensures ds[k] != ',' { assert IsDigit(ds[k]); }
    }
  }

  lemma SignOrDigitNotSpace(c: char)
    requires c == '-' || IsDigit(c)
    ensures !IsSpace(c)
  {
  }

  lemma {:induction false} JoinEnds(fields: seq<string>, sep: char)
    requires |fields| > 0 && |fields[0]| > 0 && |fields[|fields| - 1]| > 0
    ensures var j := Join(fields, sep);
      |j| > 0 && j[0] == fields[0][0] && j[|j| - 1] == fields[|fields| - 1][|fields[|fields| - 1]| - 1]
    decreases |fields|
  {
    if |fields| > 1 {
      var rest := fields[1..];
      if |rest| > 1 {
        assert |rest[0]| >= 0;
      }
      JoinEndsLast(rest, sep);
    }
  }

  lemma {:induction false} JoinEndsLast(fields: seq<string>, sep: char)
    requires |fields| > 0 && |fields[|fields| - 1]| > 0
    ensures var j := Join(fields, sep);
      |j| > 0 && j[|j| - 1] == fields[|fields| - 1][|fields[|fields| - 1]| - 1]
    decreases |fields|
  {
    if |fields| > 1 {
      JoinEndsLast(fields[1..], sep);
    }
  }

  /** The integers of a line, each written as `str` does. */
  function Shows(fields: seq<int>): (texts: seq<string>)
    ensures |texts| == |fields|
    ensures forall k :: 0 <= k < |fields| ==> texts[k] == Show(fields[k])
  {
    seq(|fields|, k requires 0 <= k < |fields| => Show(fields[k]))
  }

  /** A gt line of integer fields, as MOTChallenge writes them, parses to those integers. */
  lemma ParseIntegerLine(fields: seq<int>)
    requires |fields| >= 8
    ensures ParseGtLine(Join(Shows(fields), ','))
      == Some(GtRecord(fields[0], fields[2] as real, fields[3] as real, fields[4] as real, fields[5] as real, fields[7]))
  {
    var texts := Shows(fields);
    IntegerLineSplits(fields);
    IntegerReadsAsFloat(fields[2]);
    IntegerReadsAsFloat(fields[3]);
    IntegerReadsAsFloat(fields[4]);
    IntegerReadsAsFloat(fields[5]);
    ShowFacts(fields[0]);
    ShowFacts(fields[7]);
    ParseGtLineOfParts(Join(texts, ','), texts,
      GtRecord(fields[0], fields[2] as real, fields[3] as real, fields[4] as real, fields[5] as real, fields[7]));
  }

  lemma IntegerReadsAsFloat(n: int)
    ensures ParseFloat(Show(n)) == Some(n as real)
  {
    ShowFacts(n);
    IntegerNumeralAsFloat(Show(n));
  }

  lemma ParseGtLineOfParts(line: string, parts: seq<string>, rec: GtRecord)
    requires Split(Strip(line), ',') == parts && |parts| >= 8
    requires ParseInt(parts[0]) == Some(rec.frame) && ParseInt(parts[7]) == Some(rec.classId)
    requires ParseFloat(parts[2]) == Some(rec.x) && ParseFloat(parts[3]) == Some(rec.y)
    requires ParseFloat(parts[4]) == Some(rec.w) && ParseFloat(parts[5]) == Some(rec.h)
    ensures ParseGtLine(line) == Some(rec)
  {
  }

  /** A comma-joined line of integers is left alone by `strip()` and splits back into its fields. */
  lemma IntegerLineSplits(fields: seq<int>)
    requires |fields| >= 1
    ensures Strip(Join(Shows(fields), ',')) == Join(Shows(fields), ',')
    ensures Split(Join(Shows(fields), ','), ',') == Shows(fields)
  {
    IntegerLineStrips(fields);
    var texts := Shows(fields);
    forall k | 0 <= k < |texts| ensures ',' !in texts[k] {
      ShowShape(fields[k]);
    }
    SplitJoin(texts, ',');
  }

  /** The line begins with a sign or digit and ends with a digit, so `strip()` keeps it whole. */
  lemma IntegerLineStrips(fields: seq<int>)
    requires |fields| >= 1
    ensures Strip(Join(Shows(fields), ',')) == Join(Shows(fields), ',')
  {
    IntegerLineEnds(fields);
    StripKeeps(Join(Shows(fields), ','));
  }

  lemma IntegerLineEnds(fields: seq<int>)
    requires |fields| >= 1
    ensures var line := Join(Shows(fields), ',');
      |line| > 0 && !IsSpace(line[0]) && !IsSpace(line[|line| - 1])
  {
    var texts := Shows(fields);
    var line := Join(texts, ',');
    var first, last := texts[0], texts[|texts| - 1];
    ShowShape(fields[0]);
    ShowShape(fields[|fields| - 1]);
    JoinEnds(texts, ',');
    assert line[0] == first[0] && line[|line| - 1] == last[|last| - 1];
    SignOrDigitNotSpace(line[|line| - 1]);
  }

  /** The path a label file is written to. */
  function LabelPath(outputDir: string, file: string): string {
    PathJoin(outputDir, file)
  }

  /** The file system after writing the label files named in `names`, one after another. */
  function WriteLabelFiles(files: map<string, Content>, outputDir: string, names: seq<string>,
                           labels: map<string, seq<YoloLabel>>): map<string, Content>
    requires forall f :: f in names ==> f in labels
  {
    if |names| == 0 then files
    else
      var last := names[|names| - 1];
      WriteLabelFiles(files, outputDir, names[..|names| - 1], labels)[LabelPath(outputDir, last) := YoloText(labels[last])]
  }

  /**
   * Writing distinct plain file names: each lands under its own path with its lines,
   * and every other path keeps what it held.
   */
  lemma {:induction false} WriteLabelFilesEffect(files: map<string, Content>, outputDir: string,
                                                 names: seq<string>, labels: map<string, seq<YoloLabel>>)
    requires forall f :: f in names ==> f in labels && '/' !in f
    requires forall i, j :: 0 <= i < j < |names| ==> names[i] != names[j]
    ensures var w := WriteLabelFiles(files, outputDir, names, labels);
      && (forall f :: f in names ==> LabelPath(outputDir, f) in w && w[LabelPath(outputDir, f)] == YoloText(labels[f]))
      && (forall p :: (forall f :: f in names ==> p != LabelPath(outputDir, f)) ==>
            (p in w <==> p in files) && (p in files ==> w[p] == files[p]))
    decreases |names|
  {
    if |names| > 0 {
      var init := names[..|names| - 1];
      var last := names[|names| - 1];
      WriteLabelFilesEffect(files, outputDir, init, labels);
      forall f | f in init ensures LabelPath(outputDir, f) != LabelPath(outputDir, last) {
        BasenameOfJoin(outputDir, f);
        BasenameOfJoin(outputDir, last);
      }
    }
  }

  /** One more line read by the parsing loop. */
  lemma ConvertStep(recs: seq<Option<GtRecord>>, i: nat, classes: seq<string>, imgWidth: real, imgHeight: real)
    requires i < |recs| && ConvertRecords(recs[..i], classes, imgWidth, imgHeight).Ok?
    ensures var c := ConvertRecords(recs[..i], classes, imgWidth, imgHeight).value;
      var step := EntryOf(recs[i], i, classes, imgWidth, imgHeight);
      ConvertRecords(recs[..i + 1], classes, imgWidth, imgHeight)
        == if step.Err? then Err(step.error) else if step.value.None? then Ok(c) else Ok(Record(c, step.value.value))
  {
    assert recs[..i + 1][..i] == recs[..i];
  }

  /**
   * The converter: parse every line of `gt.txt` into the two dictionaries, then write one
   * label file per frame into `outputDir`. An exception while parsing leaves the disk as
   * it was; only the output directory's creation (not modelled) has happened by then.
   */
  method ConvertGtToYolo(gtLines: seq<string>, labelLines: seq<string>, outputDir: string,
                         imgWidth: real, imgHeight: real, disk: Disk)
    returns (r: Result<Conversion, ConvertError>)
    modifies disk
    ensures r == ConvertLines(gtLines, ClassNames(labelLines), imgWidth, imgHeight)
    ensures r.Err? ==> disk.files == old(disk.files)
    ensures r.Ok? ==> forall f :: f in r.value.order ==> f in r.value.labels
    ensures r.Ok? ==> disk.files == WriteLabelFiles(old(disk.files), outputDir, r.value.order, r.value.labels)
  {
    var classes := ClassNames(labelLines);
    var order: seq<string> := [];
    var labelData: map<string, seq<YoloLabel>> := map[];
    var frameObjects: map<string, FrameCounts> := map[];
    ghost var recs := ParseAll(gtLines);
    for i := 0 to |gtLines|
      invariant ConvertRecords(recs[..i], classes, imgWidth, imgHeight) == Ok(Conversion(order, labelData, frameObjects))
      invariant labelData.Keys == frameObjects.Keys
      invariant disk.files == old(disk.files)
    {
      ConvertStep(recs, i, classes, imgWidth, imgHeight);
      var parsed := ParseGtLine(gtLines[i]);
      assert parsed == recs[i];
      if parsed.None? {
        r := Err(MalformedLine(i));
        ErrorPersists(recs, i + 1, classes, imgWidth, imgHeight);
        return;
      }
      var rec := parsed.value;
      var yoloId := YoloClass(classes, rec.classId);
      if yoloId.None? {
        continue;
      }
      if imgWidth == 0.0 || imgHeight == 0.0 {
        r := Err(ZeroImageSize(i));
        ErrorPersists(recs, i + 1, classes, imgWidth, imgHeight);
        return;
      }
      var className := classes[rec.classId - 1];
      var line := Normalise(rec, yoloId.value, imgWidth, imgHeight);
      var frameFile := FrameFileName(rec.frame);
      assert EntryOf(recs[i], i, classes, imgWidth, imgHeight) == Ok(Some(Entry(frameFile, line, className)));
      order, labelData, frameObjects := AddLine(order, labelData, frameObjects, frameFile, line, className);
    }
    assert recs[..|gtLines|] == recs;
    r := Ok(Conversion(order, labelData, frameObjects));
    ConvertRecordsEntries(recs, classes, imgWidth, imgHeight);
    RecordAllLabels(Entries(recs, classes, imgWidth, imgHeight));
    WriteAll(outputDir, order, labelData, disk);
  }

  /** The loop body's bookkeeping for one kept line: the file's labels and counts, created on first use. */
  method AddLine(order: seq<string>, labelData: map<string, seq<YoloLabel>>, frameObjects: map<string, FrameCounts>,
                 frameFile: string, line: YoloLabel, className: string)
    returns (order': seq<string>, labelData': map<string, seq<YoloLabel>>, frameObjects': map<string, FrameCounts>)
    requires labelData.Keys == frameObjects.Keys
    ensures labelData'.Keys == frameObjects'.Keys
    ensures Conversion(order', labelData', frameObjects')
      == Record(Conversion(order, labelData, frameObjects), Entry(frameFile, line, className))
  {
    order', labelData', frameObjects' := order, labelData, frameObjects;
    if frameFile !in labelData' {
      order' := order' + [frameFile];
      labelData' := labelData'[frameFile := []];
      frameObjects' := frameObjects'[frameFile := FrameCounts(0, 0)];
    }
    labelData' := labelData'[frameFile := labelData'[frameFile] + [line]];
    if className == "player" {
      var cnt := frameObjects'[frameFile];
      frameObjects' := frameObjects'[frameFile := cnt.(players := cnt.players + 1)];
    } else if className == "ball" {
      var cnt := frameObjects'[frameFile];
      frameObjects' := frameObjects'[frameFile := cnt.(balls := cnt.balls + 1)];
    }
  }

  /** The writing loop: one label file per key of `label_data`, in insertion order. */
  method WriteAll(outputDir: string, order: seq<string>, labelData: map<string, seq<YoloLabel>>, disk: Disk)
    requires forall f :: f in order ==> f in labelData
    modifies disk
    ensures disk.files == WriteLabelFiles(old(disk.files), outputDir, order, labelData)
  {
    for j := 0 to |order|
      invariant disk.files == WriteLabelFiles(old(disk.files), outputDir, order[..j], labelData)
    {
      assert order[..j + 1][..j] == order[..j];
      var name := order[j];
      disk.files := disk.files[LabelPath(outputDir, name) := YoloText(labelData[name])];
    }
    assert order[..|order|] == order;
  }
}
