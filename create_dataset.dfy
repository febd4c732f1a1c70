/**
 * `create_dataset.prepare_datasets`: sequence 1 goes to train under prefix "1",
 * sequence 2 is sorted and split in half between train and val (prefix "2" in both),
 * sequence 3 goes to test under prefix "3". Each label directory's listing is a
 * parameter; the configured directories are a `Config`.
 */
module DatasetSplit {
  import opened Strings
  import opened Paths
  import opened Ordering
  import opened FileStore
  import opened DatasetUtils

  /** `glob(os.path.join(dir, '*.txt'))` keeps a name ending in ".txt" that is not hidden. */
  predicate MatchesTxtGlob(name: string) {
    EndsWith(name, ".txt") && !StartsWith(name, ".")
  }

  /**
   * `[os.path.basename(p) for p in glob(os.path.join(dir, '*.txt')) if 'labels.txt' not in p]`,
   * with the listing of `dir` in the order the glob yields it. The substring test is on
   * the whole joined path.
   */
  function LabelFiles(dir: string, listing: seq<string>): seq<string> {
    if |listing| == 0 then []
    else
      var e := listing[|listing| - 1];
      var p := PathJoin(dir, e);
      LabelFiles(dir, listing[..|listing| - 1])
        + (if MatchesTxtGlob(e) && !Contains(p, "labels.txt") then [Basename(p)] else [])
  }

  /** For plain listed names, a name is kept exactly when it matches the glob and its path avoids "labels.txt". */
  lemma {:induction false} LabelFilesMembers(dir: string, listing: seq<string>, n: string)
    requires forall e :: e in listing ==> '/' !in e
    ensures n in LabelFiles(dir, listing)
      <==> n in listing && MatchesTxtGlob(n) && !Contains(PathJoin(dir, n), "labels.txt")
    decreases |listing|
  {
    if |listing| > 0 {
      var init := listing[..|listing| - 1];
      var e := listing[|listing| - 1];
      assert forall x :: x in listing <==> x in init || x == e;
      LabelFilesMembers(dir, init, n);
      BasenameOfJoin(dir, e);
    }
  }

  /** No kept name contains "labels.txt"; in particular `labels.txt` itself never is. */
  lemma {:induction false} LabelFilesAvoidLabelsTxt(dir: string, listing: seq<string>)
    ensures forall n :: n in LabelFiles(dir, listing) ==> !Contains(n, "labels.txt")
    decreases |listing|
  {
    if |listing| > 0 {
      var init := listing[..|listing| - 1];
      var p := PathJoin(dir, listing[|listing| - 1]);
      LabelFilesAvoidLabelsTxt(dir, init);
      if Contains(Basename(p), "labels.txt") {
        ContainsInSuffix(p, Basename(p), "labels.txt");
      }
    }
  }

  /** Text found in a suffix is found in the whole string. */
  lemma ContainsInSuffix(s: string, suffix: string, pat: string)
    requires EndsWith(s, suffix) && Contains(suffix, pat)
    ensures Contains(s, pat)
  {
    ContainsIffOccurs(suffix, pat);
    var i :| OccursAt(suffix, pat, i);
    var d := |s| - |suffix|;
    assert s[d..] == suffix;
    assert s[d + i..d + i + |pat|] == suffix[i..i + |pat|];
    assert OccursAt(s, pat, d + i);
    ContainsIffOccurs(s, pat);
  }

  /** Sequence 2's names, sorted, and the split point `len // 2`. */
  function TrainHalf(names: seq<string>): seq<string> {
    var sorted := Sort(names);
    sorted[..|sorted| / 2]
  }

  function ValHalf(names: seq<string>): seq<string> {
    var sorted := Sort(names);
    sorted[|sorted| / 2..]
  }

  /**
   * The split: train then val is the sorted list; train has `n // 2` names and val
   * the same number or one more; each half is sorted and no train name sorts after a
   * val name.
   */
  lemma SplitHalves(names: seq<string>)
    ensures TrainHalf(names) + ValHalf(names) == Sort(names)
    ensures |TrainHalf(names)| == |names| / 2
    ensures |ValHalf(names)| - |TrainHalf(names)| in {0, 1}
    ensures multiset(TrainHalf(names)) + multiset(ValHalf(names)) == multiset(names)
    ensures Sorted(TrainHalf(names)) && Sorted(ValHalf(names))
    ensures forall a, b :: a in TrainHalf(names) && b in ValHalf(names) ==> LessEq(a, b)
  {
    var sorted := Sort(names);
    SortKeepsLength(names);
    SlicesOfSorted(sorted, |sorted| / 2);
    assert multiset(sorted[..|sorted| / 2] + sorted[|sorted| / 2..]) == multiset(names);
  }

  lemma SortKeepsLength(names: seq<string>)
    ensures |Sort(names)| == |names|
  {
    var sorted := Sort(names);
    assert |sorted| == |multiset(sorted)| == |multiset(names)| == |names|;
  }

  /** Cutting a sorted list gives two sorted parts, every name of the first no greater than any of the second. */
  lemma SlicesOfSorted(sorted: seq<string>, h: nat)
    requires Sorted(sorted) && h <= |sorted|
    ensures sorted[..h] + sorted[h..] == sorted
    ensures Sorted(sorted[..h]) && Sorted(sorted[h..])
    ensures forall a, b :: a in sorted[..h] && b in sorted[h..] ==> LessEq(a, b)
  {
    assert sorted[..h] + sorted[h..] == sorted;
    forall a, b | a in sorted[..h] && b in sorted[h..] ensures LessEq(a, b) {
      var i :| 0 <= i < h && sorted[..h][i] == a;
      var j :| 0 <= j < |sorted| - h && sorted[h..][j] == b;
      assert sorted[i] == a && sorted[h + j] == b;
    }
    forall i, j | 0 <= i < j < |sorted| - h ensures LessEq(sorted[h..][i], sorted[h..][j]) {
      assert sorted[h..][i] == sorted[h + i] && sorted[h..][j] == sorted[h + j];
    }
  }

  predicate Distinct(s: seq<string>) {
    forall i, j :: 0 <= i < j < |s| ==> s[i] != s[j]
  }

  /** With unique file names, no name goes to both train and val. */
  lemma SplitDisjoint(names: seq<string>)
    requires Distinct(names)
    ensures forall n :: n in TrainHalf(names) ==> n !in ValHalf(names)
  {
    var sorted := Sort(names);
    var h := |sorted| / 2;
    DistinctCountsAtMostOne(names);
    CountsAtMostOneDistinct(sorted);
    forall n | n in TrainHalf(names) ensures n !in ValHalf(names) {
      var i :| 0 <= i < h && sorted[..h][i] == n;
      forall j | 0 <= j < |sorted| - h ensures sorted[h..][j] != n {
        assert sorted[h..][j] == sorted[h + j] && sorted[i] == n;
      }
    }
  }

  lemma {:induction false} DistinctCountsAtMostOne(s: seq<string>)
    requires Distinct(s)
    ensures forall x :: multiset(s)[x] <= 1
    decreases |s|
  {
    if |s| > 0 {
      var init := s[..|s| - 1];
      DistinctCountsAtMostOne(init);
      assert s == init + [s[|s| - 1]];
      forall i | 0 <= i < |init| ensures init[i] != s[|s| - 1] {
        assert init[i] == s[i];
      }
      assert s[|s| - 1] !in init;
    }
  }

  lemma CountsAtMostOneDistinct(s: seq<string>)
    requires forall x :: multiset(s)[x] <= 1
    ensures Distinct(s)
  {
    forall i, j | 0 <= i < j < |s| ensures s[i] != s[j] {
      assert s == s[..j] + s[j..];
      assert s[..j][i] == s[i] && s[j..][0] == s[j];
      assert multiset(s[..j])[s[i]] >= 1 && multiset(s[j..])[s[j]] >= 1;
      assert multiset(s)[s[i]] == multiset(s[..j])[s[i]] + multiset(s[j..])[s[i]];
    }
  }

  /** The directories `config` names. */
  datatype Config = Config(trainSrc1: string, trainSrc2: string, testSrc: string,
                           trainImages: string, trainLabels: string,
                           valImages: string, valLabels: string,
                           testImages: string, testLabels: string)

  /** Each sequence keeps its frames in `img1` and its YOLO labels in `labels`. */
  function ImageDir(src: string): string { PathJoin(src, "img1") }
  function LabelDir(src: string): string { PathJoin(src, "labels") }

  /** The four `copy_files` calls, in order: sequence 1, sequence 2's two halves, sequence 3. */
  function Jobs(cfg: Config): seq<CopyJob> {
    [ CopyJob(ImageDir(cfg.trainSrc1), LabelDir(cfg.trainSrc1), cfg.trainImages, cfg.trainLabels, "1"),
      CopyJob(ImageDir(cfg.trainSrc2), LabelDir(cfg.trainSrc2), cfg.trainImages, cfg.trainLabels, "2"),
      CopyJob(ImageDir(cfg.trainSrc2), LabelDir(cfg.trainSrc2), cfg.valImages, cfg.valLabels, "2"),
      CopyJob(ImageDir(cfg.testSrc), LabelDir(cfg.testSrc), cfg.testImages, cfg.testLabels, "3") ]
  }

  /** The names each call copies; `listing1`..`listing3` list the three label directories. */
  function JobNames(cfg: Config, listing1: seq<string>, listing2: seq<string>, listing3: seq<string>): seq<seq<string>> {
    var names2 := LabelFiles(LabelDir(cfg.trainSrc2), listing2);
    [ LabelFiles(LabelDir(cfg.trainSrc1), listing1), TrainHalf(names2), ValHalf(names2),
      LabelFiles(LabelDir(cfg.testSrc), listing3) ]
  }

  /** The disk after the first `k` copy calls. */
  function Prepared(files: map<string, Content>, jobs: seq<CopyJob>, names: seq<seq<string>>, k: nat): map<string, Content>
    requires k <= |jobs| == |names|
  {
    if k == 0 then files else CopyAll(Prepared(files, jobs, names, k - 1), jobs[k - 1], names[k - 1])
  }

  /**
   * `prepare_datasets` after the clean-up: the four copies, in order. Sequence 1 and
   * the sorted first half of sequence 2 land in train, the second half in val, and
   * sequence 3 in test.
   */
  method PrepareDatasets(cfg: Config, listing1: seq<string>, listing2: seq<string>, listing3: seq<string>, disk: Disk)
    modifies disk
    ensures disk.files == Prepared(old(disk.files), Jobs(cfg), JobNames(cfg, listing1, listing2, listing3), 4)
  {
    ghost var jobs, names := Jobs(cfg), JobNames(cfg, listing1, listing2, listing3);
    ghost var start := disk.files;
    var imgDir1 := PathJoin(cfg.trainSrc1, "img1");
    var lblDir1 := PathJoin(cfg.trainSrc1, "labels");
    var labelFiles1 := LabelFiles(lblDir1, listing1);
    CopyFiles(imgDir1, lblDir1, cfg.trainImages, cfg.trainLabels, labelFiles1, "1", disk);
    PreparedStep(start, jobs, names, 0);

    var imgDir2 := PathJoin(cfg.trainSrc2, "img1");
    var lblDir2 := PathJoin(cfg.trainSrc2, "labels");
    var labelFiles2 := Sort(LabelFiles(lblDir2, listing2));
    var splitIdx := |labelFiles2| / 2;
    var trainFiles2 := labelFiles2[..splitIdx];
    var valFiles2 := labelFiles2[splitIdx..];
    assert trainFiles2 == names[1] && valFiles2 == names[2];
    CopyFiles(imgDir2, lblDir2, cfg.trainImages, cfg.trainLabels, trainFiles2, "2", disk);
    PreparedStep(start, jobs, names, 1);
    CopyFiles(imgDir2, lblDir2, cfg.valImages, cfg.valLabels, valFiles2, "2", disk);
    PreparedStep(start, jobs, names, 2);

    var imgDir3 := PathJoin(cfg.testSrc, "img1");
    var lblDir3 := PathJoin(cfg.testSrc, "labels");
    var labelFiles3 := LabelFiles(lblDir3, listing3);
    CopyFiles(imgDir3, lblDir3, cfg.testImages, cfg.testLabels, labelFiles3, "3", disk);
    PreparedStep(start, jobs, names, 3);
  }

  /** Call `k + 1` copies its names into the disk left by the first `k` calls. */
  lemma PreparedStep(files: map<string, Content>, jobs: seq<CopyJob>, names: seq<seq<string>>, k: nat)
    requires k < |jobs| == |names|
    ensures Prepared(files, jobs, names, k + 1) == CopyAll(Prepared(files, jobs, names, k), jobs[k], names[k])
  {
  }

  /**
   * The prefixes keep sequences apart: plain label names from two sequences with
   * different prefixes never share a destination in the same directory.
   */
  lemma PrefixesKeepSequencesApart(job1: CopyJob, job2: CopyJob, a: string, b: string)
    requires job1.dstLabels == job2.dstLabels && job1.dstImages == job2.dstImages
    requires |job1.prefix| == |job2.prefix| && job1.prefix != job2.prefix
    requires '/' !in job1.prefix && '/' !in job2.prefix && '/' !in a && '/' !in b
    ensures LabelTarget(job1, a) != LabelTarget(job2, b)
    ensures ImageTarget(job1, a) != ImageTarget(job2, b)
  {
    ImageNameKeepsSlashOut(a);
    ImageNameKeepsSlashOut(b);
    PrefixedNamesDiffer(job1.dstLabels, job1.prefix, job2.prefix, a, b);
    PrefixedNamesDiffer(job1.dstImages, job1.prefix, job2.prefix, ImageName(a), ImageName(b));
  }

  lemma PrefixedNamesDiffer(dir: string, p: string, q: string, a: string, b: string)
    requires |p| == |q| && p != q && '/' !in p && '/' !in q && '/' !in a && '/' !in b
    ensures PathJoin(dir, p + "_" + a) != PathJoin(dir, q + "_" + b)
  {
    var na, nb := p + "_" + a, q + "_" + b;
    assert '/' !in na && '/' !in nb;
    BasenameOfJoin(dir, na);
    BasenameOfJoin(dir, nb);
    assert na[..|p|] == p && nb[..|q|] == q;
  }

  /** Train receives sequence 1 under "1_" and sequence 2's first half under "2_": no file of one overwrites the other. */
  lemma TrainSequencesApart(cfg: Config, a: string, b: string)
    requires '/' !in a && '/' !in b
    ensures LabelTarget(Jobs(cfg)[0], a) != LabelTarget(Jobs(cfg)[1], b)
    ensures ImageTarget(Jobs(cfg)[0], a) != ImageTarget(Jobs(cfg)[1], b)
  {
    PrefixesKeepSequencesApart(Jobs(cfg)[0], Jobs(cfg)[1], a, b);
  }
}
