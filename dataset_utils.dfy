/**
 * `dataset_utils`: copying image/label pairs into one part of a dataset under a
 * prefixed name, and loading a directory's frames in sorted order. The file system
 * is a `Disk`; a directory's listing and the image decoder are parameters.
 */
module DatasetUtils {
  import opened Wrappers
  import opened Strings
  import opened Paths
  import opened Ordering
  import opened FileStore

  /** `filename.replace(".txt", ".jpg")`: the image that goes with a label file. */
  function ImageName(name: string): string {
    ReplaceAll(name, ".txt", ".jpg")
  }

  /** A label file `<stem>.txt` whose stem has no dot goes with the image `<stem>.jpg`. */
  lemma ImageNameOfLabel(stem: string)
    requires '.' !in stem
    ensures ImageName(stem + ".txt") == stem + ".jpg"
  {
    var s := stem + ".txt";
    forall i | 0 <= i < |stem| ensures !OccursAt(s, ".txt", i) {
      assert s[i] == stem[i];
      assert s[i..i + 4][0] == s[i];
    }
    ReplaceLast(stem, ".txt", ".jpg");
  }

  /** Replacing ".txt" by ".jpg" never introduces a '/'. */
  lemma ImageNameKeepsSlashOut(name: string)
    requires '/' !in name
    ensures '/' !in ImageName(name)
  {
    ReplaceKeepsCharOut(name, ".txt", ".jpg", '/');
  }

  lemma {:induction false} ReplaceKeepsCharOut(s: string, pat: string, rep: string, c: char)
    requires |pat| > 0 && c !in s && c !in rep
    ensures c !in ReplaceAll(s, pat, rep)
    decreases |s|
  {
    if StartsWith(s, pat) {
      assert forall k :: |pat| <= k < |s| ==> s[|pat|..][k - |pat|] == s[k];
      ReplaceKeepsCharOut(s[|pat|..], pat, rep, c);
    } else if |s| > 0 {
      assert forall k :: 1 <= k < |s| ==> s[1..][k - 1] == s[k];
      ReplaceKeepsCharOut(s[1..], pat, rep, c);
    }
  }

  /** The arguments of one `copy_files` call other than the file names. */
  datatype CopyJob = CopyJob(srcImages: string, srcLabels: string, dstImages: string, dstLabels: string,
                             prefix: string)

  function ImageSource(job: CopyJob, name: string): string {
    PathJoin(job.srcImages, ImageName(name))
  }

  function LabelSource(job: CopyJob, name: string): string {
    PathJoin(job.srcLabels, name)
  }

  /** `f"{prefix}_{filename.replace('.txt', '.jpg')}"` in the destination image directory. */
  function ImageTarget(job: CopyJob, name: string): string {
    PathJoin(job.dstImages, job.prefix + "_" + ImageName(name))
  }

  /** `f"{prefix}_{filename}"` in the destination label directory. */
  function LabelTarget(job: CopyJob, name: string): string {
    PathJoin(job.dstLabels, job.prefix + "_" + name)
  }

  /**
   * One pass of the copy loop: when both the image and the label exist, the image is
   * copied and then the label (read from the disk as the first copy left it);
   * otherwise the pair is skipped.
   */
  function CopyPair(files: map<string, Content>, job: CopyJob, name: string): map<string, Content> {
    var img, lbl := ImageSource(job, name), LabelSource(job, name);
    if img in files && lbl in files then
      var afterImage := files[ImageTarget(job, name) := files[img]];
      afterImage[LabelTarget(job, name) := afterImage[lbl]]
    else files
  }

  /** The disk after the copy loop has handled `names`, in order. */
  function CopyAll(files: map<string, Content>, job: CopyJob, names: seq<string>): map<string, Content> {
    if |names| == 0 then files
    else CopyPair(CopyAll(files, job, names[..|names| - 1]), job, names[|names| - 1])
  }

  /** `copy_files`: the loop over the file names with its existence gate. */
  method CopyFiles(srcImgDir: string, srcLblDir: string, dstImgDir: string, dstLblDir: string,
                   filenames: seq<string>, prefix: string, disk: Disk)
    modifies disk
    ensures disk.files == CopyAll(old(disk.files), CopyJob(srcImgDir, srcLblDir, dstImgDir, dstLblDir, prefix), filenames)
  {
    ghost var job := CopyJob(srcImgDir, srcLblDir, dstImgDir, dstLblDir, prefix);
    for i := 0 to |filenames|
      invariant disk.files == CopyAll(old(disk.files), job, filenames[..i])
    {
      assert filenames[..i + 1][..i] == filenames[..i];
      ghost var before := disk.files;
      var filename := filenames[i];
      var imgFile := PathJoin(srcImgDir, ImageName(filename));
      var lblFile := PathJoin(srcLblDir, filename);
      assert imgFile == ImageSource(job, filename) && lblFile == LabelSource(job, filename);
      if imgFile in disk.files && lblFile in disk.files {
        var imgDst := PathJoin(dstImgDir, prefix + "_" + ImageName(filename));
        var lblDst := PathJoin(dstLblDir, prefix + "_" + filename);
        assert imgDst == ImageTarget(job, filename) && lblDst == LabelTarget(job, filename);
        disk.files := disk.files[imgDst := disk.files[imgFile]];
        disk.files := disk.files[lblDst := disk.files[lblFile]];
      }
      assert disk.files == CopyPair(before, job, filename);
    }
    assert filenames[..|filenames|] == filenames;
  }

  /** Copying never removes a file. */
  lemma {:induction false} CopyAllKeepsFiles(files: map<string, Content>, job: CopyJob, names: seq<string>)
    ensures files.Keys <= CopyAll(files, job, names).Keys
    decreases |names|
  {
    if |names| > 0 {
      CopyAllKeepsFiles(files, job, names[..|names| - 1]);
    }
  }

  /** A path that is no name's destination is left exactly as it was. */
  lemma {:induction false} CopyAllKeepsOthers(files: map<string, Content>, job: CopyJob, names: seq<string>, p: string)
    requires forall n :: n in names ==> p != ImageTarget(job, n) && p != LabelTarget(job, n)
    ensures var w := CopyAll(files, job, names);
      (p in w <==> p in files) && (p in files ==> w[p] == files[p])
    decreases |names|
  {
    if |names| > 0 {
      CopyAllKeepsOthers(files, job, names[..|names| - 1], p);
    }
  }

  /** The two files a name is copied to, and the two it is copied from. */
  function Targets(job: CopyJob, name: string): set<string> {
    {ImageTarget(job, name), LabelTarget(job, name)}
  }

  function Sources(job: CopyJob, name: string): set<string> {
    {ImageSource(job, name), LabelSource(job, name)}
  }

  /**
   * The names' copies do not interfere: no destination is a source, distinct list
   * positions have distinct destinations, and a name's image and label go to two paths.
   */
  predicate Separated(job: CopyJob, names: seq<string>) {
    && (forall i, j :: 0 <= i < |names| && 0 <= j < |names| ==> Targets(job, names[i]) !! Sources(job, names[j]))
    && (forall i, j :: 0 <= i < j < |names| ==> Targets(job, names[i]) !! Targets(job, names[j]))
    && (forall i :: 0 <= i < |names| ==> ImageTarget(job, names[i]) != LabelTarget(job, names[i]))
  }

  /** What the copy loop promises for one name, judged against the disk before the loop. */
  predicate CopiedAsPromised(files: map<string, Content>, w: map<string, Content>, job: CopyJob, name: string) {
    var img, lbl := ImageSource(job, name), LabelSource(job, name);
    var imgDst, lblDst := ImageTarget(job, name), LabelTarget(job, name);
    if img in files && lbl in files then
      && imgDst in w && w[imgDst] == files[img]
      && lblDst in w && w[lblDst] == files[lbl]
    else
      && (imgDst in w <==> imgDst in files) && (imgDst in files ==> w[imgDst] == files[imgDst])
      && (lblDst in w <==> lblDst in files) && (lblDst in files ==> w[lblDst] == files[lblDst])
  }

  /**
   * With separated copies, every name ends with both files copied under their prefixed
   * names exactly when its image and its label both existed, and otherwise its
   * destinations are untouched.
   */
  lemma {:induction false} CopyAllEffect(files: map<string, Content>, job: CopyJob, names: seq<string>)
    requires Separated(job, names)
    ensures forall k :: 0 <= k < |names| ==> CopiedAsPromised(files, CopyAll(files, job, names), job, names[k])
    decreases |names|
  {
    if |names| > 0 {
      var init := names[..|names| - 1];
      var last := names[|names| - 1];
      assert Separated(job, init);
      CopyAllEffect(files, job, init);
      var w := CopyAll(files, job, init);
      forall src | src in Sources(job, last) ensures (src in w <==> src in files) && (src in files ==> w[src] == files[src]) {
        forall n | n in init ensures src != ImageTarget(job, n) && src != LabelTarget(job, n) {
          var i :| 0 <= i < |init| && init[i] == n;
          assert Targets(job, names[i]) !! Sources(job, names[|names| - 1]);
        }
        CopyAllKeepsOthers(files, job, init, src);
      }
      forall t | t in Targets(job, last) ensures (t in w <==> t in files) && (t in files ==> w[t] == files[t]) {
        forall n | n in init ensures t != ImageTarget(job, n) && t != LabelTarget(job, n) {
          var i :| 0 <= i < |init| && init[i] == n;
          assert Targets(job, names[i]) !! Targets(job, names[|names| - 1]);
        }
        CopyAllKeepsOthers(files, job, init, t);
      }
      forall k | 0 <= k < |names| ensures CopiedAsPromised(files, CopyAll(files, job, names), job, names[k]) {
        if k < |init| {
          assert CopiedAsPromised(files, w, job, init[k]);
          assert Targets(job, names[k]) !! Targets(job, names[|names| - 1]);
          CopyPairKeepsOthers(w, job, last, Targets(job, names[k]));
        } else {
          CopyPairCopies(files, w, job, last);
        }
      }
    }
  }

  lemma CopyPairKeepsOthers(w: map<string, Content>, job: CopyJob, name: string, ps: set<string>)
    requires ps !! Targets(job, name)
    ensures forall p :: p in ps ==>
      var w' := CopyPair(w, job, name); (p in w' <==> p in w) && (p in w ==> w'[p] == w[p])
  {
  }

  lemma CopyPairCopies(files: map<string, Content>, w: map<string, Content>, job: CopyJob, name: string)
    requires Targets(job, name) !! Sources(job, name)
    requires ImageTarget(job, name) != LabelTarget(job, name)
    requires forall src :: src in Sources(job, name) ==> (src in w <==> src in files) && (src in files ==> w[src] == files[src])
    requires forall t :: t in Targets(job, name) ==> (t in w <==> t in files) && (t in files ==> w[t] == files[t])
    ensures CopiedAsPromised(files, CopyPair(w, job, name), job, name)
  {
    assert ImageSource(job, name) in Sources(job, name) && LabelSource(job, name) in Sources(job, name);
    assert ImageTarget(job, name) in Targets(job, name) && LabelTarget(job, name) in Targets(job, name);
  }

  /** Distinct plain label names never share a destination label file. */
  lemma LabelTargetsDistinct(job: CopyJob, a: string, b: string)
    requires '/' !in job.prefix && '/' !in a && '/' !in b
    requires LabelTarget(job, a) == LabelTarget(job, b)
    ensures a == b
  {
    var na, nb := job.prefix + "_" + a, job.prefix + "_" + b;
    assert '/' !in na && '/' !in nb;
    BasenameOfJoin(job.dstLabels, na);
    BasenameOfJoin(job.dstLabels, nb);
    assert a == na[|job.prefix| + 1..] && b == nb[|job.prefix| + 1..];
  }

  /** `f.lower().endswith(('.jpg', '.jpeg', '.png'))`. */
  predicate IsImageFile(name: string) {
    var lower := LowerAscii(name);
    EndsWith(lower, ".jpg") || EndsWith(lower, ".jpeg") || EndsWith(lower, ".png")
  }

  /** The generator `load_frames` sorts: the joined paths of listed image files that exist as files. */
  function ListedImages(dir: string, listing: seq<string>, files: map<string, Content>): seq<string> {
    if |listing| == 0 then []
    else
      var f := listing[|listing| - 1];
      ListedImages(dir, listing[..|listing| - 1], files)
        + (if PathJoin(dir, f) in files && IsImageFile(f) then [PathJoin(dir, f)] else [])
  }

  /** Every listed path joins the directory with a listed image file that exists. */
  lemma {:induction false} ListedImagesSound(dir: string, listing: seq<string>, files: map<string, Content>, p: string)
    requires p in ListedImages(dir, listing, files)
    ensures exists f :: f in listing && p == PathJoin(dir, f) && p in files && IsImageFile(f)
    decreases |listing|
  {
    var init := listing[..|listing| - 1];
    var f := listing[|listing| - 1];
    if p in ListedImages(dir, init, files) {
      ListedImagesSound(dir, init, files, p);
      var g :| g in init && p == PathJoin(dir, g) && p in files && IsImageFile(g);
      assert g in listing;
    } else {
      assert f in listing;
    }
  }

  /** Every listed image file that exists is listed under its joined path. */
  lemma {:induction false} ListedImagesComplete(dir: string, listing: seq<string>, files: map<string, Content>, f: string)
    requires f in listing && PathJoin(dir, f) in files && IsImageFile(f)
    ensures PathJoin(dir, f) in ListedImages(dir, listing, files)
    decreases |listing|
  {
    var init := listing[..|listing| - 1];
    if f != listing[|listing| - 1] {
      var k :| 0 <= k < |listing| && listing[k] == f;
      assert init[k] == f;
      ListedImagesComplete(dir, init, files, f);
    }
  }

  /** The frames decoded from `paths`, in order, leaving out every image that cannot be read. */
  function ReadFrames<Image>(paths: seq<string>, files: map<string, Content>, decode: Content -> Option<Image>): seq<Image>
    requires forall p :: p in paths ==> p in files
  {
    if |paths| == 0 then []
    else
      var img := decode(files[paths[|paths| - 1]]);
      ReadFrames(paths[..|paths| - 1], files, decode) + (if img.Some? then [img.value] else [])
  }

  /**
   * `load_frames`: the sorted image paths of `inputDir` (whose listing is `listing`)
   * and the frames read from them; an unreadable image is skipped but keeps its path.
   */
  method LoadFrames<Image>(inputDir: string, listing: seq<string>, disk: Disk, decode: Content -> Option<Image>)
    returns (frames: seq<Image>, imageFiles: seq<string>)
    ensures imageFiles == Sort(ListedImages(inputDir, listing, disk.files))
    ensures forall p :: p in imageFiles ==> p in disk.files
    ensures frames == ReadFrames(imageFiles, disk.files, decode)
  {
    imageFiles := Sort(ListedImages(inputDir, listing, disk.files));
    ImageFilesSortedAndListed(inputDir, listing, disk.files);
    frames := [];
    for i := 0 to |imageFiles|
      invariant frames == ReadFrames(imageFiles[..i], disk.files, decode)
    {
      assert imageFiles[..i + 1][..i] == imageFiles[..i];
      var img := decode(disk.files[imageFiles[i]]);
      if img.None? {
        continue;
      }
      frames := frames + [img.value];
    }
    assert imageFiles[..|imageFiles|] == imageFiles;
  }

  /** The image paths come back in ascending order, each an existing listed image file. */
  lemma ImageFilesSortedAndListed(dir: string, listing: seq<string>, files: map<string, Content>)
    ensures var paths := Sort(ListedImages(dir, listing, files));
      && Sorted(paths)
      && forall p :: p in paths <==> exists f :: f in listing && p == PathJoin(dir, f) && p in files && IsImageFile(f)
  {
    var paths := Sort(ListedImages(dir, listing, files));
    forall p ensures p in paths <==> exists f :: f in listing && p == PathJoin(dir, f) && p in files && IsImageFile(f) {
      assert p in paths <==> p in multiset(paths);
      assert p in ListedImages(dir, listing, files) <==> p in multiset(ListedImages(dir, listing, files));
      if p in ListedImages(dir, listing, files) {
        ListedImagesSound(dir, listing, files, p);
      }
      if exists f :: f in listing && p == PathJoin(dir, f) && p in files && IsImageFile(f) {
        var f :| f in listing && p == PathJoin(dir, f) && p in files && IsImageFile(f);
        ListedImagesComplete(dir, listing, files, f);
      }
    }
  }

  /** There are never more frames than paths: a skipped image drops out of `frames` only. */
  lemma {:induction false} FramesAtMostPaths<Image>(paths: seq<string>, files: map<string, Content>,
                                                     decode: Content -> Option<Image>)
    requires forall p :: p in paths ==> p in files
    ensures |ReadFrames(paths, files, decode)| <= |paths|
    ensures |ReadFrames(paths, files, decode)| == |paths| <==> forall p :: p in paths ==> decode(files[p]).Some?
    decreases |paths|
  {
    if |paths| > 0 {
      var init := paths[..|paths| - 1];
      FramesAtMostPaths(init, files, decode);
      assert forall p :: p in paths <==> p in init || p == paths[|paths| - 1];
    }
  }

  /** When every image can be read, frame `i` is the image at path `i`. */
  lemma {:induction false} FramesAlignWithPaths<Image>(paths: seq<string>, files: map<string, Content>,
                                                        decode: Content -> Option<Image>)
    requires forall p :: p in paths ==> p in files && decode(files[p]).Some?
    ensures var frames := ReadFrames(paths, files, decode);
      |frames| == |paths| && forall i :: 0 <= i < |paths| ==> frames[i] == decode(files[paths[i]]).value
    decreases |paths|
  {
    if |paths| > 0 {
      var init := paths[..|paths| - 1];
      FramesAlignWithPaths(init, files, decode);
      var frames := ReadFrames(paths, files, decode);
      forall i | 0 <= i < |init| ensures frames[i] == decode(files[paths[i]]).value {
        assert paths[i] == init[i];
      }
    }
  }
}
