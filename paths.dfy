/** POSIX `os.path.join` and `os.path.basename`. */
module Paths {
  import opened Strings

  /** `os.path.join(dir, name)`: an absolute `name` replaces `dir`; otherwise one `/` between them. */
  function PathJoin(dir: string, name: string): (r: string)
    ensures !StartsWith(name, "/") ==> EndsWith(r, name)
  {
    if StartsWith(name, "/") then name
    else if |dir| == 0 || dir[|dir| - 1] == '/' then dir + name
    else dir + "/" + name
  }

  /** `os.path.basename(path)`: everything after the last `/`. */
  function Basename(path: string): (r: string)
    ensures '/' !in r
    ensures EndsWith(path, r)
    ensures |r| < |path| ==> path[|path| - |r| - 1] == '/'
    decreases |path|
  {
    if |path| == 0 then ""
    else if path[|path| - 1] == '/' then ""
    else
      var r := Basename(path[..|path| - 1]) + [path[|path| - 1]];
      assert path[..|path| - 1][|path| - |r|..] + [path[|path| - 1]] == path[|path| - |r|..];
      r
  }

  /** The base name of a path built by joining a directory and a plain file name is that name. */
  lemma {:induction false} BasenameOfJoin(dir: string, name: string)
    requires '/' !in name
    ensures Basename(PathJoin(dir, name)) == name
  {
    var p := PathJoin(dir, name);
    assert !StartsWith(name, "/") by {
      if |name| > 0 { assert name[0] in name; }
    }
    assert |p| > |name| ==> p[|p| - |name| - 1] == '/';
    BasenameOfSlashSuffix(p, name);
  }

  lemma {:induction false} BasenameOfSlashSuffix(p: string, name: string)
    requires '/' !in name && EndsWith(p, name)
    requires |p| > |name| ==> p[|p| - |name| - 1] == '/'
    ensures Basename(p) == name
    decreases |name|
  {
    if |name| > 0 {
      var last := name[|name| - 1];
      var init := name[..|name| - 1];
      assert p[|p| - 1] == last;
      assert last in name;
      var q := p[..|p| - 1];
      assert q[|q| - |init|..] == init;
      forall k | 0 <= k < |init| ensures init[k] != '/' {
        assert init[k] == name[k];
        assert name[k] in name;
      }
      BasenameOfSlashSuffix(q, init);
      assert Basename(p) == Basename(q) + [last];
      assert init + [last] == name;
    } else if |p| > 0 {
      assert p[|p| - 1] == '/';
    }
  }
}
