/** The parts of Python's `os.path` (POSIX) that the apps use on file names. */
module PathUtil {
  import opened Common

  /** `p.rfind(c)`: the last index of `c` in `p`, or -1. */
  function LastIndex(p: string, c: char): (k: int)
    ensures -1 <= k < |p|
    ensures k >= 0 ==> p[k] == c
    ensures forall i :: k < i < |p| ==> p[i] != c
  {
    if p == [] then -1
    else if p[|p| - 1] == c then |p| - 1
    else LastIndex(p[..|p| - 1], c)
  }

  /** `os.path.basename(p)`: what follows the last `/`. */
  function Basename(p: string): (b: string)
    ensures '/' !in b && EndsWith(p, b)
    ensures |b| == |p| || p[|p| - |b| - 1] == '/'
    ensures '/' !in p ==> b == p
  {
    var k := LastIndex(p, '/');
    assert p[|p| - |p[k + 1..]|..] == p[k + 1..];
    p[k + 1..]
  }

  /** True when `p[lo..hi]` holds a character other than `.`. */
  predicate HasNonDot(p: string, lo: int, hi: int)
    requires 0 <= lo && hi <= |p|
  {
    exists i :: lo <= i < hi && p[i] != '.'
  }

  /**
   * `os.path.splitext(p)`: split at the last `.` of the last path component, unless every
   * character before that dot in the component is a dot (so `.json` has no extension).
   */
  function SplitExt(p: string): (parts: (string, string))
    ensures parts.0 + parts.1 == p
    ensures parts.1 == "" || (parts.1[0] == '.' && '.' !in parts.1[1..] && '/' !in parts.1)
  {
    var sep := LastIndex(p, '/');
    var dot := LastIndex(p, '.');
    if dot > sep && HasNonDot(p, sep + 1, dot) then
      assert forall i :: 0 <= i < |p[dot..]| ==> p[dot..][i] == p[dot + i];
      (p[..dot], p[dot..])
    else
      (p, "")
  }

  /** Characters without `c` appended after `p` do not move the last `c`. */
  lemma {:induction false} LastIndexAppend(p: string, q: string, c: char)
    requires c !in q
    ensures LastIndex(p + q, c) == LastIndex(p, c)
  {
    if q == [] {
      assert p + q == p;
    } else {
      var s := p + q;
      assert s[|s| - 1] == q[|q| - 1];
      assert s[..|s| - 1] == p + q[..|q| - 1];
      LastIndexAppend(p, q[..|q| - 1], c);
    }
  }

  /** The base name of a file inside a directory (or of a bare file name) is the file name. */
  lemma BasenameAfterDir(dir: string, file: string)
    requires dir == "" || dir[|dir| - 1] == '/'
    requires '/' !in file
    ensures Basename(dir + file) == file
  {
    LastIndexAppend(dir, file, '/');
    if dir == "" {
      assert dir + file == file;
    } else {
      assert (dir + file)[|dir|..] == file;
    }
  }

  /**
   * A file `<name>.<ext>`, in a directory or not, splits at the dot before `ext`, provided `name`
   * has a character other than a dot and `ext` has no dot.
   */
  lemma SplitExtOfName(dir: string, name: string, ext: string)
    requires dir == "" || dir[|dir| - 1] == '/'
    requires '/' !in name && HasNonDot(name, 0, |name|)
    requires '.' !in ext && '/' !in ext
    ensures SplitExt(dir + name + "." + ext) == (dir + name, "." + ext)
  {
    var base := dir + name;
    var p := dir + name + "." + ext;
    assert p == (base + ".") + ext;
    LastIndexAppend(base + ".", ext, '.');
    assert (base + ".")[|base|] == '.';
    assert LastIndex(p, '.') == |base|;
    var tail := name + "." + ext;
    assert p == dir + tail;
    assert '/' !in tail by {
      forall i | 0 <= i < |tail| ensures tail[i] != '/' {
        if i < |name| { assert tail[i] == name[i]; }
        else if i > |name| { assert tail[i] == ext[i - |name| - 1]; }
      }
    }
    LastIndexAppend(dir, tail, '/');
    var sep := LastIndex(p, '/');
    assert sep < |dir|;
    var i :| 0 <= i < |name| && name[i] != '.';
    assert p[|dir| + i] == name[i];
    assert HasNonDot(p, sep + 1, |base|);
    assert p[..|base|] == base;
    assert p[|base|..] == "." + ext;
  }

  /** `os.path.splitext(p)[0]`. */
  function Stem(p: string): string
  {
    SplitExt(p).0
  }

  /** A listing entry named `<name>.json` loses exactly its `.json`, unless `name` is only dots. */
  lemma StemOfJsonName(name: string)
    requires '/' !in name && HasNonDot(name, 0, |name|)
    ensures SplitExt(name + ".json") == (name, ".json")
    ensures Stem(name + ".json") == name
  {
    var f := name + ".json";
    assert '/' !in f;
    assert LastIndex(f, '/') == -1;
    assert f[|name|] == '.';
    assert LastIndex(f, '.') == |name|;
    var i :| 0 <= i < |name| && name[i] != '.';
    assert f[i] == name[i];
    assert f[..|name|] == name;
  }

  /** A file named exactly `.json` keeps its whole name as its stem. */
  lemma BareJsonKeepsName()
    ensures Stem(".json") == ".json"
  {
    var f := ".json";
    assert f[0] == '.' && f[1] == 'j' && f[2] == 's' && f[3] == 'o' && f[4] == 'n';
    assert LastIndex(f, '.') == 0;
    assert !HasNonDot(f, 0, 0);
  }

  /** `os.path.join(a, b)`: an absolute `b` replaces `a`; otherwise one `/` separates them. */
  function Join(a: string, b: string): (r: string)
    ensures StartsWith(b, "/") ==> r == b
    ensures !StartsWith(b, "/") ==> EndsWith(r, b) && StartsWith(r, a)
  {
    if StartsWith(b, "/") then b
    else if a == "" || EndsWith(a, "/") then
      assert (a + b)[..|a|] == a;
      assert (a + b)[|a + b| - |b|..] == b;
      a + b
    else
      assert (a + "/" + b)[..|a|] == a;
      assert (a + "/" + b)[|a + "/" + b| - |b|..] == b;
      a + "/" + b
  }

  /** Joining a relative name to a directory without a trailing `/` inserts one `/`. */
  lemma JoinRelative(a: string, b: string)
    requires a != "" && a[|a| - 1] != '/' && b != "" && b[0] != '/'
    ensures Join(a, b) == a + "/" + b
  {
    assert !StartsWith(b, "/") by { assert b[..1] == [b[0]]; }
    assert !EndsWith(a, "/") by { assert a[|a| - 1..] == [a[|a| - 1]]; }
  }

  /** Joining a relative name onto a relative directory gives `a/b/c`. */
  lemma JoinTwice(a: string, b: string, c: string)
    requires a != "" && a[|a| - 1] != '/'
    requires b != "" && b[0] != '/' && b[|b| - 1] != '/'
    requires c != "" && c[0] != '/'
    ensures Join(Join(a, b), c) == a + "/" + b + "/" + c
  {
    JoinRelative(a, b);
    var dir := a + "/" + b;
    assert dir[|dir| - 1] == b[|b| - 1];
    JoinRelative(dir, c);
  }
}
