/**
 * POSIX path manipulation as the core uses it (Python's posixpath): split,
 * dirname, basename, splitext and two-argument join on '/'-separated strings.
 * Paths are compared as strings; nothing here touches a filesystem.
 */
module Paths {

  type Path = string

  /** `s.startswith(prefix)` */
  predicate StartsWith(s: string, prefix: string) {
    prefix <= s
  }

  predicate EndsWithChar(s: string, c: char) {
    |s| > 0 && s[|s| - 1] == c
  }

  predicate IsAbsolute(p: Path) {
    StartsWith(p, "/")
  }

  predicate AllChar(s: string, c: char) {
    forall k :: 0 <= k < |s| ==> s[k] == c
  }

  /** `needle in haystack` for strings: `needle` occurs somewhere in `haystack`. */
  predicate Contains(haystack: string, needle: string)
    decreases |haystack|
  {
    StartsWith(haystack, needle) || (|haystack| > 0 && Contains(haystack[1..], needle))
  }

  /** `s.rfind(c)`: the index of the last `c` in `s`, or -1 when there is none. */
  function RFind(s: string, c: char): (r: int)
    ensures -1 <= r < |s|
    ensures r >= 0 ==> s[r] == c
    ensures forall k :: r < k < |s| ==> s[k] != c
  {
    if |s| == 0 then -1
    else if s[|s| - 1] == c then |s| - 1
    else RFind(s[..|s| - 1], c)
  }

  /** `s.rstrip(c)` for a single character. */
  function RStrip(s: string, c: char): (r: string)
    ensures StartsWith(s, r)
    ensures !EndsWithChar(r, c)
    ensures forall k :: |r| <= k < |s| ==> s[k] == c
  {
    if EndsWithChar(s, c) then RStrip(s[..|s| - 1], c) else s
  }

  /**
   * `os.path.split(p)`: the tail is everything after the last '/', the head
   * everything up to it with trailing slashes removed, unless the head
   * consists of slashes only (then it is kept as it is, e.g. "/" or "//").
   */
  function Split(p: Path): (r: (Path, Path))
    ensures '/' !in r.1
    ensures |r.0| + |r.1| <= |p|
    ensures StartsWith(p, r.0) && p[|p| - |r.1|..] == r.1
    ensures forall k :: |r.0| <= k < |p| - |r.1| ==> p[k] == '/'
    ensures r.0 == "" || AllChar(r.0, '/') || !EndsWithChar(r.0, '/')
    ensures r.0 == "" <==> '/' !in p
  {
    var i := RFind(p, '/') + 1;
    var head, tail := p[..i], p[i..];
    assert '/' in p ==> p[i - 1] == '/';
    if head != "" && !AllChar(head, '/') then (RStrip(head, '/'), tail) else (head, tail)
  }

  /** `os.path.dirname(p)` */
  function Dirname(p: Path): Path {
    Split(p).0
  }

  /** `os.path.basename(p)` */
  function Basename(p: Path): Path {
    Split(p).1
  }

  /** True when some index in [lo, hi) of `p` holds a character other than '.'. */
  predicate HasNonDot(p: string, lo: int, hi: int)
    requires 0 <= lo <= hi <= |p|
  {
    exists k :: lo <= k < hi && p[k] != '.'
  }

  /**
   * `os.path.splitext(p)`: the extension starts at the last '.' of the last
   * path component, provided that component has something other than dots
   * before it (so ".bashrc" and "..." have no extension).
   */
  function SplitExt(p: Path): (r: (Path, string))
    ensures r.0 + r.1 == p
    ensures r.1 == "" || (r.1[0] == '.' && '/' !in r.1 && '.' !in r.1[1..])
  {
    var sep := RFind(p, '/');
    var dot := RFind(p, '.');
    if dot > sep && HasNonDot(p, sep + 1, dot) then (p[..dot], p[dot..]) else (p, "")
  }

  /**
   * `os.path.join(a, b)`: an absolute `b` replaces `a`; otherwise `b` is
   * appended, with a '/' in between unless `a` is empty or already ends in one.
   */
  function Join(a: Path, b: Path): (r: Path)
    ensures IsAbsolute(b) ==> r == b
    ensures !IsAbsolute(b) ==> |b| <= |r| <= |a| + 1 + |b|
    ensures !IsAbsolute(b) ==> StartsWith(r, a) && r[|r| - |b|..] == b
  {
    if IsAbsolute(b) then b
    else if a == "" || EndsWithChar(a, '/') then a + b
    else a + "/" + b
  }

  /** A relative part is appended after the first, with a '/' between them unless one is already there. */
  lemma JoinRelative(a: Path, b: Path)
    ensures !IsAbsolute(b) && (a == "" || EndsWithChar(a, '/')) ==> Join(a, b) == a + b
    ensures !IsAbsolute(b) && a != "" && !EndsWithChar(a, '/') ==> Join(a, b) == a + "/" + b
  {
  }

  lemma {:induction false} RFindAppend(p: string, s: string, c: char)
    requires c !in s
    ensures RFind(p + s, c) == RFind(p, c)
    decreases |s|
  {
    if s != [] {
      assert (p + s)[..|p + s| - 1] == p + s[..|s| - 1];
      RFindAppend(p, s[..|s| - 1], c);
    } else {
      assert p + s == p;
    }
  }

  /** Appending a slash-free suffix to a path appends it to the basename as well. */
  lemma BasenameAppend(p: Path, s: string)
    requires '/' !in s
    ensures Basename(p + s) == Basename(p) + s
  {
    RFindAppend(p, s, '/');
    var i := RFind(p, '/') + 1;
    SplitTail(p);
    SplitTail(p + s);
    assert (p + s)[i..] == p[i..] + s;
  }

  /** The tail of `os.path.split` is what follows the last '/'. */
  lemma SplitTail(p: Path)
    ensures Split(p).1 == p[RFind(p, '/') + 1..]
  {
    var i := RFind(p, '/') + 1;
    var head, tail := p[..i], p[i..];
    if head != "" && !AllChar(head, '/') {
      assert Split(p) == (RStrip(head, '/'), tail);
    } else {
      assert Split(p) == (head, tail);
    }
  }

  /** The basename of a join is the basename of its (non-empty) second part. */
  lemma BasenameJoin(a: Path, b: Path)
    requires b != ""
    ensures Basename(Join(a, b)) == Basename(b)
  {
    if !IsAbsolute(b) {
      var j := Join(a, b);
      var pre := j[..|j| - |b|];
      assert j == pre + b;
      if '/' in b {
        BasenameSuffix(pre, b);
      } else {
        BasenameAppend(pre, b);
        if a == "" || EndsWithChar(a, '/') {
          assert pre == a;
        } else {
          assert pre == a + "/";
        }
        BasenameOfSlashTerminated(pre);
      }
    }
  }

  /** When `b` holds a '/', the basename of `pre + b` is decided inside `b`. */
  lemma BasenameSuffix(pre: Path, b: Path)
    requires '/' in b
    ensures Basename(pre + b) == Basename(b)
  {
    var j := pre + b;
    var ib := RFind(b, '/');
    assert ib >= 0;
    assert j[|pre| + ib] == '/';
    forall k | |pre| + ib < k < |j| ensures j[k] != '/' {
      assert j[k] == b[k - |pre|];
    }
    RFindLast(j, '/', |pre| + ib);
    assert j[|pre| + ib + 1..] == b[ib + 1..];
  }

  /** A path without '/' is its own basename. */
  lemma BasenameOfPlainName(p: Path)
    requires '/' !in p
    ensures Basename(p) == p
  {
    RFindNone(p, '/');
    assert p[0..] == p;
  }

  lemma NoSlashConcat(a: string, b: string)
    requires '/' !in a && '/' !in b
    ensures '/' !in a + b
  {
    forall k | 0 <= k < |a + b| ensures (a + b)[k] != '/' {
      if k < |a| { assert (a + b)[k] == a[k]; } else { assert (a + b)[k] == b[k - |a|]; }
    }
  }

  /** The stem splitext leaves of a name without '/' has none either. */
  lemma StemHasNoSlash(name: Path)
    requires '/' !in name
    ensures '/' !in SplitExt(name).0
  {
    var stem := SplitExt(name).0;
    assert name == stem + SplitExt(name).1;
    forall k | 0 <= k < |stem| ensures stem[k] != '/' {
      assert stem[k] == name[k];
    }
  }

  lemma RFindNone(s: string, c: char)
    requires c !in s
    ensures RFind(s, c) == -1
  {
  }

  lemma RFindLast(s: string, c: char, i: int)
    requires 0 <= i < |s| && s[i] == c
    requires forall k :: i < k < |s| ==> s[k] != c
    ensures RFind(s, c) == i
  {
  }

  lemma BasenameOfSlashTerminated(p: Path)
    requires p == "" || EndsWithChar(p, '/')
    ensures Basename(p) == ""
  {
    if p != "" {
      RFindLast(p, '/', |p| - 1);
    }
  }

  /**
   * Joining a directory in `dirname` shape with a plain file name and splitting
   * the result gives the two parts back.
   */
  lemma SplitJoin(a: Path, b: Path)
    requires a != "" && (AllChar(a, '/') || !EndsWithChar(a, '/'))
    requires b != "" && '/' !in b
    ensures Split(Join(a, b)) == (a, b)
  {
    var j := Join(a, b);
    assert !IsAbsolute(b) by { assert b[0] != '/'; }
    if AllChar(a, '/') {
      assert j == a + b;
      RFindAppend(a, b, '/');
      RFindLast(a, '/', |a| - 1);
      assert j[..|a|] == a && j[|a|..] == b;
    } else {
      assert j == (a + "/") + b;
      RFindAppend(a + "/", b, '/');
      RFindLast(a + "/", '/', |a|);
      assert j[..|a| + 1] == a + "/" && j[|a| + 1..] == b;
      assert !AllChar(a + "/", '/') by {
        var k :| 0 <= k < |a| && a[k] != '/';
        assert (a + "/")[k] != '/';
      }
      assert (a + "/")[..|a|] == a;
      assert RStrip(a + "/", '/') == a;
    }
  }

  /** The basename of `dir + "/" + name` is `name` when `name` has no '/'. */
  lemma BasenameAfterSlash(dir: Path, name: string)
    requires '/' !in name
    ensures Basename(dir + "/" + name) == name
  {
    BasenameAppend(dir + "/", name);
    BasenameOfSlashTerminated(dir + "/");
  }

  /**
   * Where the last '/' of `p` sits at index `i` and is not part of a run of
   * slashes, dirname is everything before it and basename everything after.
   */
  lemma DirnameAt(p: Path, i: int)
    requires 0 < i < |p| && p[i] == '/' && p[i - 1] != '/'
    requires forall k :: i < k < |p| ==> p[k] != '/'
    ensures Dirname(p) == p[..i] && Basename(p) == p[i + 1..]
  {
    RFindLast(p, '/', i);
    var head := p[..i + 1];
    assert !AllChar(head, '/') by { assert head[i - 1] != '/'; }
    assert head[..|head| - 1] == p[..i];
    assert RStrip(head, '/') == RStrip(p[..i], '/') == p[..i];
  }

  lemma SplitExtOfSourceName()
    ensures SplitExt("foo.coffee") == ("foo", ".coffee")
  {
    var p := "foo.coffee";
    RFindNone(p, '/');
    RFindLast(p, '.', 3);
    assert p[0] != '.';
    assert p[..3] == "foo" && p[3..] == ".coffee";
  }

  /** A leading dot does not start an extension. */
  lemma SplitExtOfDotFile()
    ensures SplitExt(".bashrc") == (".bashrc", "")
  {
    RFindNone(".bashrc", '/');
    RFindLast(".bashrc", '.', 0);
  }
}
