/**
 * civet/util.py: the source-to-destination directory map, the reduction of a
 * set of directories to the top-most ones that cover it, and the abstract
 * "fail" used when precompilation cannot go on.
 */
module Util {

  import opened Paths
  import opened Ordering
  import opened Errors

  /** A compile unit: (source path, destination path). */
  type Unit = (Path, Path)

  /** No later unit has a source in the same directory as unit `i`. */
  predicate LastForDir(units: seq<Unit>, i: int)
    requires 0 <= i < |units|
  {
    forall j :: i < j < |units| ==> Dirname(units[j].0) != Dirname(units[i].0)
  }

  /**
   * A dict built from key/value pairs in order (a dict comprehension): a later
   * pair for the same key overwrites an earlier one.
   */
  function LastWins(pairs: seq<(Path, Path)>): (m: map<Path, Path>)
    ensures m.Keys == set i | 0 <= i < |pairs| :: pairs[i].0
    ensures forall i :: 0 <= i < |pairs| && (forall j :: i < j < |pairs| ==> pairs[j].0 != pairs[i].0) ==>
              m[pairs[i].0] == pairs[i].1
  {
    if pairs == [] then map[]
    else
      var init := pairs[..|pairs| - 1];
      var last := pairs[|pairs| - 1];
      assert pairs == init + [last];
      LastWinsSnoc(init, last, LastWins(init));
      LastWins(init)[last.0 := last.1]
  }

  /** Storing one more pair in a dict that holds the last value of each earlier key. */
  lemma LastWinsSnoc(init: seq<(Path, Path)>, last: (Path, Path), m0: map<Path, Path>)
    requires m0.Keys == set i | 0 <= i < |init| :: init[i].0
    requires forall i :: 0 <= i < |init| && (forall j :: i < j < |init| ==> init[j].0 != init[i].0) ==>
               m0[init[i].0] == init[i].1
    ensures var pairs := init + [last];
            var m := m0[last.0 := last.1];
            && m.Keys == (set i | 0 <= i < |pairs| :: pairs[i].0)
            && forall i :: 0 <= i < |pairs| && (forall j :: i < j < |pairs| ==> pairs[j].0 != pairs[i].0) ==>
                 m[pairs[i].0] == pairs[i].1
  {
    var pairs := init + [last];
    var m := m0[last.0 := last.1];
    assert pairs[|init|] == last;
    assert forall i :: 0 <= i < |init| ==> pairs[i] == init[i];
    assert m.Keys == (set i | 0 <= i < |pairs| :: pairs[i].0) by {
      forall k | k in m.Keys ensures exists i :: 0 <= i < |pairs| && pairs[i].0 == k {
        if k == last.0 { assert pairs[|init|].0 == k; }
        else { var i :| 0 <= i < |init| && init[i].0 == k; assert pairs[i].0 == k; }
      }
    }
    forall i | 0 <= i < |pairs| && (forall j :: i < j < |pairs| ==> pairs[j].0 != pairs[i].0)
      ensures m[pairs[i].0] == pairs[i].1
    {
      if i < |init| {
        assert pairs[|init|] == last;
        assert init[i] == pairs[i] && pairs[i].0 != last.0;
        assert forall j :: i < j < |init| ==> init[j] == pairs[j];
      }
    }
  }

  /** The (source directory, destination directory) pair of every unit. */
  function DirPairsOf(units: seq<Unit>): (ps: seq<(Path, Path)>)
    ensures |ps| == |units|
    ensures forall i :: 0 <= i < |units| ==> ps[i] == (Dirname(units[i].0), Dirname(units[i].1))
  {
    seq(|units|, i requires 0 <= i < |units| => (Dirname(units[i].0), Dirname(units[i].1)))
  }

  /**
   * collect_src_dst_dir_mappings: a dict comprehension, so when two units share
   * a source directory the later one decides the destination directory.
   */
  function CollectSrcDstDirMappings(units: seq<Unit>): (m: map<Path, Path>)
    ensures m.Keys == set i | 0 <= i < |units| :: Dirname(units[i].0)
    ensures forall i :: 0 <= i < |units| && LastForDir(units, i) ==>
              m[Dirname(units[i].0)] == Dirname(units[i].1)
  {
    DirPairsOfKeys(units);
    DirPairsOfLast(units);
    LastWins(DirPairsOf(units))
  }

  lemma DirPairsOfKeys(units: seq<Unit>)
    ensures var ps := DirPairsOf(units);
            (set i | 0 <= i < |ps| :: ps[i].0) == set i | 0 <= i < |units| :: Dirname(units[i].0)
  {
  }

  /** A unit last for its source directory gives a pair last for its key. */
  lemma DirPairsOfLast(units: seq<Unit>)
    ensures var ps := DirPairsOf(units);
            forall i :: 0 <= i < |units| && LastForDir(units, i) ==>
              (forall j :: i < j < |ps| ==> ps[j].0 != ps[i].0)
  {
  }

  /** The position of the first pair with key `k`, or `|pairs|` when there is none. */
  function FirstIndex(pairs: seq<(Path, Path)>, k: Path): (n: nat)
    ensures n <= |pairs|
    ensures n < |pairs| ==> pairs[n].0 == k
    ensures forall m :: 0 <= m < n ==> pairs[m].0 != k
  {
    if pairs == [] then 0
    else
      var init := pairs[..|pairs| - 1];
      var n0 := FirstIndex(init, k);
      assert forall m :: 0 <= m < |init| ==> init[m] == pairs[m];
      if n0 < |init| then n0 else if pairs[|init|].0 == k then |init| else |pairs|
  }

  /** The keys of `pairs`, each once, in the order of its first pair. */
  function KeysInOrder(pairs: seq<(Path, Path)>): (ks: seq<Path>)
    ensures forall k :: k in ks <==> k in LastWins(pairs)
    ensures forall i, j :: 0 <= i < j < |ks| ==> ks[i] != ks[j]
    ensures forall i :: 0 <= i < |ks| ==> FirstIndex(pairs, ks[i]) < |pairs|
    ensures forall i, j :: 0 <= i < j < |ks| ==> FirstIndex(pairs, ks[i]) < FirstIndex(pairs, ks[j])
  {
    if pairs == [] then []
    else
      var init := pairs[..|pairs| - 1];
      var ks0 := KeysInOrder(init);
      var d := pairs[|pairs| - 1].0;
      LastWinsKeysSnoc(pairs);
      FirstIndexKept(pairs, ks0);
      if d in ks0 then ks0
      else
        FirstIndexSnoc(pairs, d);
        ks0 + [d]
  }

  /** The keys of the dict grow by the key of the last pair. */
  lemma LastWinsKeysSnoc(pairs: seq<(Path, Path)>)
    requires pairs != []
    ensures forall k :: k in LastWins(pairs) <==> k in LastWins(pairs[..|pairs| - 1]) || k == pairs[|pairs| - 1].0
  {
    var init := pairs[..|pairs| - 1];
    assert forall i :: 0 <= i < |init| ==> init[i] == pairs[i];
    assert forall k :: k in LastWins(pairs) <==> exists i :: 0 <= i < |pairs| && pairs[i].0 == k;
    assert forall k :: k in LastWins(init) <==> exists i :: 0 <= i < |init| && init[i].0 == k;
  }

  /** Keys already present before the last pair keep their first positions. */
  lemma FirstIndexKept(pairs: seq<(Path, Path)>, ks: seq<Path>)
    requires pairs != []
    requires forall i :: 0 <= i < |ks| ==> FirstIndex(pairs[..|pairs| - 1], ks[i]) < |pairs| - 1
    ensures forall i :: 0 <= i < |ks| ==> FirstIndex(pairs, ks[i]) == FirstIndex(pairs[..|pairs| - 1], ks[i])
  {
    forall i | 0 <= i < |ks| ensures FirstIndex(pairs, ks[i]) == FirstIndex(pairs[..|pairs| - 1], ks[i]) {
      FirstIndexSnoc(pairs, ks[i]);
    }
  }

  /** Appending a pair keeps every earlier first position and gives a new key the last one. */
  lemma FirstIndexSnoc(pairs: seq<(Path, Path)>, k: Path)
    requires pairs != []
    ensures var init := pairs[..|pairs| - 1];
            FirstIndex(init, k) < |init| ==> FirstIndex(pairs, k) == FirstIndex(init, k)
    ensures var init := pairs[..|pairs| - 1];
            k !in LastWins(init) && pairs[|init|].0 == k ==> FirstIndex(pairs, k) == |init|
  {
  }

  /**
   * The keys of the collect_src_dst_dir_mappings dict in iteration order: every
   * source directory once, in the order of its first unit.
   */
  function DictKeys(units: seq<Unit>): (ks: seq<Path>)
    ensures forall k :: k in ks <==> k in CollectSrcDstDirMappings(units)
    ensures forall i, j :: 0 <= i < j < |ks| ==> ks[i] != ks[j]
    ensures forall i, j :: 0 <= i < j < |ks| ==> FirstIndex(DirPairsOf(units), ks[i]) < FirstIndex(DirPairsOf(units), ks[j])
  {
    KeysInOrder(DirPairsOf(units))
  }

  lemma CollectExample()
    ensures var m := CollectSrcDstDirMappings([("/some/source" + "/" + "test.coffee", "/some/output" + "/" + "test.js")]);
            m.Keys == {"/some/source"} && m["/some/source"] == "/some/output"
  {
    DirnameOfChild("/some/source", "test.coffee");
    DirnameOfChild("/some/output", "test.js");
    CollectSingle(("/some/source" + "/" + "test.coffee", "/some/output" + "/" + "test.js"));
  }

  lemma DirnameOfChild(dir: Path, name: Path)
    requires dir != "" && !EndsWithChar(dir, '/')
    requires name != "" && '/' !in name
    ensures Dirname(dir + "/" + name) == dir
  {
    SplitJoin(dir, name);
    assert !IsAbsolute(name) by { assert name[0] != '/'; }
  }

  /** One unit maps its source directory, and nothing else, to its destination directory. */
  lemma CollectSingle(u: Unit)
    ensures var m := CollectSrcDstDirMappings([u]);
            m.Keys == {Dirname(u.0)} && m[Dirname(u.0)] == Dirname(u.1)
  {
    var units := [u];
    assert units[0] == u;
    assert (set i | 0 <= i < |units| :: Dirname(units[i].0)) == {Dirname(u.0)};
    assert LastForDir(units, 0);
  }

  // ---------------------------------------------------------------------------
  // get_shortest_topmost_directories

  /** `(d + '/').startswith(r + '/')`: `d` is `r` itself or lies below it. */
  predicate Covers(r: Path, d: Path) {
    StartsWith(d + "/", r + "/")
  }

  /** Some kept directory covers `d`. */
  predicate CoveredBy(d: Path, rs: seq<Path>) {
    exists k :: 0 <= k < |rs| && Covers(rs[k], d)
  }

  /**
   * The scan over the rest of the sorted list: `current` is the last kept
   * directory with a '/' appended.
   */
  function Keep(s: seq<Path>, current: string): seq<Path>
    decreases |s|
  {
    if s == [] then []
    else if StartsWith(s[0] + "/", current) then Keep(s[1..], current)
    else [s[0]] + Keep(s[1..], s[0] + "/")
  }

  /** The value get_shortest_topmost_directories returns. */
  function Topmost(dirs: seq<Path>): (r: seq<Path>)
    ensures r == [] <==> dirs == []
  {
    if dirs == [] then []
    else
      var s := Sort(dirs);
      assert multiset(s) == multiset(dirs) && |s| == |dirs|;
      [s[0]] + Keep(s[1..], s[0] + "/")
  }

  /**
   * get_shortest_topmost_directories: sort, keep the first, then keep every
   * directory that the most recently kept one does not cover.
   */
  method GetShortestTopmostDirectories(dirs: seq<Path>) returns (results: seq<Path>)
    ensures results == Topmost(dirs)
    ensures forall d :: d in dirs ==> CoveredBy(d, results)
    ensures forall k :: 0 <= k < |results| ==> results[k] in dirs
    ensures forall k :: 0 <= k < |results| - 1 ==> !Covers(results[k], results[k + 1])
  {
    if dirs == [] {
      return [];
    }
    var sortedDirs := Sort(dirs);
    assert |sortedDirs| == |multiset(dirs)| == |dirs|;
    var current := sortedDirs[0];
    sortedDirs := sortedDirs[1..];
    results := [current];
    current := current + "/";
    while sortedDirs != []
      invariant results + Keep(sortedDirs, current) == Topmost(dirs)
    {
      var next := sortedDirs[0];
      sortedDirs := sortedDirs[1..];
      var terminatedNext := next + "/";
      if !StartsWith(terminatedNext, current) {
        current := terminatedNext;
        results := results + [next];
      }
    }
    assert results + [] == results;
    TopmostCovers(dirs);
    TopmostFromInput(dirs);
    TopmostAdjacentNotNested(dirs);
  }

  // --- facts about Covers

  lemma CoversRefl(d: Path)
    ensures Covers(d, d)
  {
  }

  /** A directory that covers another is a prefix of it, so sorts first. */
  lemma CoversLe(r: Path, d: Path)
    requires Covers(r, d)
    ensures r <= d && StrLe(r, d)
  {
    assert |r| <= |d|;
    assert r == (r + "/")[..|r|] == (d + "/")[..|r|] == d[..|r|];
    PrefixLe(r, d);
  }

  /** Of two directories covering the same `d`, the shorter covers the longer. */
  lemma CoversSameTarget(a: Path, b: Path, d: Path)
    requires Covers(a, d) && Covers(b, d) && |a| <= |b|
    ensures Covers(a, b)
  {
    var w := d + "/";
    assert a + "/" == w[..|a| + 1];
    assert b + "/" == w[..|b| + 1];
    assert (b + "/")[..|a| + 1] == w[..|a| + 1];
  }

  // --- the scan keeps a subsequence of the sorted input, in increasing order

  predicate StrictlyIncreasing(s: seq<Path>) {
    forall i, j :: 0 <= i < j < |s| ==> StrLt(s[i], s[j])
  }

  predicate AllAtLeast(p: Path, s: seq<Path>) {
    forall k :: 0 <= k < |s| ==> StrLe(p, s[k])
  }

  lemma SortedTail(s: seq<Path>)
    requires Sorted(s) && s != []
    ensures Sorted(s[1..]) && AllAtLeast(s[0], s[1..])
  {
    forall i, j | 0 <= i < j < |s[1..]| ensures StrLe(s[1..][i], s[1..][j]) {
      assert s[1..][i] == s[i + 1] && s[1..][j] == s[j + 1];
    }
  }

  /**
   * Every directory the scan keeps comes from `s`, sorts strictly after the
   * previous kept directory `p`, and is not covered by it; successive kept
   * directories do not cover one another.
   */
  lemma {:induction false} KeepShape(s: seq<Path>, p: Path)
    requires Sorted(s) && AllAtLeast(p, s)
    ensures forall k :: 0 <= k < |Keep(s, p + "/")| ==> Keep(s, p + "/")[k] in s
    ensures forall k :: 0 <= k < |Keep(s, p + "/")| ==> StrLt(p, Keep(s, p + "/")[k])
    ensures StrictlyIncreasing(Keep(s, p + "/"))
    ensures Keep(s, p + "/") != [] ==> !Covers(p, Keep(s, p + "/")[0])
    ensures forall k :: 0 <= k < |Keep(s, p + "/")| - 1 ==>
              !Covers(Keep(s, p + "/")[k], Keep(s, p + "/")[k + 1])
    decreases |s|
  {
    if s != [] {
      SortedTail(s);
      var L := Keep(s, p + "/");
      if Covers(p, s[0]) {
        assert AllAtLeast(p, s[1..]);
        KeepShape(s[1..], p);
      } else {
        var L' := Keep(s[1..], s[0] + "/");
        KeepShape(s[1..], s[0]);
        assert L == [s[0]] + L';
        assert s[0] != p by { CoversRefl(p); }
        forall k | 0 <= k < |L| ensures L[k] in s && StrLt(p, L[k]) {
          if k > 0 {
            assert L[k] == L'[k - 1];
            StrLeTrans(p, s[0], L[k]);
            if L[k] == p { StrLeAntisym(p, s[0]); }
          }
        }
      }
    }
  }

  lemma TopmostFromInput(dirs: seq<Path>)
    ensures forall k :: 0 <= k < |Topmost(dirs)| ==> Topmost(dirs)[k] in dirs
  {
    if dirs != [] {
      var s := Sort(dirs);
      assert |s| == |multiset(dirs)| == |dirs|;
      SortedTail(s);
      KeepShape(s[1..], s[0]);
      forall k | 0 <= k < |Topmost(dirs)| ensures Topmost(dirs)[k] in dirs {
        var x := Topmost(dirs)[k];
        assert x in s;
        assert x in multiset(s);
      }
    }
  }

  /**
   * The result is drawn from the input, in strictly increasing order, and
   * starts with the smallest input directory.
   */
  lemma TopmostSortedSubset(dirs: seq<Path>)
    ensures forall k :: 0 <= k < |Topmost(dirs)| ==> Topmost(dirs)[k] in dirs
    ensures StrictlyIncreasing(Topmost(dirs))
    ensures dirs != [] ==> Topmost(dirs)[0] == Sort(dirs)[0]
    ensures dirs != [] ==> forall d :: d in dirs ==> StrLe(Topmost(dirs)[0], d)
  {
    TopmostFromInput(dirs);
    TopmostIncreasing(dirs);
    if dirs != [] {
      SortedHeadLeast(Sort(dirs), dirs);
    }
  }

  lemma TopmostIncreasing(dirs: seq<Path>)
    ensures StrictlyIncreasing(Topmost(dirs))
  {
    if dirs != [] {
      var s := Sort(dirs);
      assert |s| == |multiset(dirs)| == |dirs|;
      SortedTail(s);
      KeepShape(s[1..], s[0]);
      var r := Topmost(dirs);
      forall i, j | 0 <= i < j < |r| ensures StrLt(r[i], r[j]) {
        if i > 0 {
          assert r[i] == Keep(s[1..], s[0] + "/")[i - 1];
        }
      }
    }
  }

  /** The head of a sorted arrangement of `dirs` is at most every element of `dirs`. */
  lemma SortedHeadLeast(s: seq<Path>, dirs: seq<Path>)
    requires Sorted(s) && s != [] && multiset(s) == multiset(dirs)
    ensures forall d :: d in dirs ==> StrLe(s[0], d)
  {
    forall d | d in dirs ensures StrLe(s[0], d) {
      assert d in multiset(s);
      var k :| 0 <= k < |s| && s[k] == d;
      if k == 0 { StrLeRefl(d); }
    }
  }

  /** Successive kept directories never cover one another. */
  lemma TopmostAdjacentNotNested(dirs: seq<Path>)
    ensures forall k :: 0 <= k < |Topmost(dirs)| - 1 ==>
              !Covers(Topmost(dirs)[k], Topmost(dirs)[k + 1])
  {
    if dirs != [] {
      var s := Sort(dirs);
      assert |s| == |multiset(dirs)| == |dirs|;
      SortedTail(s);
      HeadAndKeptNotNested(s[1..], s[0]);
      assert Topmost(dirs) == [s[0]] + Keep(s[1..], s[0] + "/");
    }
  }

  /** In `p` followed by what the scan keeps after it, no element covers its successor. */
  lemma HeadAndKeptNotNested(s: seq<Path>, p: Path)
    requires Sorted(s) && AllAtLeast(p, s)
    ensures var r := [p] + Keep(s, p + "/");
            forall k :: 0 <= k < |r| - 1 ==> !Covers(r[k], r[k + 1])
  {
    KeepShape(s, p);
    var L := Keep(s, p + "/");
    var r := [p] + L;
    forall k | 0 <= k < |r| - 1 ensures !Covers(r[k], r[k + 1]) {
      if k > 0 {
        assert r[k] == L[k - 1] && r[k + 1] == L[k];
      }
    }
  }

  // --- coverage

  /**
   * Every directory the scan passes is covered either by the directory kept
   * before the scan started or by one it keeps.
   */
  lemma {:induction false} KeepCovers(s: seq<Path>, p: Path)
    ensures forall i :: 0 <= i < |s| ==> Covers(p, s[i]) || CoveredBy(s[i], Keep(s, p + "/"))
    decreases |s|
  {
    if s != [] {
      var L := Keep(s, p + "/");
      if Covers(p, s[0]) {
        KeepCovers(s[1..], p);
        forall i | 0 < i < |s| ensures Covers(p, s[i]) || CoveredBy(s[i], L) {
          assert s[i] == s[1..][i - 1];
        }
      } else {
        var L' := Keep(s[1..], s[0] + "/");
        KeepCovers(s[1..], s[0]);
        assert L == [s[0]] + L';
        assert Covers(L[0], s[0]);
        forall i | 0 < i < |s| ensures CoveredBy(s[i], L) {
          assert s[i] == s[1..][i - 1];
          if Covers(s[0], s[i]) {
            assert Covers(L[0], s[i]);
          } else {
            var k :| 0 <= k < |L'| && Covers(L'[k], s[i]);
            assert L[k + 1] == L'[k];
          }
        }
      }
    }
  }

  /** Every input directory lies at or below some kept directory. */
  lemma TopmostCovers(dirs: seq<Path>)
    ensures forall d :: d in dirs ==> CoveredBy(d, Topmost(dirs))
  {
    if dirs != [] {
      var s := Sort(dirs);
      assert |s| == |multiset(dirs)| == |dirs|;
      HeadAndKeptCover(s);
      assert Topmost(dirs) == [s[0]] + Keep(s[1..], s[0] + "/");
      forall d | d in dirs ensures CoveredBy(d, Topmost(dirs)) {
        assert d in multiset(s);
        var i :| 0 <= i < |s| && s[i] == d;
      }
    }
  }

  /** The head of a list together with what the scan keeps after it covers every element. */
  lemma HeadAndKeptCover(s: seq<Path>)
    requires s != []
    ensures forall i :: 0 <= i < |s| ==> CoveredBy(s[i], [s[0]] + Keep(s[1..], s[0] + "/"))
  {
    var L := Keep(s[1..], s[0] + "/");
    var r := [s[0]] + L;
    KeepCovers(s[1..], s[0]);
    forall i | 0 <= i < |s| ensures CoveredBy(s[i], r) {
      if i == 0 || Covers(s[0], s[i]) {
        assert Covers(r[0], s[i]);
      } else {
        assert s[i] == s[1..][i - 1];
        var k :| 0 <= k < |L| && Covers(L[k], s[i]);
        assert r[k + 1] == L[k];
      }
    }
  }

  /** Duplicates collapse: the result holds no directory twice. */
  lemma TopmostNoDuplicates(dirs: seq<Path>)
    ensures forall i, j :: 0 <= i < j < |Topmost(dirs)| ==> Topmost(dirs)[i] != Topmost(dirs)[j]
  {
    TopmostSortedSubset(dirs);
  }

  // --- the examples of the docstring and beyond

  lemma TopmostOfNothing()
    ensures Topmost([]) == []
  {
  }

  lemma KeepSkip(s: seq<Path>, current: string)
    requires s != [] && StartsWith(s[0] + "/", current)
    ensures Keep(s, current) == Keep(s[1..], current)
  {
  }

  lemma KeepTake(s: seq<Path>, current: string)
    requires s != [] && !StartsWith(s[0] + "/", current)
    ensures Keep(s, current) == [s[0]] + Keep(s[1..], s[0] + "/")
  {
  }

  /** On a list that is already sorted the sort changes nothing. */
  lemma TopmostOfSorted(s: seq<Path>)
    requires Sorted(s) && s != []
    ensures Topmost(s) == [s[0]] + Keep(s[1..], s[0] + "/")
  {
    SortedUnique(Sort(s), s);
  }

  lemma {:induction false} SortedFromAdjacent(s: seq<Path>)
    requires forall k :: 0 <= k < |s| - 1 ==> StrLe(s[k], s[k + 1])
    ensures Sorted(s)
    decreases |s|
  {
    if |s| > 1 {
      SortedFromAdjacent(s[1..]);
      forall j | 1 < j < |s| ensures StrLe(s[0], s[j]) {
        assert StrLe(s[1], s[j]) by { assert s[1] == s[1..][0] && s[j] == s[1..][j - 1]; }
        StrLeTrans(s[0], s[1], s[j]);
      }
      forall i, j | 0 < i < j < |s| ensures StrLe(s[i], s[j]) {
        assert s[i] == s[1..][i - 1] && s[j] == s[1..][j - 1];
      }
    }
  }

  /** '/foobar' is not below '/foo': both are kept. */
  lemma TopmostNoFalsePrefix(s: seq<Path>)
    requires |s| == 2 && s[0] == "/foo" && s[1] == "/foobar"
    ensures Topmost(s) == s
  {
    PrefixLe("/foo", "/foobar");
    SortedFromAdjacent(s);
    TopmostOfSorted(s);
    var s1 := s[1..];
    assert !StartsWith("/foobar/", "/foo/") by { assert "/foobar/"[4] != "/foo/"[4]; }
    KeepTake(s1, "/foo/");
    assert s1[1..] == [];
    assert s == [s[0]] + [s1[0]];
  }

  /** The docstring's example: /a, /a/b, /a/b/c, /d/e, /f reduce to /a, /d/e, /f. */
  lemma TopmostDocstringExample(s: seq<Path>)
    requires |s| == 5 && s[0] == "/a" && s[1] == "/a/b" && s[2] == "/a/b/c" && s[3] == "/d/e" && s[4] == "/f"
    ensures Topmost(s) == [s[0], s[3], s[4]]
  {
    PrefixLe("/a", "/a/b");
    PrefixLe("/a/b", "/a/b/c");
    FirstDifference("/a/b/c", "/d/e", 1);
    FirstDifference("/d/e", "/f", 1);
    SortedFromAdjacent(s);
    TopmostOfSorted(s);
    assert s[0] + "/" == "/a/";
    DocstringExampleScan(s[1..]);
    assert s[1..][2] == s[3] && s[1..][3] == s[4];
  }

  lemma DocstringExampleScan(s: seq<Path>)
    requires |s| == 4 && s[0] == "/a/b" && s[1] == "/a/b/c" && s[2] == "/d/e" && s[3] == "/f"
    ensures Keep(s, "/a/") == [s[2], s[3]]
  {
    assert StartsWith("/a/b/", "/a/");
    KeepSkip(s, "/a/");
    var s2 := s[1..];
    assert StartsWith("/a/b/c/", "/a/");
    KeepSkip(s2, "/a/");
    var s3 := s2[1..];
    assert !StartsWith("/d/e/", "/a/") by { assert "/d/e/"[1] != "/a/"[1]; }
    KeepTake(s3, "/a/");
    var s4 := s3[1..];
    assert !StartsWith("/f/", "/d/e/") by { assert "/f/"[1] != "/d/e/"[1]; }
    KeepTake(s4, "/d/e/");
    assert s4[1..] == [];
  }

  /**
   * The docstring's "one and only one" fails when a character sorting below
   * '/' sits between a directory and its child: '/a-b' separates '/a' from
   * '/a/c', so '/a/c' is kept although '/a' covers it.
   */
  lemma TopmostKeepsNestedAcrossLowCharacter(s: seq<Path>)
    requires |s| == 3 && s[0] == "/a" && s[1] == "/a-b" && s[2] == "/a/c"
    ensures Topmost(s) == s
    ensures Covers(s[0], s[2])
  {
    PrefixLe("/a", "/a-b");
    FirstDifference("/a-b", "/a/c", 2);
    SortedFromAdjacent(s);
    TopmostOfSorted(s);
    LowCharacterExampleScan(s[1..]);
    assert s == [s[0]] + s[1..];
    assert "/a/" <= "/a/c/";
  }

  lemma LowCharacterExampleScan(s: seq<Path>)
    requires |s| == 2 && s[0] == "/a-b" && s[1] == "/a/c"
    ensures Keep(s, "/a/") == s
  {
    assert !StartsWith("/a-b/", "/a/") by { assert "/a-b/"[2] != "/a/"[2]; }
    KeepTake(s, "/a/");
    var s2 := s[1..];
    assert !StartsWith("/a/c/", "/a-b/") by { assert "/a/c/"[2] != "/a-b/"[2]; }
    KeepTake(s2, "/a-b/");
    assert s2[1..] == [];
    assert s == [s[0]] + [s2[0]];
  }

  // --- "one and only one", for directory names without characters below '/'

  /** No directory name holds a character that sorts below '/' (such as '-' or '.'). */
  predicate NoCharBelowSlash(dirs: seq<Path>) {
    forall i, k :: 0 <= i < |dirs| && 0 <= k < |dirs[i]| ==> dirs[i][k] >= '/'
  }

  /** The length of the longest common prefix of `a` and `b`. */
  function CommonPrefix(a: string, b: string): (n: nat)
    ensures n <= |a| && n <= |b| && a[..n] == b[..n]
    ensures n < |a| && n < |b| ==> a[n] != b[n]
  {
    if a == [] || b == [] || a[0] != b[0] then 0
    else
      var n := 1 + CommonPrefix(a[1..], b[1..]);
      assert a[..n] == [a[0]] + a[1..][..n - 1] && b[..n] == [b[0]] + b[1..][..n - 1];
      n
  }

  /**
   * When `a` covers `c` and `b` sorts between them, `b` is covered by `a` as
   * well, provided no character of `b` sorts below '/'.
   */
  lemma CoversInterval(a: Path, b: Path, c: Path)
    requires StrLe(a, b) && StrLe(b, c) && Covers(a, c)
    requires forall k :: 0 <= k < |b| ==> b[k] >= '/'
    ensures Covers(a, b)
  {
    var n := CommonPrefix(a, b);
    if n < |a| && n < |b| {
      DivergingBeforeCoverEnd(a, b, c);
    } else if n == |b| && n < |a| {
      ProperPrefixBelow(b, a);
    } else if n == |a| && |a| < |b| {
      assert a == b[..n];
      if b[n] != '/' {
        SiblingPastCover(a, b, c);
      } else {
        ChildCovered(a, b);
      }
    } else {
      assert a == b;
    }
  }

  /** A proper prefix sorts strictly below. */
  lemma ProperPrefixBelow(p: string, s: string)
    requires |p| < |s| && p == s[..|p|]
    ensures !StrLe(s, p)
  {
    PrefixLe(p, s);
    if StrLe(s, p) {
      StrLeAntisym(s, p);
    }
  }

  /** A path that continues `a` with a '/' lies below `a`. */
  lemma ChildCovered(a: Path, b: Path)
    requires |a| < |b| && a == b[..|a|] && b[|a|] == '/'
    ensures Covers(a, b)
  {
    assert (b + "/")[..|a| + 1] == a + "/";
  }

  /** A `b` that parts from `a` before the end of `a`, above it, sorts after all `a` covers. */
  lemma DivergingBeforeCoverEnd(a: Path, b: Path, c: Path)
    requires Covers(a, c) && StrLe(a, b)
    requires CommonPrefix(a, b) < |a| && CommonPrefix(a, b) < |b|
    ensures !StrLe(b, c)
  {
    var n := CommonPrefix(a, b);
    assert a[..n] == b[..n] && a[n] != b[n];
    if b[n] < a[n] {
      FirstDifference(b, a, n);
    } else {
      assert a[n] < b[n];
      AboveAtFirstDifference(a, b, c, n);
    }
  }

  /** A `b` above `a` at their first difference, inside `a`, sorts after all `a` covers. */
  lemma AboveAtFirstDifference(a: Path, b: Path, c: Path, n: nat)
    requires Covers(a, c)
    requires n < |a| && n < |b| && a[..n] == b[..n] && a[n] < b[n]
    ensures !StrLe(b, c)
  {
    CoversLe(a, c);
    assert a <= c;
    assert c[..n] == b[..n];
    assert c[n] < b[n] by { assert c[n] == a[n]; }
    FirstDifference(c, b, n);
  }

  /** `a` followed by a character above '/' sorts after everything `a` covers. */
  lemma SiblingPastCover(a: Path, b: Path, c: Path)
    requires Covers(a, c)
    requires |a| < |b| && a == b[..|a|] && b[|a|] > '/'
    ensures !StrLe(b, c)
  {
    var n := |a|;
    if c == a {
      PrefixLe(c, b);
      if StrLe(b, c) {
        StrLeAntisym(b, c);
      }
    } else {
      CoversLe(a, c);
      assert (c + "/")[n] == '/' && c[n] == '/';
      assert c[..n] == b[..n];
      FirstDifference(c, b, n);
    }
  }

  /**
   * Under that condition the scan keeps no directory that an earlier kept one
   * covers, nor one that `p` covers.
   */
  lemma {:induction false} KeepNoneNested(s: seq<Path>, p: Path)
    requires Sorted(s) && AllAtLeast(p, s) && NoCharBelowSlash(s)
    ensures forall k :: 0 <= k < |Keep(s, p + "/")| ==> !Covers(p, Keep(s, p + "/")[k])
    ensures forall i, j :: 0 <= i < j < |Keep(s, p + "/")| ==>
              !Covers(Keep(s, p + "/")[i], Keep(s, p + "/")[j])
    decreases |s|
  {
    if s != [] {
      SortedTail(s);
      NoCharBelowSlashTail(s);
      KeepShape(s, p);
      if Covers(p, s[0]) {
        KeepNoneNested(s[1..], p);
      } else {
        var q := s[0];
        var L := Keep(s, p + "/");
        var L' := Keep(s[1..], q + "/");
        KeepNoneNested(s[1..], q);
        KeepShape(s[1..], q);
        assert L == [q] + L';
        forall k | 0 <= k < |L| ensures !Covers(p, L[k]) {
          if k > 0 {
            var x := L[k];
            assert x == L'[k - 1];
            assert x in s[1..];
            if Covers(p, x) {
              assert forall c :: 0 <= c < |q| ==> q[c] >= '/' by { assert q == s[0]; }
              CoversInterval(p, q, x);
            }
          }
        }
        forall i, j | 0 <= i < j < |L| ensures !Covers(L[i], L[j]) {
          assert L[j] == L'[j - 1];
          if i > 0 {
            assert L[i] == L'[i - 1];
          }
        }
      }
    }
  }

  /**
   * For directory names without characters below '/', no kept directory lies
   * at or below another.
   */
  lemma TopmostNoneNested(dirs: seq<Path>)
    requires NoCharBelowSlash(dirs)
    ensures forall i, j :: 0 <= i < |Topmost(dirs)| && 0 <= j < |Topmost(dirs)| && i != j ==>
              !Covers(Topmost(dirs)[i], Topmost(dirs)[j])
  {
    if dirs != [] {
      var s := Sort(dirs);
      assert |s| == |multiset(dirs)| == |dirs|;
      SortedTail(s);
      NoCharBelowSlashSorted(dirs);
      NoCharBelowSlashTail(s);
      HeadAndKeptNoneNested(s[1..], s[0]);
      assert Topmost(dirs) == [s[0]] + Keep(s[1..], s[0] + "/");
    }
  }

  /** Sorting keeps the directories, so it keeps the condition on their characters. */
  lemma NoCharBelowSlashSorted(dirs: seq<Path>)
    requires NoCharBelowSlash(dirs)
    ensures NoCharBelowSlash(Sort(dirs))
  {
    var s := Sort(dirs);
    forall i, k | 0 <= i < |s| && 0 <= k < |s[i]| ensures s[i][k] >= '/' {
      assert s[i] in multiset(dirs);
      var m :| 0 <= m < |dirs| && dirs[m] == s[i];
    }
  }

  lemma NoCharBelowSlashTail(s: seq<Path>)
    requires s != [] && NoCharBelowSlash(s)
    ensures NoCharBelowSlash(s[1..])
    ensures forall k :: 0 <= k < |s[0]| ==> s[0][k] >= '/'
  {
    forall i, k | 0 <= i < |s[1..]| && 0 <= k < |s[1..][i]| ensures s[1..][i][k] >= '/' {
      assert s[1..][i] == s[i + 1];
    }
  }

  /** `p` followed by what the scan keeps after it is free of nesting, under that condition. */
  lemma HeadAndKeptNoneNested(s: seq<Path>, p: Path)
    requires Sorted(s) && AllAtLeast(p, s) && NoCharBelowSlash(s)
    ensures NoneNested([p] + Keep(s, p + "/"))
  {
    KeepNoneNested(s, p);
    KeepShape(s, p);
    var L := Keep(s, p + "/");
    var r := [p] + L;
    forall i, j | 0 <= i < |r| && 0 <= j < |r| && i != j ensures !Covers(r[i], r[j]) {
      if i < j {
        assert r[j] == L[j - 1];
        if i > 0 {
          assert r[i] == L[i - 1];
        }
      } else if Covers(r[i], r[j]) {
        // r[j] sorts strictly before r[i], but a covering directory sorts first.
        assert r[i] == L[i - 1];
        assert StrLt(r[j], r[i]) by {
          if j > 0 { assert r[j] == L[j - 1]; }
        }
        CoversLe(r[i], r[j]);
        StrLeAntisym(r[i], r[j]);
      }
    }
  }

  /** The kept directory at index `i` covers `d`. */
  predicate CoversAt(rs: seq<Path>, i: int, d: Path) {
    0 <= i < |rs| && Covers(rs[i], d)
  }

  /**
   * The docstring's promise: every input directory can be reached from one and
   * only one kept directory (for names without characters below '/').
   */
  lemma TopmostCoversExactlyOnce(dirs: seq<Path>, d: Path)
    requires NoCharBelowSlash(dirs) && d in dirs
    ensures CoveredBy(d, Topmost(dirs))
    ensures forall i, j :: CoversAt(Topmost(dirs), i, d) && CoversAt(Topmost(dirs), j, d) ==> i == j
  {
    TopmostCovers(dirs);
    TopmostNoneNested(dirs);
    var r := Topmost(dirs);
    forall i, j | 0 <= i < |r| && 0 <= j < |r| && Covers(r[i], d) && Covers(r[j], d) ensures i == j {
      if |r[i]| <= |r[j]| {
        CoversSameTarget(r[i], r[j], d);
      } else {
        CoversSameTarget(r[j], r[i], d);
      }
    }
  }

  // --- the intended reduction: test against every kept directory

  /**
   * The scan as the docstring means it: a directory is kept unless some
   * directory kept before it covers it, not only the most recent one.
   * `kept` is what has been kept so far; the result extends it.
   */
  function KeepUncovered(s: seq<Path>, kept: seq<Path>): seq<Path>
    decreases |s|
  {
    if s == [] then kept
    else if CoveredBy(s[0], kept) then KeepUncovered(s[1..], kept)
    else KeepUncovered(s[1..], kept + [s[0]])
  }

  /** The reduction the docstring promises, on the sorted input. */
  function TopmostIntended(dirs: seq<Path>): (r: seq<Path>)
    ensures r == [] <==> dirs == []
  {
    var s := Sort(dirs);
    assert |s| == |multiset(dirs)| == |dirs|;
    KeepUncoveredShape(s, []);
    KeepUncoveredCovers(s, []);
    assert dirs != [] ==> CoveredBy(s[0], KeepUncovered(s, []));
    KeepUncovered(s, [])
  }

  /** Every kept directory sorts no later than every directory still to scan. */
  predicate AllBelow(kept: seq<Path>, s: seq<Path>) {
    forall i, j :: 0 <= i < |kept| && 0 <= j < |s| ==> StrLe(kept[i], s[j])
  }

  /** No directory of `rs` covers another one of it. */
  predicate NoneNested(rs: seq<Path>) {
    forall i, j :: 0 <= i < |rs| && 0 <= j < |rs| && i != j ==> !Covers(rs[i], rs[j])
  }

  /**
   * On sorted input the scan keeps only directories from `kept` or `s`, in
   * strictly increasing order, and none covers another.
   */
  lemma {:induction false} KeepUncoveredShape(s: seq<Path>, kept: seq<Path>)
    requires Sorted(s) && AllBelow(kept, s)
    requires StrictlyIncreasing(kept) && NoneNested(kept)
    ensures |kept| <= |KeepUncovered(s, kept)| && KeepUncovered(s, kept)[..|kept|] == kept
    ensures forall k :: |kept| <= k < |KeepUncovered(s, kept)| ==> KeepUncovered(s, kept)[k] in s
    ensures StrictlyIncreasing(KeepUncovered(s, kept))
    ensures NoneNested(KeepUncovered(s, kept))
    decreases |s|
  {
    if s != [] {
      AllBelowNext(kept, s);
      if CoveredBy(s[0], kept) {
        KeepUncoveredShape(s[1..], kept);
      } else {
        KeepUncoveredAppend(kept, s[0]);
        KeepUncoveredShape(s[1..], kept + [s[0]]);
      }
    }
  }

  /** Moving on by one sorted directory, kept or not, keeps every kept one below the rest. */
  lemma AllBelowNext(kept: seq<Path>, s: seq<Path>)
    requires s != [] && Sorted(s) && AllBelow(kept, s)
    ensures Sorted(s[1..]) && AllBelow(kept, s[1..]) && AllBelow(kept + [s[0]], s[1..])
    ensures forall i :: 0 <= i < |kept| ==> StrLe(kept[i], s[0])
  {
    SortedTail(s);
    var q := s[0];
    var kept' := kept + [q];
    forall i, j | 0 <= i < |kept'| && 0 <= j < |s[1..]| ensures StrLe(kept'[i], s[1..][j]) {
      assert s[1..][j] == s[j + 1];
      if i < |kept| {
        StrLeTrans(kept[i], q, s[1..][j]);
      }
    }
    forall i, j | 0 <= i < |kept| && 0 <= j < |s[1..]| ensures StrLe(kept[i], s[1..][j]) {
      assert kept'[i] == kept[i];
    }
  }

  /** Appending a directory that none of `kept` covers, and none sorts after, keeps the shape. */
  lemma KeepUncoveredAppend(kept: seq<Path>, q: Path)
    requires StrictlyIncreasing(kept) && NoneNested(kept)
    requires forall i :: 0 <= i < |kept| ==> StrLe(kept[i], q)
    requires !CoveredBy(q, kept)
    ensures StrictlyIncreasing(kept + [q]) && NoneNested(kept + [q])
  {
    var kept' := kept + [q];
    forall i | 0 <= i < |kept| ensures StrLt(kept[i], q) && !Covers(q, kept[i]) {
      assert !Covers(kept[i], q);
      if kept[i] == q {
        CoversRefl(q);
      }
      if Covers(q, kept[i]) {
        CoversLe(q, kept[i]);
        StrLeAntisym(q, kept[i]);
        CoversRefl(q);
      }
    }
    forall i, j | 0 <= i < |kept'| && 0 <= j < |kept'| && i != j ensures !Covers(kept'[i], kept'[j]) {
      if i < |kept| && j < |kept| {
        assert kept'[i] == kept[i] && kept'[j] == kept[j];
      } else if i < |kept| {
        assert kept'[j] == q;
        assert !Covers(kept[i], q);
      }
    }
  }

  /** Every scanned directory ends up covered by a kept one; what was covered stays covered. */
  lemma {:induction false} KeepUncoveredCovers(s: seq<Path>, kept: seq<Path>)
    ensures forall i :: 0 <= i < |s| ==> CoveredBy(s[i], KeepUncovered(s, kept))
    ensures forall d :: CoveredBy(d, kept) ==> CoveredBy(d, KeepUncovered(s, kept))
    decreases |s|
  {
    if s != [] {
      var next := if CoveredBy(s[0], kept) then kept else kept + [s[0]];
      KeepUncoveredCovers(s[1..], next);
      assert KeepUncovered(s, kept) == KeepUncovered(s[1..], next);
      forall d | CoveredBy(d, kept) ensures CoveredBy(d, next) {
        var k :| 0 <= k < |kept| && Covers(kept[k], d);
        assert next[k] == kept[k];
      }
      assert CoveredBy(s[0], next) by {
        if !CoveredBy(s[0], kept) {
          CoversRefl(s[0]);
          assert next[|kept|] == s[0];
        }
      }
      forall i | 0 < i < |s| ensures CoveredBy(s[i], KeepUncovered(s, kept)) {
        assert s[i] == s[1..][i - 1];
      }
    }
  }

  /**
   * The intended reduction covers every input, keeps only inputs in sorted
   * order, and keeps no directory that another kept one covers, whatever
   * characters the paths hold.
   */
  lemma TopmostIntendedReduces(dirs: seq<Path>)
    ensures forall d :: d in dirs ==> CoveredBy(d, TopmostIntended(dirs))
    ensures forall k :: 0 <= k < |TopmostIntended(dirs)| ==> TopmostIntended(dirs)[k] in dirs
    ensures StrictlyIncreasing(TopmostIntended(dirs))
    ensures NoneNested(TopmostIntended(dirs))
  {
    var s := Sort(dirs);
    assert |s| == |multiset(dirs)| == |dirs|;
    KeepUncoveredShape(s, []);
    KeepUncoveredCovers(s, []);
    var r := TopmostIntended(dirs);
    forall d | d in dirs ensures CoveredBy(d, r) {
      assert d in multiset(s);
      var i :| 0 <= i < |s| && s[i] == d;
    }
    forall k | 0 <= k < |r| ensures r[k] in dirs {
      assert r[k] in s;
      assert r[k] in multiset(s);
    }
  }

  /** Each input directory is covered by exactly one directory of the intended reduction. */
  lemma TopmostIntendedCoversExactlyOnce(dirs: seq<Path>, d: Path)
    requires d in dirs
    ensures CoveredBy(d, TopmostIntended(dirs))
    ensures forall i, j :: CoversAt(TopmostIntended(dirs), i, d) && CoversAt(TopmostIntended(dirs), j, d) ==> i == j
  {
    TopmostIntendedReduces(dirs);
    var r := TopmostIntended(dirs);
    forall i, j | 0 <= i < |r| && 0 <= j < |r| && Covers(r[i], d) && Covers(r[j], d) ensures i == j {
      if |r[i]| <= |r[j]| {
        CoversSameTarget(r[i], r[j], d);
      } else {
        CoversSameTarget(r[j], r[i], d);
      }
    }
  }

  /**
   * When no character sorts below '/', testing against the last kept
   * directory is as good as testing against all of them.
   */
  lemma {:induction false} KeepUncoveredAgrees(s: seq<Path>, kept: seq<Path>)
    requires kept != [] && Sorted(s) && AllBelow(kept, s)
    requires StrictlyIncreasing(kept) && NoneNested(kept)
    requires NoCharBelowSlash(s) && NoCharBelowSlash(kept)
    ensures KeepUncovered(s, kept) == kept + Keep(s, kept[|kept| - 1] + "/")
    decreases |s|
  {
    var p := kept[|kept| - 1];
    if s == [] {
      assert kept + [] == kept;
    } else {
      var q := s[0];
      AllBelowNext(kept, s);
      NoCharBelowSlashTail(s);
      CoveredByLast(kept, q);
      if Covers(p, q) {
        KeepUncoveredAgrees(s[1..], kept);
      } else {
        var kept' := kept + [q];
        KeepUncoveredAppend(kept, q);
        NoCharBelowSlashSnoc(kept, q);
        KeepUncoveredAgrees(s[1..], kept');
        assert kept'[|kept'| - 1] == q;
        assert kept' + Keep(s[1..], q + "/") == kept + ([q] + Keep(s[1..], q + "/"));
      }
    }
  }

  lemma NoCharBelowSlashSnoc(kept: seq<Path>, q: Path)
    requires NoCharBelowSlash(kept) && forall k :: 0 <= k < |q| ==> q[k] >= '/'
    ensures NoCharBelowSlash(kept + [q])
  {
    var kept' := kept + [q];
    forall i, k | 0 <= i < |kept'| && 0 <= k < |kept'[i]| ensures kept'[i][k] >= '/' {
      if i < |kept| { assert kept'[i] == kept[i]; }
    }
  }

  /**
   * When no character sorts below '/', a directory sorting after all kept
   * ones is covered by some kept directory exactly when the last one covers it.
   */
  lemma CoveredByLast(kept: seq<Path>, q: Path)
    requires kept != [] && StrictlyIncreasing(kept) && NoneNested(kept) && NoCharBelowSlash(kept)
    requires forall i :: 0 <= i < |kept| ==> StrLe(kept[i], q)
    ensures CoveredBy(q, kept) <==> Covers(kept[|kept| - 1], q)
  {
    var p := kept[|kept| - 1];
    if CoveredBy(q, kept) {
      var i :| 0 <= i < |kept| && Covers(kept[i], q);
      if i != |kept| - 1 {
        assert StrLt(kept[i], p);
        assert forall k :: 0 <= k < |p| ==> p[k] >= '/';
        CoversInterval(kept[i], p, q);
      }
    }
  }

  /**
   * The intended reduction and the one civet computes agree on every input
   * without characters below '/'; the counterexample below shows they part otherwise.
   */
  lemma TopmostIntendedAgrees(dirs: seq<Path>)
    requires NoCharBelowSlash(dirs)
    ensures TopmostIntended(dirs) == Topmost(dirs)
  {
    if dirs != [] {
      var s := Sort(dirs);
      assert |s| == |multiset(dirs)| == |dirs|;
      NoCharBelowSlashSorted(dirs);
      KeepUncoveredFromHead(s);
      assert Topmost(dirs) == [s[0]] + Keep(s[1..], s[0] + "/");
    }
  }

  /** On sorted input the intended scan keeps the head, then scans as civet does. */
  lemma KeepUncoveredFromHead(s: seq<Path>)
    requires s != [] && Sorted(s) && NoCharBelowSlash(s)
    ensures KeepUncovered(s, []) == [s[0]] + Keep(s[1..], s[0] + "/")
  {
    SortedTail(s);
    assert !CoveredBy(s[0], []);
    assert [] + [s[0]] == [s[0]];
    assert KeepUncovered(s, []) == KeepUncovered(s[1..], [s[0]]);
    assert AllBelow([s[0]], s[1..]);
    assert NoCharBelowSlash([s[0]]) by { assert [s[0]][0] == s[0]; }
    NoCharBelowSlashTail(s);
    KeepUncoveredAgrees(s[1..], [s[0]]);
  }

  /** On the counterexample above the intended reduction drops '/a/c'. */
  lemma TopmostIntendedDropsNestedAcrossLowCharacter(s: seq<Path>)
    requires |s| == 3 && s[0] == "/a" && s[1] == "/a-b" && s[2] == "/a/c"
    ensures TopmostIntended(s) == s[..2]
  {
    PrefixLe("/a", "/a-b");
    FirstDifference("/a-b", "/a/c", 2);
    SortedFromAdjacent(s);
    SortedUnique(Sort(s), s);
    LowCharacterIntendedScan(s);
    assert s[..2] == [s[0], s[1]];
  }

  lemma LowCharacterIntendedScan(s: seq<Path>)
    requires |s| == 3 && s[0] == "/a" && s[1] == "/a-b" && s[2] == "/a/c"
    ensures KeepUncovered(s, []) == [s[0], s[1]]
  {
    var s1 := s[1..];
    var s2 := s1[1..];
    assert s[0] + "/" == "/a/" && s[1] + "/" == "/a-b/" && s[2] + "/" == "/a/c/";
    assert !Covers(s[0], s[1]) by { assert "/a-b/"[2] != "/a/"[2]; }
    assert Covers(s[0], s[2]) by { assert "/a/c/"[..3] == "/a/"; }
    assert !CoveredBy(s[0], []);
    assert [] + [s[0]] == [s[0]];
    assert KeepUncovered(s, []) == KeepUncovered(s1, [s[0]]);
    assert !CoveredBy(s1[0], [s[0]]) by { assert s1[0] == s[1]; }
    assert [s[0]] + [s1[0]] == [s[0], s[1]];
    assert KeepUncovered(s1, [s[0]]) == KeepUncovered(s2, [s[0], s[1]]);
    assert CoveredBy(s2[0], [s[0], s[1]]) by { assert s2[0] == s[2] && [s[0], s[1]][0] == s[0]; }
    assert s2[1..] == [];
    assert KeepUncovered(s2, [s[0], s[1]]) == [s[0], s[1]];
  }

  // ---------------------------------------------------------------------------
  // raise_error_or_kill

  /**
   * raise_error_or_kill: with `kill` the process signals itself and exits
   * with status 1, otherwise AssertionError is raised. Either way the caller
   * does not go on.
   */
  function RaiseErrorOrKill(kill: bool): (o: Outcome)
    ensures o.Raised()
    ensures kill <==> o == SystemExit(1)
  {
    if kill then SystemExit(1) else AssertionError
  }
}
