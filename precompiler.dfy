/**
 * asset_precompiler: collect_files, a small collectstatic that pairs every
 * source file a staticfiles finder lists with each backend that accepts it,
 * and precompile_assets, which prepares the output directory, registers it
 * with STATICFILES_DIRS, compiles everything once and then starts watching.
 */
module Precompiler {

  import opened Paths
  import opened Errors
  import opened Util
  import opened Host
  import opened Compilers
  import opened Engine
  import opened Watch

  // ---------------------------------------------------------------------------
  // collect_files

  /**
   * One file a staticfiles finder lists: its path relative to the storage,
   * `storage.path(partial)` and the `os.path.realpath` of that.
   */
  datatype Found = Found(partialPath: Path, fullPath: Path, realPath: Path)

  /** `finder.list(ignore_patterns)`; what Django's finders list is not modelled. */
  type Finder = seq<string> -> seq<Found>

  /** The patterns collectstatic always ignores. */
  const DefaultIgnorePatterns: seq<string> := ["CVS", ".*", "*~"]

  /** The fixed patterns, then CIVET_IGNORE_PATTERNS when it is set and not empty. */
  function IgnorePatterns(cfg: Config): (r: seq<string>)
    ensures |r| >= |DefaultIgnorePatterns| && r[..|DefaultIgnorePatterns|] == DefaultIgnorePatterns
    ensures r[|DefaultIgnorePatterns|..] == if cfg.ignorePatterns.Some? then cfg.ignorePatterns.value else []
  {
    if cfg.ignorePatterns.Some? && cfg.ignorePatterns.value != [] then DefaultIgnorePatterns + cfg.ignorePatterns.value
    else DefaultIgnorePatterns
  }

  /** CIVET_IGNORE_DIRS, empty by default. */
  function IgnoreDirs(cfg: Config): seq<string> {
    OrElse(cfg.ignoreDirs, [])
  }

  /** Some entry of the ignore list occurs in the full path. */
  predicate Ignored(ignoreDirs: seq<string>, fullPath: Path) {
    exists k :: 0 <= k < |ignoreDirs| && Contains(fullPath, ignoreDirs[k])
  }

  /** The file is kept for this compiler: not ignored, and its extension matches. */
  predicate Selected(c: Compiler, ignoreDirs: seq<string>, f: Found) {
    !Ignored(ignoreDirs, f.fullPath) && Matches(c.kind, SplitExt(f.partialPath).0, SplitExt(f.partialPath).1)
  }

  /** The (src, dst) pair recorded for a kept file. */
  function UnitOf(c: Compiler, f: Found): Unit {
    (f.realPath, DestPath(c, SplitExt(f.partialPath).0, SplitExt(f.partialPath).1))
  }

  /** The pairs one compiler gets from a list of files, in list order. */
  function UnitsFor(c: Compiler, ignoreDirs: seq<string>, fs: seq<Found>): seq<Unit>
    decreases |fs|
  {
    if fs == [] then []
    else
      var f := fs[|fs| - 1];
      UnitsFor(c, ignoreDirs, fs[..|fs| - 1]) + (if Selected(c, ignoreDirs, f) then [UnitOf(c, f)] else [])
  }

  /** Everything the finders list, finder by finder. */
  function Listed(finders: seq<Finder>, patterns: seq<string>): seq<Found>
    decreases |finders|
  {
    if finders == [] then [] else Listed(finders[..|finders| - 1], patterns) + finders[|finders| - 1](patterns)
  }

  /** collect_files: the list of pairs of each compiler, by position. */
  function CollectFiles(compilers: seq<Compiler>, finders: seq<Finder>, patterns: seq<string>, ignoreDirs: seq<string>): (r: seq<seq<Unit>>)
    ensures |r| == |compilers|
  {
    seq(|compilers|, j requires 0 <= j < |compilers| => UnitsFor(compilers[j], ignoreDirs, Listed(finders, patterns)))
  }

  lemma UnitsForSnoc(c: Compiler, ignoreDirs: seq<string>, fs: seq<Found>, f: Found)
    ensures UnitsFor(c, ignoreDirs, fs + [f]) ==
            UnitsFor(c, ignoreDirs, fs) + (if Selected(c, ignoreDirs, f) then [UnitOf(c, f)] else [])
  {
    assert (fs + [f])[..|fs|] == fs;
  }

  /** Pairs keep the order of the files: the pairs of two lists are the pairs of each. */
  lemma {:induction false} UnitsForAppend(c: Compiler, ignoreDirs: seq<string>, fs: seq<Found>, gs: seq<Found>)
    ensures UnitsFor(c, ignoreDirs, fs + gs) == UnitsFor(c, ignoreDirs, fs) + UnitsFor(c, ignoreDirs, gs)
    decreases |gs|
  {
    if gs == [] {
      assert fs + gs == fs;
    } else {
      var g := gs[|gs| - 1];
      var init := gs[..|gs| - 1];
      assert fs + gs == (fs + init) + [g];
      assert gs == init + [g];
      UnitsForSnoc(c, ignoreDirs, fs + init, g);
      UnitsForSnoc(c, ignoreDirs, init, g);
      UnitsForAppend(c, ignoreDirs, fs, init);
    }
  }

  /** Every file kept for a compiler contributes its pair. */
  lemma {:induction false} UnitsForComplete(c: Compiler, ignoreDirs: seq<string>, fs: seq<Found>, k: int)
    requires 0 <= k < |fs| && Selected(c, ignoreDirs, fs[k])
    ensures UnitOf(c, fs[k]) in UnitsFor(c, ignoreDirs, fs)
    decreases |fs|
  {
    var init := fs[..|fs| - 1];
    UnitsForSnoc(c, ignoreDirs, init, fs[|fs| - 1]);
    assert fs == init + [fs[|fs| - 1]];
    if k < |init| {
      assert fs[k] == init[k];
      UnitsForComplete(c, ignoreDirs, init, k);
    }
  }

  /** Every recorded pair comes from a file kept for that compiler. */
  lemma {:induction false} UnitsForSound(c: Compiler, ignoreDirs: seq<string>, fs: seq<Found>, u: Unit)
    requires u in UnitsFor(c, ignoreDirs, fs)
    ensures exists k :: 0 <= k < |fs| && Selected(c, ignoreDirs, fs[k]) && u == UnitOf(c, fs[k])
    decreases |fs|
  {
    var init := fs[..|fs| - 1];
    var f := fs[|fs| - 1];
    UnitsForSnoc(c, ignoreDirs, init, f);
    assert fs == init + [f];
    if u in UnitsFor(c, ignoreDirs, init) {
      UnitsForSound(c, ignoreDirs, init, u);
      var k :| 0 <= k < |init| && Selected(c, ignoreDirs, init[k]) && u == UnitOf(c, init[k]);
      assert fs[k] == init[k];
    } else {
      assert Selected(c, ignoreDirs, f) && u == UnitOf(c, f);
    }
  }

  /** A file listed more than once is compiled once per listing. */
  lemma UnitsForDuplicate(c: Compiler, ignoreDirs: seq<string>, f: Found)
    requires Selected(c, ignoreDirs, f)
    ensures UnitsFor(c, ignoreDirs, [f, f]) == [UnitOf(c, f), UnitOf(c, f)]
  {
    UnitsForSingle(c, ignoreDirs, f);
    UnitsForSnoc(c, ignoreDirs, [f], f);
    assert [f] + [f] == [f, f];
  }

  /** A single kept file gives its one pair. */
  lemma UnitsForSingle(c: Compiler, ignoreDirs: seq<string>, f: Found)
    requires Selected(c, ignoreDirs, f)
    ensures UnitsFor(c, ignoreDirs, [f]) == [UnitOf(c, f)]
  {
    UnitsForSnoc(c, ignoreDirs, [], f);
    assert [] + [f] == [f];
  }

  lemma ListedSnoc(finders: seq<Finder>, patterns: seq<string>, i: int)
    requires 0 <= i < |finders|
    ensures Listed(finders[..i + 1], patterns) == Listed(finders[..i], patterns) + finders[i](patterns)
  {
    assert finders[..i + 1][..i] == finders[..i];
  }

  lemma UnitsForIgnored(compilers: seq<Compiler>, ignoreDirs: seq<string>, fs: seq<Found>, f: Found)
    requires Ignored(ignoreDirs, f.fullPath)
    ensures forall j :: 0 <= j < |compilers| ==> UnitsFor(compilers[j], ignoreDirs, fs + [f]) == UnitsFor(compilers[j], ignoreDirs, fs)
  {
    forall j | 0 <= j < |compilers| ensures UnitsFor(compilers[j], ignoreDirs, fs + [f]) == UnitsFor(compilers[j], ignoreDirs, fs) {
      UnitsForSnoc(compilers[j], ignoreDirs, fs, f);
    }
  }

  /** What a file that is not ignored adds to each compiler's pairs. */
  lemma UnitsForKept(compilers: seq<Compiler>, ignoreDirs: seq<string>, fs: seq<Found>, f: Found)
    requires !Ignored(ignoreDirs, f.fullPath)
    ensures forall j :: 0 <= j < |compilers| ==>
              UnitsFor(compilers[j], ignoreDirs, fs + [f]) ==
              UnitsFor(compilers[j], ignoreDirs, fs) +
              (if Matches(compilers[j].kind, SplitExt(f.partialPath).0, SplitExt(f.partialPath).1) then [UnitOf(compilers[j], f)] else [])
  {
    forall j | 0 <= j < |compilers|
      ensures UnitsFor(compilers[j], ignoreDirs, fs + [f]) ==
              UnitsFor(compilers[j], ignoreDirs, fs) +
              (if Matches(compilers[j].kind, SplitExt(f.partialPath).0, SplitExt(f.partialPath).1) then [UnitOf(compilers[j], f)] else [])
    {
      UnitsForSnoc(compilers[j], ignoreDirs, fs, f);
    }
  }

  /** The body of collect_files' inner loops: one listed file, offered to every compiler. */
  method RecordFile(compilers: seq<Compiler>, ignoreDirs: seq<string>, output: seq<seq<Unit>>,
                    ghost fs: seq<Found>, f: Found) returns (output': seq<seq<Unit>>)
    requires |output| == |compilers|
    requires forall j :: 0 <= j < |compilers| ==> output[j] == UnitsFor(compilers[j], ignoreDirs, fs)
    ensures |output'| == |compilers|
    ensures forall j :: 0 <= j < |compilers| ==> output'[j] == UnitsFor(compilers[j], ignoreDirs, fs + [f])
  {
    output' := output;
    var (base, ext) := SplitExt(f.partialPath);
    var ignored := Ignored(ignoreDirs, f.fullPath);
    if ignored {
      UnitsForIgnored(compilers, ignoreDirs, fs, f);
      return;
    }
    UnitsForKept(compilers, ignoreDirs, fs, f);
    output' := OfferToAll(compilers, output, f, base, ext);
  }

  /** The innermost loop: every compiler that accepts the extension records the file. */
  method OfferToAll(compilers: seq<Compiler>, output: seq<seq<Unit>>, f: Found, base: string, ext: string)
    returns (output': seq<seq<Unit>>)
    requires |output| == |compilers|
    ensures |output'| == |compilers|
    ensures forall j :: 0 <= j < |compilers| ==>
              output'[j] == output[j] + (if Matches(compilers[j].kind, base, ext) then [UnitOf(compilers[j], f)] else [])
  {
    output' := output;
    for m := 0 to |compilers|
      invariant |output'| == |compilers|
      invariant forall j :: 0 <= j < m ==>
                  output'[j] == output[j] + (if Matches(compilers[j].kind, base, ext) then [UnitOf(compilers[j], f)] else [])
      invariant forall j :: m <= j < |compilers| ==> output'[j] == output[j]
    {
      if Matches(compilers[m].kind, base, ext) {
        output' := output'[m := output'[m] + [UnitOf(compilers[m], f)]];
      }
    }
  }

  /** collect_files' loops: over finders, over their files, over the compilers. */
  method CollectFilesOn(compilers: seq<Compiler>, finders: seq<Finder>, patterns: seq<string>, ignoreDirs: seq<string>)
    returns (output: seq<seq<Unit>>)
    ensures output == CollectFiles(compilers, finders, patterns, ignoreDirs)
  {
    output := seq(|compilers|, j => []);
    for i := 0 to |finders|
      invariant |output| == |compilers|
      invariant forall j :: 0 <= j < |compilers| ==>
                  output[j] == UnitsFor(compilers[j], ignoreDirs, Listed(finders[..i], patterns))
    {
      var listed := finders[i](patterns);
      ghost var before := Listed(finders[..i], patterns);
      assert before + listed[..0] == before;
      for k := 0 to |listed|
        invariant |output| == |compilers|
        invariant forall j :: 0 <= j < |compilers| ==>
                    output[j] == UnitsFor(compilers[j], ignoreDirs, before + listed[..k])
      {
        assert before + listed[..k + 1] == (before + listed[..k]) + [listed[k]];
        output := RecordFile(compilers, ignoreDirs, output, before + listed[..k], listed[k]);
      }
      assert listed[..|listed|] == listed;
      ListedSnoc(finders, patterns, i);
    }
    assert finders[..|finders|] == finders;
  }

  // ---------------------------------------------------------------------------
  // Constructing the compilers

  /** CIVET_COMPILER_CLASSES' default. */
  const DefaultCompilerKinds: seq<Kind> := [CoffeeScript, ES6, Sass]

  /** One compiler per configured class, in order; the first that fails ends the run. */
  function BuildCompilers(kinds: seq<Kind>, assetsDir: Path, kill: bool, cfg: Config,
                          which: map<string, Path>, probe: BundleProbe): (r: Result<seq<Compiler>>)
    ensures r.Success? <==> forall i :: 0 <= i < |kinds| ==> NewCompiler(kinds[i], assetsDir, kill, cfg, which, probe).Success?
    ensures r.Success? ==> |r.value| == |kinds|
    ensures r.Success? ==>
              forall i :: 0 <= i < |kinds| ==> NewCompiler(kinds[i], assetsDir, kill, cfg, which, probe) == Success(r.value[i])
    ensures r.Failure? ==> r.error == RaiseErrorOrKill(kill)
    decreases |kinds|
  {
    if kinds == [] then Success([])
    else
      var first := NewCompiler(kinds[0], assetsDir, kill, cfg, which, probe);
      if first.Failure? then Failure(first.error)
      else
        var rest := BuildCompilers(kinds[1..], assetsDir, kill, cfg, which, probe);
        assert forall i :: 1 <= i < |kinds| ==> kinds[i] == kinds[1..][i - 1];
        if rest.Failure? then Failure(rest.error) else Success([first.value] + rest.value)
  }

  method BuildCompilersOn(kinds: seq<Kind>, assetsDir: Path, kill: bool, cfg: Config,
                          which: map<string, Path>, probe: BundleProbe) returns (r: Result<seq<Compiler>>)
    ensures r == BuildCompilers(kinds, assetsDir, kill, cfg, which, probe)
  {
    var compilers: seq<Compiler> := [];
    for i := 0 to |kinds|
      invariant |compilers| == i
      invariant forall k :: 0 <= k < i ==> NewCompiler(kinds[k], assetsDir, kill, cfg, which, probe) == Success(compilers[k])
    {
      var c := NewCompiler(kinds[i], assetsDir, kill, cfg, which, probe);
      if c.Failure? {
        return Failure(c.error);
      }
      compilers := compilers + [c.value];
    }
    ghost var b := BuildCompilers(kinds, assetsDir, kill, cfg, which, probe);
    assert b.Success? && |b.value| == |compilers|;
    assert forall k :: 0 <= k < |kinds| ==> b.value[k] == compilers[k];
    assert b.value == compilers;
    return Success(compilers);
  }

  // ---------------------------------------------------------------------------
  // The batch compile and the watch start

  /** The batch loop: compile_all for every compiler that has files, stopping at the first error. */
  function CompileBatches(compilers: seq<Compiler>, outputs: seq<seq<Unit>>, st: HostState, oracle: Oracle): Step
    requires |outputs| == |compilers|
    decreases |compilers|
  {
    if compilers == [] then Step(st, Ok)
    else
      var r := FirstBatch(compilers, outputs, st, oracle);
      if r.o.Raised() then r else CompileBatches(compilers[1..], outputs[1..], r.st, oracle)
  }

  /** What the first compiler of the loop does. */
  function FirstBatch(compilers: seq<Compiler>, outputs: seq<seq<Unit>>, st: HostState, oracle: Oracle): Step
    requires |outputs| == |compilers| > 0
  {
    if outputs[0] == [] then Step(st, Ok) else CompileAll(compilers[0], st, oracle, outputs[0])
  }

  /** One turn of the loop: the first compiler, then the rest unless it raised. */
  lemma CompileBatchesCons(compilers: seq<Compiler>, outputs: seq<seq<Unit>>, st: HostState, oracle: Oracle)
    requires |outputs| == |compilers| > 0
    ensures var r := FirstBatch(compilers, outputs, st, oracle);
            CompileBatches(compilers, outputs, st, oracle) ==
            if r.o.Raised() then r else CompileBatches(compilers[1..], outputs[1..], r.st, oracle)
  {
  }

  /** Compilers without files do nothing at all, not even print their start line. */
  lemma {:induction false} CompileBatchesOfNothing(compilers: seq<Compiler>, outputs: seq<seq<Unit>>, st: HostState, oracle: Oracle)
    requires |outputs| == |compilers|
    requires forall j :: 0 <= j < |outputs| ==> outputs[j] == []
    ensures CompileBatches(compilers, outputs, st, oracle) == Step(st, Ok)
    decreases |compilers|
  {
    if compilers != [] {
      assert outputs[0] == [];
      CompileBatchesOfNothing(compilers[1..], outputs[1..], st, oracle);
    }
  }

  const IncompleteMessage: string := "Incomplete asset precompilation, server not started."

  /** The try block: a failing command ends the run through raise_error_or_kill, other errors escape. */
  function Batch(compilers: seq<Compiler>, outputs: seq<seq<Unit>>, st: HostState, oracle: Oracle, kill: bool): (r: Step)
    requires |outputs| == |compilers|
    ensures CompileBatches(compilers, outputs, st, oracle).o.CalledProcessError? ==>
              r == Step(Warn(CompileBatches(compilers, outputs, st, oracle).st, IncompleteMessage), RaiseErrorOrKill(kill))
    ensures !CompileBatches(compilers, outputs, st, oracle).o.CalledProcessError? ==> r == CompileBatches(compilers, outputs, st, oracle)
  {
    var r := CompileBatches(compilers, outputs, st, oracle);
    if r.o.CalledProcessError? then Step(Warn(r.st, IncompleteMessage), RaiseErrorOrKill(kill)) else r
  }

  /** `compiler.watch(files, observer)` for every compiler, files or not. */
  function WatchAll(compilers: seq<Compiler>, outputs: seq<seq<Unit>>, st: HostState, schedules: seq<Schedule>): (HostState, seq<Schedule>)
    requires |outputs| == |compilers|
    decreases |compilers|
  {
    if compilers == [] then (st, schedules)
    else
      var w := Watch.Watch(compilers[0], st, schedules, outputs[0]);
      WatchAll(compilers[1..], outputs[1..], w.0, w.1)
  }

  /**
   * Starting to watch compiles nothing, touches no file, and adds one line
   * to stdout per compiler (which line, `WatchEffects` says).
   */
  lemma {:induction false} WatchAllCompilesNothing(compilers: seq<Compiler>, outputs: seq<seq<Unit>>, st: HostState, schedules: seq<Schedule>)
    requires |outputs| == |compilers|
    ensures WatchAll(compilers, outputs, st, schedules).0.nodes == st.nodes
    ensures WatchAll(compilers, outputs, st, schedules).0.runs == st.runs
    ensures st.out <= WatchAll(compilers, outputs, st, schedules).0.out
    ensures |WatchAll(compilers, outputs, st, schedules).0.out| == |st.out| + |compilers|
    decreases |compilers|
  {
    if compilers != [] {
      var w := Watch.Watch(compilers[0], st, schedules, outputs[0]);
      WatchEffects(compilers[0], st, schedules, outputs[0]);
      WatchAllCompilesNothing(compilers[1..], outputs[1..], w.0, w.1);
    }
  }

  // ---------------------------------------------------------------------------
  // precompile_assets

  /** The output directory is created, with a notice, only when it does not exist. */
  function EnsureAssetDir(st: HostState, dir: Path, now: int): (r: Step)
    ensures Exists(st, dir) ==> r == Step(st, Ok)
    ensures !Exists(st, dir) ==>
              r == Makedirs(Print(st, "Directory created for saving precompiled assets: " + dir), dir, now)
  {
    if Exists(st, dir) then Step(st, Ok)
    else Makedirs(Print(st, "Directory created for saving precompiled assets: " + dir), dir, now)
  }

  /** `if dir not in STATICFILES_DIRS: STATICFILES_DIRS += (dir,)` */
  function AddStaticDir(dirs: seq<Path>, dir: Path): (r: seq<Path>)
    ensures dir in r
    ensures dir in dirs ==> r == dirs
    ensures dir !in dirs ==> r == dirs + [dir]
  {
    if dir in dirs then dirs else dirs + [dir]
  }

  /** Registering the directory a second time changes nothing. */
  lemma AddStaticDirIdempotent(dirs: seq<Path>, dir: Path)
    ensures AddStaticDir(AddStaticDir(dirs, dir), dir) == AddStaticDir(dirs, dir)
  {
  }

  /** The directory appears in STATICFILES_DIRS once more than before at most, and never twice new. */
  lemma AddStaticDirOnce(dirs: seq<Path>, dir: Path, k: int, l: int)
    requires forall i, j :: 0 <= i < j < |dirs| ==> dirs[i] != dirs[j]
    requires 0 <= k < l < |AddStaticDir(dirs, dir)|
    ensures AddStaticDir(dirs, dir)[k] != AddStaticDir(dirs, dir)[l]
  {
  }

  /**
   * What a run leaves behind: the host, STATICFILES_DIRS, the observer's
   * schedules when it was started, and how the run ended.
   */
  datatype Run = Run(st: HostState, staticfilesDirs: seq<Path>, watching: Option<seq<Schedule>>, o: Outcome)

  /** Where precompile_assets stands once the compilers are built, or how it ended before. */
  datatype Setup =
    | Stopped(st: HostState, staticfilesDirs: seq<Path>, o: Outcome)
    | Ready(st: HostState, staticfilesDirs: seq<Path>, compilers: seq<Compiler>)

  /** The output directory, STATICFILES_DIRS and the compilers. */
  function SetUp(cfg: Config, st: HostState, oracle: Oracle, staticfilesDirs: seq<Path>,
                 which: map<string, Path>, probe: BundleProbe, kill: bool): Setup
  {
    if cfg.precompiledAssetDir.None? then Stopped(st, staticfilesDirs, AssertionError)
    else
      var dir := cfg.precompiledAssetDir.value;
      var made := EnsureAssetDir(st, dir, oracle.now);
      if made.o.Raised() then Stopped(made.st, staticfilesDirs, made.o)
      else
        var dirs := AddStaticDir(staticfilesDirs, dir);
        var built := BuildCompilers(OrElse(cfg.compilerClasses, DefaultCompilerKinds), dir, kill, cfg, which, probe);
        if built.Failure? then Stopped(made.st, dirs, built.error)
        else Ready(made.st, dirs, built.value)
  }

  /** `precompile_assets(watch, kill_on_error)` with the settings in `cfg`. */
  function PrecompileAssets(cfg: Config, st: HostState, oracle: Oracle, staticfilesDirs: seq<Path>,
                            finders: seq<Finder>, which: map<string, Path>, probe: BundleProbe,
                            watch: bool, kill: bool): Run
  {
    Finish(SetUp(cfg, st, oracle, staticfilesDirs, which, probe, kill), cfg, oracle, finders, watch, kill)
  }

  /** The rest of precompile_assets once set-up has stopped or produced the compilers. */
  function Finish(s: Setup, cfg: Config, oracle: Oracle, finders: seq<Finder>, watch: bool, kill: bool): Run {
    match s
    case Stopped(st, dirs, o) => Run(st, dirs, None, o)
    case Ready(st, dirs, compilers) => CompileAndWatch(compilers, cfg, st, oracle, dirs, finders, watch, kill)
  }

  /** The part of precompile_assets after the compilers exist: collect, compile, watch. */
  function CompileAndWatch(compilers: seq<Compiler>, cfg: Config, st: HostState, oracle: Oracle, dirs: seq<Path>,
                           finders: seq<Finder>, watch: bool, kill: bool): Run
  {
    var outputs := CollectFiles(compilers, finders, IgnorePatterns(cfg), IgnoreDirs(cfg));
    var batch := Batch(compilers, outputs, st, oracle, kill);
    if batch.o.Raised() then Run(batch.st, dirs, None, batch.o)
    else if !watch then Run(batch.st, dirs, None, Ok)
    else
      var w := WatchAll(compilers, outputs, batch.st, []);
      Run(w.0, dirs, Some(w.1), Ok)
  }

  /** Without CIVET_PRECOMPILED_ASSET_DIR nothing happens but the AssertionError. */
  lemma MissingAssetDirSetting(cfg: Config, st: HostState, oracle: Oracle, staticfilesDirs: seq<Path>,
                               finders: seq<Finder>, which: map<string, Path>, probe: BundleProbe, watch: bool, kill: bool)
    requires cfg.precompiledAssetDir.None?
    ensures PrecompileAssets(cfg, st, oracle, staticfilesDirs, finders, which, probe, watch, kill) ==
            Run(st, staticfilesDirs, None, AssertionError)
  {
  }

  /**
   * Watching starts only when asked for and when every batch compile
   * succeeded; then the output directory exists, it is registered with
   * STATICFILES_DIRS and the run ends normally.
   */
  lemma WatchingOnlyAfterSuccess(cfg: Config, st: HostState, oracle: Oracle, staticfilesDirs: seq<Path>,
                                 finders: seq<Finder>, which: map<string, Path>, probe: BundleProbe, watch: bool, kill: bool)
    ensures var r := PrecompileAssets(cfg, st, oracle, staticfilesDirs, finders, which, probe, watch, kill);
            r.watching.Some? <==> watch && r.o == Ok
    ensures var r := PrecompileAssets(cfg, st, oracle, staticfilesDirs, finders, which, probe, watch, kill);
            !r.o.Raised() ==> cfg.precompiledAssetDir.Some? && cfg.precompiledAssetDir.value in r.staticfilesDirs
  {
    var s := SetUp(cfg, st, oracle, staticfilesDirs, which, probe, kill);
    SetUpOutcome(cfg, st, oracle, staticfilesDirs, which, probe, kill);
    if s.Ready? {
      CompileAndWatchOutcome(s.compilers, cfg, s.st, oracle, s.staticfilesDirs, finders, watch, kill);
    }
  }

  /**
   * Set-up either stops with a raised exception and nothing watched, or goes
   * on with the output directory registered in STATICFILES_DIRS.
   */
  lemma SetUpOutcome(cfg: Config, st: HostState, oracle: Oracle, staticfilesDirs: seq<Path>,
                     which: map<string, Path>, probe: BundleProbe, kill: bool)
    ensures var s := SetUp(cfg, st, oracle, staticfilesDirs, which, probe, kill);
            && (s.Stopped? ==> s.o.Raised())
            && (s.Ready? ==> cfg.precompiledAssetDir.Some? && cfg.precompiledAssetDir.value in s.staticfilesDirs)
  {
  }

  /** After set-up, watching starts exactly when asked for and the batch succeeded. */
  lemma CompileAndWatchOutcome(compilers: seq<Compiler>, cfg: Config, st: HostState, oracle: Oracle, dirs: seq<Path>,
                               finders: seq<Finder>, watch: bool, kill: bool)
    ensures var r := CompileAndWatch(compilers, cfg, st, oracle, dirs, finders, watch, kill);
            && r.staticfilesDirs == dirs
            && (r.watching.Some? <==> watch && r.o == Ok)
            && (r.o.Raised() || r.o == Ok)
  {
  }

  /**
   * A failing compiler command in the batch ends the run with
   * raise_error_or_kill after the notice on stderr; nothing is watched.
   */
  lemma BatchFailureStopsRun(cfg: Config, st: HostState, oracle: Oracle, staticfilesDirs: seq<Path>,
                             finders: seq<Finder>, which: map<string, Path>, probe: BundleProbe, watch: bool, kill: bool,
                             compilers: seq<Compiler>, made: Step)
    requires cfg.precompiledAssetDir.Some?
    requires made == EnsureAssetDir(st, cfg.precompiledAssetDir.value, oracle.now) && made.o.Ok?
    requires BuildCompilers(OrElse(cfg.compilerClasses, DefaultCompilerKinds), cfg.precompiledAssetDir.value,
                            kill, cfg, which, probe) == Success(compilers)
    requires CompileBatches(compilers, CollectFiles(compilers, finders, IgnorePatterns(cfg), IgnoreDirs(cfg)),
                            made.st, oracle).o.CalledProcessError?
    ensures var r := PrecompileAssets(cfg, st, oracle, staticfilesDirs, finders, which, probe, watch, kill);
            && r.o == RaiseErrorOrKill(kill)
            && r.watching.None?
            && |r.st.err| > 0 && r.st.err[|r.st.err| - 1] == IncompleteMessage
  {
  }

  /**
   * The batch loop over a prefix that raises nothing hands its state on to
   * the loop over the rest.
   */
  lemma {:induction false} CompileBatchesSplit(compilers: seq<Compiler>, outputs: seq<seq<Unit>>, st: HostState, oracle: Oracle, j: int)
    requires |outputs| == |compilers| && 0 <= j <= |compilers|
    requires !CompileBatches(compilers[..j], outputs[..j], st, oracle).o.Raised()
    ensures CompileBatches(compilers, outputs, st, oracle) ==
            CompileBatches(compilers[j..], outputs[j..], CompileBatches(compilers[..j], outputs[..j], st, oracle).st, oracle)
    decreases j
  {
    if j == 0 {
      assert compilers[j..] == compilers && outputs[j..] == outputs;
    } else {
      var r := FirstBatch(compilers, outputs, st, oracle);
      var cs, os := compilers[1..], outputs[1..];
      assert compilers[..j][1..] == cs[..j - 1] && outputs[..j][1..] == os[..j - 1];
      assert cs[j - 1..] == compilers[j..] && os[j - 1..] == outputs[j..];
      CompileBatchesCons(compilers, outputs, st, oracle);
      CompileBatchesCons(compilers[..j], outputs[..j], st, oracle);
      assert FirstBatch(compilers[..j], outputs[..j], st, oracle) == r by {
        assert compilers[..j][0] == compilers[0] && outputs[..j][0] == outputs[0];
      }
      CompileBatchesSplit(cs, os, r.st, oracle, j - 1);
    }
  }

  /**
   * As written, a run whose batch reaches an ES6 compiler with a stale first
   * file ends in NotImplementedError: nothing is watched, no further command
   * runs and the incomplete-precompilation notice is not written.
   */
  lemma ES6StaleUnitEndsRun(cfg: Config, st: HostState, oracle: Oracle, staticfilesDirs: seq<Path>,
                            finders: seq<Finder>, which: map<string, Path>, probe: BundleProbe, watch: bool, kill: bool,
                            setup: Setup, outputs: seq<seq<Unit>>, j: int)
    requires setup == SetUp(cfg, st, oracle, staticfilesDirs, which, probe, kill) && setup.Ready?
    requires outputs == CollectFiles(setup.compilers, finders, IgnorePatterns(cfg), IgnoreDirs(cfg))
    requires 0 <= j < |setup.compilers| && setup.compilers[j].kind == ES6 && outputs[j] != []
    requires !CompileBatches(setup.compilers[..j], outputs[..j], setup.st, oracle).o.Raised()
    requires var before := CompileBatches(setup.compilers[..j], outputs[..j], setup.st, oracle).st;
             var made := MkdirP(Print(before, StartLine(ES6)), Dirname(outputs[j][0].1), oracle.now);
             made.o.Ok? && Stale(made.st, outputs[j][0].0, outputs[j][0].1)
    ensures var r := PrecompileAssets(cfg, st, oracle, staticfilesDirs, finders, which, probe, watch, kill);
            var before := CompileBatches(setup.compilers[..j], outputs[..j], setup.st, oracle).st;
            && r.o == NotImplementedError
            && r.watching.None?
            && r.st.runs == before.runs && r.st.err == before.err
  {
    ES6StaleBatchRaises(setup.compilers, outputs, setup.st, oracle, j);
    CompileAndWatchEscapes(setup.compilers, cfg, setup.st, oracle, setup.staticfilesDirs, finders, watch, kill);
  }

  /** The batch loop reaching an ES6 compiler whose first file is stale raises NotImplementedError. */
  lemma ES6StaleBatchRaises(compilers: seq<Compiler>, outputs: seq<seq<Unit>>, st: HostState, oracle: Oracle, j: int)
    requires |outputs| == |compilers|
    requires 0 <= j < |compilers| && compilers[j].kind == ES6 && outputs[j] != []
    requires !CompileBatches(compilers[..j], outputs[..j], st, oracle).o.Raised()
    requires var before := CompileBatches(compilers[..j], outputs[..j], st, oracle).st;
             var made := MkdirP(Print(before, StartLine(ES6)), Dirname(outputs[j][0].1), oracle.now);
             made.o.Ok? && Stale(made.st, outputs[j][0].0, outputs[j][0].1)
    ensures var r := CompileBatches(compilers, outputs, st, oracle);
            var before := CompileBatches(compilers[..j], outputs[..j], st, oracle).st;
            r.o == NotImplementedError && r.st.runs == before.runs && r.st.err == before.err
  {
    var before := CompileBatches(compilers[..j], outputs[..j], st, oracle).st;
    CompileBatchesSplit(compilers, outputs, st, oracle, j);
    assert compilers[j..][0] == compilers[j] && outputs[j..][0] == outputs[j];
    CompileBatchesCons(compilers[j..], outputs[j..], before, oracle);
    CompileAllES6Raises(compilers[j], before, oracle, outputs[j]);
  }

  /**
   * A batch that raises anything but CalledProcessError escapes the except
   * clause: the run ends with it and nothing is watched.
   */
  lemma CompileAndWatchEscapes(compilers: seq<Compiler>, cfg: Config, st: HostState, oracle: Oracle, dirs: seq<Path>,
                               finders: seq<Finder>, watch: bool, kill: bool)
    ensures var outputs := CollectFiles(compilers, finders, IgnorePatterns(cfg), IgnoreDirs(cfg));
            var b := CompileBatches(compilers, outputs, st, oracle);
            b.o.Raised() && !b.o.CalledProcessError? ==>
              CompileAndWatch(compilers, cfg, st, oracle, dirs, finders, watch, kill) == Run(b.st, dirs, None, b.o)
  {
  }

  // ---------------------------------------------------------------------------
  // The same on a Host

  /** django.conf.settings, the one setting precompile_assets changes. */
  class Settings {
    var staticfilesDirs: seq<Path>

    constructor(dirs: seq<Path>)
      ensures staticfilesDirs == dirs
    {
      staticfilesDirs := dirs;
    }

    method AddStaticfilesDir(dir: Path)
      modifies this
      ensures staticfilesDirs == AddStaticDir(old(staticfilesDirs), dir)
    {
      if dir !in staticfilesDirs {
        staticfilesDirs := staticfilesDirs + [dir];
      }
    }
  }

  method CompileBatchesOn(compilers: seq<Compiler>, outputs: seq<seq<Unit>>, host: Host) returns (o: Outcome)
    requires |outputs| == |compilers|
    modifies host
    ensures Step(host.State(), o) == CompileBatches(compilers, outputs, old(host.State()), host.oracle)
  {
    ghost var start := host.State();
    for j := 0 to |compilers|
      invariant CompileBatches(compilers, outputs, start, host.oracle) ==
                CompileBatches(compilers[j..], outputs[j..], host.State(), host.oracle)
    {
      assert compilers[j..][1..] == compilers[j + 1..] && outputs[j..][1..] == outputs[j + 1..];
      if outputs[j] != [] {
        o := CompileAllOn(compilers[j], host, outputs[j]);
        if o.Raised() {
          return;
        }
      }
    }
    o := Ok;
  }

  method WatchAllOn(compilers: seq<Compiler>, outputs: seq<seq<Unit>>, host: Host, observer: Observer)
    requires |outputs| == |compilers|
    modifies host, observer
    ensures (host.State(), observer.schedules) == WatchAll(compilers, outputs, old(host.State()), old(observer.schedules))
    ensures observer.started == old(observer.started)
  {
    ghost var start := (host.State(), observer.schedules);
    for j := 0 to |compilers|
      invariant WatchAll(compilers, outputs, start.0, start.1) ==
                WatchAll(compilers[j..], outputs[j..], host.State(), observer.schedules)
      invariant observer.started == old(observer.started)
    {
      assert compilers[j..][1..] == compilers[j + 1..] && outputs[j..][1..] == outputs[j + 1..];
      WatchOn(compilers[j], outputs[j], host, observer);
    }
  }

  method EnsureAssetDirOn(host: Host, dir: Path) returns (o: Outcome)
    modifies host
    ensures Step(host.State(), o) == EnsureAssetDir(old(host.State()), dir, host.oracle.now)
  {
    o := Ok;
    var dirExists := host.PathExists(dir);
    if !dirExists {
      host.PrintLine("Directory created for saving precompiled assets: " + dir);
      o := host.MakeDirectories(dir);
    }
  }

  method SetUpOn(cfg: Config, host: Host, settings: Settings, which: map<string, Path>, probe: BundleProbe, kill: bool)
    returns (r: Setup)
    modifies host, settings
    ensures r == SetUp(cfg, old(host.State()), host.oracle, old(settings.staticfilesDirs), which, probe, kill)
    ensures host.State() == r.st && settings.staticfilesDirs == r.staticfilesDirs
  {
    if cfg.precompiledAssetDir.None? {
      return Stopped(host.State(), settings.staticfilesDirs, AssertionError);
    }
    var dir := cfg.precompiledAssetDir.value;
    var o := EnsureAssetDirOn(host, dir);
    if o.Raised() {
      return Stopped(host.State(), settings.staticfilesDirs, o);
    }
    settings.AddStaticfilesDir(dir);
    var built := BuildCompilersOn(OrElse(cfg.compilerClasses, DefaultCompilerKinds), dir, kill, cfg, which, probe);
    if built.Failure? {
      return Stopped(host.State(), settings.staticfilesDirs, built.error);
    }
    return Ready(host.State(), settings.staticfilesDirs, built.value);
  }

  /** precompile_assets on a host; the observer is created only when watching. */
  method PrecompileAssetsOn(cfg: Config, host: Host, settings: Settings, finders: seq<Finder>,
                            which: map<string, Path>, probe: BundleProbe, watch: bool, kill: bool)
    returns (o: Outcome, observer: Observer?)
    modifies host, settings
    ensures var r := PrecompileAssets(cfg, old(host.State()), host.oracle, old(settings.staticfilesDirs),
                                      finders, which, probe, watch, kill);
            && host.State() == r.st && settings.staticfilesDirs == r.staticfilesDirs && o == r.o
            && (r.watching.Some? <==> observer != null && observer.started)
            && (r.watching.Some? ==> observer.schedules == r.watching.value)
  {
    var setup := SetUpOn(cfg, host, settings, which, probe, kill);
    o, observer := FinishOn(setup, cfg, host, settings, finders, watch, kill);
  }

  /** Finish on a host: report a stopped set-up, or compile and watch; the observer exists only when watching. */
  method FinishOn(s: Setup, cfg: Config, host: Host, settings: Settings, finders: seq<Finder>, watch: bool, kill: bool)
    returns (o: Outcome, observer: Observer?)
    requires host.State() == s.st && settings.staticfilesDirs == s.staticfilesDirs
    modifies host
    ensures var r := Finish(s, cfg, host.oracle, finders, watch, kill);
            && host.State() == r.st && settings.staticfilesDirs == r.staticfilesDirs && o == r.o
            && (r.watching.Some? <==> observer != null && observer.started)
            && (r.watching.Some? ==> observer.schedules == r.watching.value)
  {
    observer := null;
    if s.Stopped? {
      return s.o, null;
    }
    CompileAndWatchOutcome(s.compilers, cfg, s.st, host.oracle, s.staticfilesDirs, finders, watch, kill);
    if watch {
      observer := new Observer();
    }
    o := CompileAndWatchOn(s.compilers, cfg, host, s.staticfilesDirs, finders, watch, kill, observer);
  }

  method CompileAndWatchOn(compilers: seq<Compiler>, cfg: Config, host: Host, ghost dirs: seq<Path>,
                           finders: seq<Finder>, watch: bool, kill: bool, observer: Observer?) returns (o: Outcome)
    requires watch <==> observer != null
    requires observer != null ==> observer.schedules == [] && !observer.started
    modifies host, observer
    ensures var r := CompileAndWatch(compilers, cfg, old(host.State()), host.oracle, dirs, finders, watch, kill);
            && host.State() == r.st && o == r.o
            && (r.watching.Some? <==> observer != null && observer.started)
            && (r.watching.Some? ==> observer.schedules == r.watching.value)
  {
    var outputs := CollectFilesOn(compilers, finders, IgnorePatterns(cfg), IgnoreDirs(cfg));
    o := CompileBatchesOn(compilers, outputs, host);
    if o.CalledProcessError? {
      host.WarnLine(IncompleteMessage);
      o := RaiseErrorOrKill(kill);
    }
    if o.Raised() {
      return;
    }
    if watch {
      WatchAllOn(compilers, outputs, host, observer);
      observer.Start();
    }
    o := Ok;
  }
}
