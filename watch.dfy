/**
 * Watching: CompilerFSEventHandler (the destination of a changed source,
 * the reaction to each kind of file system event), Compiler.watch, which
 * schedules one handler per source directory on the observer, and
 * SassCompiler.watch, which leaves watching to a spawned `sass --watch`.
 */
module Watch {

  import opened Paths
  import opened Errors
  import opened Util
  import opened Host
  import opened Compilers
  import opened Engine

  /** A CompilerFSEventHandler: the compiler and its source-to-destination directory map. */
  datatype Handler = Handler(compiler: Compiler, dirMap: map<Path, Path>)

  /** A directory in the shape `os.path.dirname` produces, and not empty. */
  predicate DirShape(d: Path) {
    d != "" && (AllChar(d, '/') || !EndsWithChar(d, '/'))
  }

  /** The directory its map gives for the directory of `src`, when that is set and not empty. */
  function MappedDir(h: Handler, src: Path): (r: Option<Path>)
    ensures r.Some? <==> Dirname(src) in h.dirMap && h.dirMap[Dirname(src)] != ""
    ensures r.Some? ==> r.value == h.dirMap[Dirname(src)]
  {
    var srcDir := Dirname(src);
    if srcDir in h.dirMap && h.dirMap[srcDir] != "" then Some(h.dirMap[srcDir]) else None
  }

  // ---------------------------------------------------------------------------
  // get_dst_path

  /**
   * get_dst_path as written: the destination directory is joined with the
   * whole of get_dest_path's result, a path that already starts with the
   * precompiled assets directory.
   */
  function GetDstPathAsWritten(h: Handler, src: Path): (r: Option<Path>)
    ensures r.Some? <==> MappedDir(h, src).Some?
    ensures r.Some? ==> Basename(r.value) == SplitExt(Basename(src)).0 + OutputExtension(h.compiler.kind)
  {
    var dstDir := MappedDir(h, src);
    if dstDir.None? then None
    else
      var name := SplitExt(Basename(src));
      var dst := DestPath(h.compiler, name.0, name.1);
      DestFileName(h.compiler, Basename(src));
      BasenameJoin(dstDir.value, dst);
      Some(Join(dstDir.value, dst))
  }

  /**
   * get_dst_path as intended: the output file name get_dest_path gives,
   * placed in the mapped destination directory.
   */
  function GetDstPath(h: Handler, src: Path): (r: Option<Path>)
    ensures r.Some? <==> MappedDir(h, src).Some?
    ensures r.Some? ==> Basename(r.value) == SplitExt(Basename(src)).0 + OutputExtension(h.compiler.kind)
    ensures r.Some? && DirShape(MappedDir(h, src).value) ==> Dirname(r.value) == MappedDir(h, src).value
  {
    var dstDir := MappedDir(h, src);
    if dstDir.None? then None
    else
      var name := SplitExt(Basename(src));
      var fileName := Basename(DestPath(h.compiler, name.0, name.1));
      DestFileName(h.compiler, Basename(src));
      JoinFileName(dstDir.value, fileName);
      Some(Join(dstDir.value, fileName))
  }

  /** The output file name of a source file name: its stem and the output extension. */
  lemma DestFileName(c: Compiler, name: Path)
    requires '/' !in name
    ensures var stem := SplitExt(name).0;
            var fileName := Basename(DestPath(c, stem, SplitExt(name).1));
            && fileName == stem + OutputExtension(c.kind)
            && fileName != "" && '/' !in fileName && !IsAbsolute(fileName)
  {
    var stem := SplitExt(name).0;
    StemHasNoSlash(name);
    var fileName := stem + OutputExtension(c.kind);
    NoSlashConcat(stem, OutputExtension(c.kind));
    BasenameOfPlainName(fileName);
    assert fileName != "" by { assert |OutputExtension(c.kind)| > 0; }
    assert fileName[0] != '/' by {
      if stem == "" { assert fileName[0] == OutputExtension(c.kind)[0]; } else { assert fileName[0] == stem[0]; }
    }
  }

  /** A file name joined to a directory is the basename of the result, and the directory its dirname. */
  lemma JoinFileName(dir: Path, name: Path)
    requires name != "" && '/' !in name
    ensures Basename(Join(dir, name)) == name
    ensures DirShape(dir) ==> Dirname(Join(dir, name)) == dir
  {
    BasenameJoin(dir, name);
    RFindNone(name, '/');
    if DirShape(dir) {
      SplitJoin(dir, name);
    }
  }

  /**
   * With an absolute precompiled assets directory, get_dst_path as written
   * ignores the directory map entirely: every changed source is compiled to
   * the top of the assets directory.
   */
  lemma GetDstPathAsWrittenIgnoresMap(h: Handler, src: Path)
    requires IsAbsolute(h.compiler.assetsDir) && !EndsWithChar(h.compiler.assetsDir, '/')
    requires MappedDir(h, src).Some?
    ensures GetDstPathAsWritten(h, src).Some?
    ensures Dirname(GetDstPathAsWritten(h, src).value) == h.compiler.assetsDir
  {
    var name := SplitExt(Basename(src));
    DestFileName(h.compiler, Basename(src));
    DestPathInAssetsDir(h.compiler, name.0, name.1);
  }

  /**
   * With a relative precompiled assets directory, get_dst_path as written
   * nests the assets directory below the mapped one: `out/app` and `out` give
   * `out/app/out/foo.js`, again not the directory the map names.
   */
  lemma GetDstPathAsWrittenNestsRelative(h: Handler, src: Path)
    requires h.compiler.assetsDir != "" && !IsAbsolute(h.compiler.assetsDir) && !EndsWithChar(h.compiler.assetsDir, '/')
    requires MappedDir(h, src).Some? && !EndsWithChar(MappedDir(h, src).value, '/')
    ensures GetDstPathAsWritten(h, src) ==
            Some(MappedDir(h, src).value + "/" +
                 (h.compiler.assetsDir + "/" + (SplitExt(Basename(src)).0 + OutputExtension(h.compiler.kind))))
  {
    var a := h.compiler.assetsDir;
    var d := MappedDir(h, src).value;
    var name := SplitExt(Basename(src));
    var fileName := name.0 + OutputExtension(h.compiler.kind);
    DestFileName(h.compiler, Basename(src));
    OutputNameKeepsKind(name.0, OutputExtension(h.compiler.kind));
    var dst := DestPath(h.compiler, name.0, name.1);
    assert dst == a + "/" + fileName;
    assert !IsAbsolute(dst) by { assert dst[0] == a[0]; }
    JoinRelative(d, dst);
  }

  /** Below an absolute assets directory, get_dest_path of a plain stem is an absolute path directly in it. */
  lemma DestPathInAssetsDir(c: Compiler, stem: string, ext: string)
    requires IsAbsolute(c.assetsDir) && !EndsWithChar(c.assetsDir, '/')
    requires '/' !in stem + OutputExtension(c.kind) && !IsAbsolute(stem + OutputExtension(c.kind))
    ensures IsAbsolute(DestPath(c, stem, ext)) && Dirname(DestPath(c, stem, ext)) == c.assetsDir
  {
    var fileName := stem + OutputExtension(c.kind);
    assert fileName != "" by { assert |OutputExtension(c.kind)| > 0; }
    var dest := DestPath(c, stem, ext);
    assert dest == Join(c.assetsDir, fileName);
    assert dest[0] == c.assetsDir[0];
    SplitJoin(c.assetsDir, fileName);
  }

  /**
   * So wherever the map sends a source directory other than the top of the
   * assets directory, the watcher's output lands somewhere else than the
   * corrected destination.
   */
  lemma GetDstPathAsWrittenMisplaces(h: Handler, src: Path)
    requires IsAbsolute(h.compiler.assetsDir) && !EndsWithChar(h.compiler.assetsDir, '/')
    requires MappedDir(h, src).Some? && DirShape(MappedDir(h, src).value)
    requires MappedDir(h, src).value != h.compiler.assetsDir
    ensures GetDstPathAsWritten(h, src) != GetDstPath(h, src)
  {
    GetDstPathAsWrittenIgnoresMap(h, src);
  }

  /**
   * The handler Compiler.watch builds sends a source to the directory and
   * file name its batch compile used, when the batch destination has the
   * name get_dest_path gives it.
   */
  lemma WatchTargetMatchesBatch(c: Compiler, units: seq<Unit>, i: int)
    requires 0 <= i < |units| && LastForDir(units, i)
    requires Dirname(units[i].1) != ""
    requires Basename(units[i].1) == SplitExt(Basename(units[i].0)).0 + OutputExtension(c.kind)
    ensures var r := GetDstPath(Handler(c, CollectSrcDstDirMappings(units)), units[i].0);
            r.Some? && Split(r.value) == Split(units[i].1)
  {
    var h := Handler(c, CollectSrcDstDirMappings(units));
    assert MappedDir(h, units[i].0) == Some(Dirname(units[i].1));
  }

  // ---------------------------------------------------------------------------
  // CompilerFSEventHandler.compile and the event callbacks

  function NoDestinationWarning(src: Path): string {
    "Warning: No matching destination found for source " + src + ", and the source is not compiled"
  }

  /**
   * The handler's compile: a warning when there is no destination, else the
   * compiler's compile, where a failing command is reported by the tool
   * itself and swallowed here; any other error escapes.
   */
  function HandlerCompile(h: Handler, st: HostState, oracle: Oracle, src: Path): (r: Step)
    ensures !r.o.CalledProcessError?
    ensures GetDstPathAsWritten(h, src).None? ==> r == Step(Warn(st, NoDestinationWarning(src)), Ok)
    ensures GetDstPathAsWritten(h, src).Some? ==>
              var c := Compile(h.compiler, st, oracle, src, GetDstPathAsWritten(h, src).value);
              r.st == c.st && r.o == (if c.o.CalledProcessError? then Ok else c.o)
  {
    var dst := GetDstPathAsWritten(h, src);
    if dst.None? || dst.value == "" then Step(Warn(st, NoDestinationWarning(src)), Ok)
    else
      var r := Compile(h.compiler, st, oracle, src, dst.value);
      if r.o.CalledProcessError? then Step(r.st, Ok) else r
  }

  /** A watchdog file system event; `isDir` is `event.is_directory`. */
  datatype Event =
    | Created(path: Path, isDir: bool)
    | Deleted(path: Path, isDir: bool)
    | Modified(path: Path, isDir: bool)
    | Moved(path: Path, dest: Path, isDir: bool)

  /** `compiler.matches(*os.path.splitext(p))` */
  predicate FileMatches(c: Compiler, p: Path) {
    Matches(c.kind, SplitExt(p).0, SplitExt(p).1)
  }

  function DirCreatedWarning(p: Path): string {
    "Warning: New directory " + p + " created but not watched"
  }

  function DirDeletedWarning(p: Path): string {
    "Warning: Directory " + p + " deleted"
  }

  function FileDeletedWarning(p: Path): string {
    "Warning: File " + p + " deleted"
  }

  function RenameWarning(p: Path, dest: Path): string {
    "Warning: File renamed " + p + " -> " + dest
  }

  /** on_created: a new directory is only reported; a new file is handled like a modified one. */
  function OnCreated(h: Handler, st: HostState, oracle: Oracle, p: Path, isDir: bool): (r: Step)
    ensures isDir ==> r == Step(Warn(st, DirCreatedWarning(p)), Ok)
    ensures !isDir ==> r == OnModified(h, st, oracle, p, false)
  {
    if isDir then Step(Warn(st, DirCreatedWarning(p)), Ok)
    else if FileMatches(h.compiler, p) then HandlerCompile(h, st, oracle, p)
    else Step(st, Ok)
  }

  /** on_deleted: only stderr changes, by one line for a directory or a matching file. */
  function OnDeleted(h: Handler, st: HostState, p: Path, isDir: bool): (r: Step)
    ensures r.o == Ok && r.st.nodes == st.nodes && r.st.runs == st.runs && r.st.out == st.out
    ensures r.st == st.(err := r.st.err)
    ensures isDir ==> r.st.err == st.err + [DirDeletedWarning(p)]
    ensures !isDir ==> r.st.err == st.err + (if FileMatches(h.compiler, p) then [FileDeletedWarning(p)] else [])
  {
    if isDir then Step(Warn(st, DirDeletedWarning(p)), Ok)
    else if FileMatches(h.compiler, p) then Step(Warn(st, FileDeletedWarning(p)), Ok)
    else Step(st, Ok)
  }

  /** on_modified: a matching file is compiled; a directory or any other file is ignored silently. */
  function OnModified(h: Handler, st: HostState, oracle: Oracle, p: Path, isDir: bool): (r: Step)
    ensures isDir || !FileMatches(h.compiler, p) ==> r == Step(st, Ok)
    ensures !isDir && FileMatches(h.compiler, p) ==> r == HandlerCompile(h, st, oracle, p)
  {
    if !isDir && FileMatches(h.compiler, p) then HandlerCompile(h, st, oracle, p) else Step(st, Ok)
  }

  /**
   * on_moved: a moved directory is reported as deleted; a move between two
   * matching names is reported, then handled like a modification of the new
   * name; any other move of a file is ignored silently.
   */
  function OnMoved(h: Handler, st: HostState, oracle: Oracle, p: Path, dest: Path, isDir: bool): (r: Step)
    ensures isDir ==> r == OnDeleted(h, st, p, true)
    ensures !isDir && FileMatches(h.compiler, p) && FileMatches(h.compiler, dest) ==>
              r == OnModified(h, Warn(st, RenameWarning(p, dest)), oracle, dest, false)
    ensures !isDir && !(FileMatches(h.compiler, p) && FileMatches(h.compiler, dest)) ==> r == Step(st, Ok)
  {
    if isDir then Step(Warn(st, DirDeletedWarning(p)), Ok)
    else if FileMatches(h.compiler, p) && FileMatches(h.compiler, dest) then
      HandlerCompile(h, Warn(st, RenameWarning(p, dest)), oracle, dest)
    else Step(st, Ok)
  }

  /** watchdog's dispatch to the callback for the event's kind. */
  function HandleEvent(h: Handler, st: HostState, oracle: Oracle, e: Event): Step {
    match e
    case Created(p, isDir) => OnCreated(h, st, oracle, p, isDir)
    case Deleted(p, isDir) => OnDeleted(h, st, p, isDir)
    case Modified(p, isDir) => OnModified(h, st, oracle, p, isDir)
    case Moved(p, dest, isDir) => OnMoved(h, st, oracle, p, dest, isDir)
  }

  /** The path whose compile an event may trigger. */
  function Target(e: Event): Path {
    if e.Moved? then e.dest else e.path
  }

  /** An event that may compile something, and what it would compile. */
  predicate Compiles(h: Handler, e: Event) {
    !e.isDir && !e.Deleted? && FileMatches(h.compiler, e.path) &&
    (e.Moved? ==> FileMatches(h.compiler, e.dest))
  }

  /**
   * Handling an event either compiles its target as the handler's compile
   * does (after the rename warning for a move), or only writes to stderr.
   */
  lemma HandleEventCompilesOnlyMatches(h: Handler, st: HostState, oracle: Oracle, e: Event)
    ensures var r := HandleEvent(h, st, oracle, e);
            if Compiles(h, e) then
              r == HandlerCompile(h, if e.Moved? then Warn(st, RenameWarning(e.path, e.dest)) else st,
                                  oracle, Target(e))
            else
              r == Step(st.(err := st.err + EventWarnings(h, e)), Ok)
  {
  }

  /** The warnings an event that compiles nothing writes to stderr. */
  function EventWarnings(h: Handler, e: Event): seq<string> {
    match e
    case Created(p, isDir) => if isDir then [DirCreatedWarning(p)] else []
    case Deleted(p, isDir) =>
      if isDir then [DirDeletedWarning(p)] else if FileMatches(h.compiler, p) then [FileDeletedWarning(p)] else []
    case Modified(_, _) => []
    case Moved(p, _, isDir) => if isDir then [DirDeletedWarning(p)] else []
  }

  /**
   * Directory events: a new directory is reported as not watched, a deleted
   * or moved one as deleted, and a modified one is ignored silently.
   */
  lemma DirectoryEvents(h: Handler, st: HostState, oracle: Oracle, p: Path, d: Path)
    ensures HandleEvent(h, st, oracle, Created(p, true)) == Step(Warn(st, DirCreatedWarning(p)), Ok)
    ensures HandleEvent(h, st, oracle, Deleted(p, true)) == Step(Warn(st, DirDeletedWarning(p)), Ok)
    ensures HandleEvent(h, st, oracle, Moved(p, d, true)) == Step(Warn(st, DirDeletedWarning(p)), Ok)
    ensures HandleEvent(h, st, oracle, Modified(p, true)) == Step(st, Ok)
  {
  }

  /** A deleted file: one warning when the compiler matches it, nothing otherwise. */
  lemma FileDeletedEvent(h: Handler, st: HostState, oracle: Oracle, p: Path)
    ensures FileMatches(h.compiler, p) ==>
              HandleEvent(h, st, oracle, Deleted(p, false)) == Step(Warn(st, FileDeletedWarning(p)), Ok)
    ensures !FileMatches(h.compiler, p) ==> HandleEvent(h, st, oracle, Deleted(p, false)) == Step(st, Ok)
  {
  }

  /** No event raises CalledProcessError: a compile that fails only stays unfinished. */
  lemma HandleEventSwallowsCommandFailure(h: Handler, st: HostState, oracle: Oracle, e: Event)
    ensures !HandleEvent(h, st, oracle, e).o.CalledProcessError?
  {
  }

  /** A modified file whose output is up to date runs nothing. */
  lemma ModifiedUpToDateRunsNothing(h: Handler, st: HostState, oracle: Oracle, p: Path)
    requires GetDstPathAsWritten(h, p).Some? && UpToDate(st, p, GetDstPathAsWritten(h, p).value)
    ensures HandleEvent(h, st, oracle, Modified(p, false)).st.runs == st.runs
  {
    if FileMatches(h.compiler, p) {
      ModifiedCompiles(h, st, oracle, p);
      HandlerCompileUpToDate(h, st, oracle, p);
    } else {
      ModifiedIgnored(h, st, oracle, p);
    }
  }

  /** on_modified for a file the compiler does not match does nothing. */
  lemma ModifiedIgnored(h: Handler, st: HostState, oracle: Oracle, p: Path)
    requires !FileMatches(h.compiler, p)
    ensures HandleEvent(h, st, oracle, Modified(p, false)) == Step(st, Ok)
  {
  }

  /** The handler's compile of a file whose output is up to date runs nothing. */
  lemma HandlerCompileUpToDate(h: Handler, st: HostState, oracle: Oracle, p: Path)
    requires GetDstPathAsWritten(h, p).Some? && UpToDate(st, p, GetDstPathAsWritten(h, p).value)
    ensures HandlerCompile(h, st, oracle, p).st.runs == st.runs
  {
    var dst := GetDstPathAsWritten(h, p).value;
    CompileUpToDateRunsNothing(h.compiler, st, oracle, p, dst);
    assert HandlerCompile(h, st, oracle, p).st == Compile(h.compiler, st, oracle, p, dst).st;
  }

  /**
   * As written, a modified ES6 source whose output is stale makes the
   * handler raise NotImplementedError, which the handler does not catch;
   * babel is not run.
   */
  lemma ModifiedES6StaleRaises(h: Handler, st: HostState, oracle: Oracle, p: Path)
    requires h.compiler.kind == ES6 && FileMatches(h.compiler, p)
    requires GetDstPathAsWritten(h, p).Some?
    requires var dst := GetDstPathAsWritten(h, p).value;
             var made := MkdirP(st, Dirname(dst), oracle.now);
             made.o.Ok? && Stale(made.st, p, dst)
    ensures var r := HandleEvent(h, st, oracle, Modified(p, false));
            r.o == NotImplementedError && r.st.runs == st.runs && r.st.err == st.err
  {
    ModifiedCompiles(h, st, oracle, p);
    ES6CompileAsWrittenRaises(h.compiler, st, oracle, p, GetDstPathAsWritten(h, p).value);
  }

  /** on_modified for a matching file is the handler's compile of that file. */
  lemma ModifiedCompiles(h: Handler, st: HostState, oracle: Oracle, p: Path)
    requires FileMatches(h.compiler, p)
    ensures HandleEvent(h, st, oracle, Modified(p, false)) == HandlerCompile(h, st, oracle, p)
  {
    assert HandleEvent(h, st, oracle, Modified(p, false)) == OnModified(h, st, oracle, p, false);
  }

  /** Events in the order watchdog delivers them, until a callback raises. */
  function Deliver(h: Handler, st: HostState, oracle: Oracle, events: seq<Event>): Step
    decreases |events|
  {
    if events == [] then Step(st, Ok)
    else
      var r := HandleEvent(h, st, oracle, events[0]);
      if r.o.Raised() then r else Deliver(h, r.st, oracle, events[1..])
  }

  /** Events that compile nothing leave files and commands alone however many arrive. */
  lemma {:induction false} DeliverQuiet(h: Handler, st: HostState, oracle: Oracle, events: seq<Event>)
    requires forall k :: 0 <= k < |events| ==> !Compiles(h, events[k])
    ensures var r := Deliver(h, st, oracle, events);
            r.o == Ok && r.st.nodes == st.nodes && r.st.runs == st.runs && r.st.out == st.out
    decreases |events|
  {
    if events != [] {
      HandleEventCompilesOnlyMatches(h, st, oracle, events[0]);
      var r := HandleEvent(h, st, oracle, events[0]);
      DeliverQuiet(h, r.st, oracle, events[1..]);
    }
  }

  // ---------------------------------------------------------------------------
  // Compiler.watch and SassCompiler.watch

  /** One `observer.schedule(handler, dir, recursive)` call. */
  datatype Schedule = Schedule(handler: Handler, dir: Path, recursive: bool)

  /** The watchdog observer: what has been scheduled on it, and whether it runs. */
  class Observer {
    var schedules: seq<Schedule>
    var started: bool

    constructor()
      ensures schedules == [] && !started
    {
      schedules := [];
      started := false;
    }

    method ScheduleOn(handler: Handler, dir: Path, recursive: bool)
      modifies this
      ensures schedules == old(schedules) + [Schedule(handler, dir, recursive)]
      ensures started == old(started)
    {
      schedules := schedules + [Schedule(handler, dir, recursive)];
    }

    method Start()
      modifies this
      ensures started && schedules == old(schedules)
    {
      started := true;
    }
  }

  /** One non-recursive watch with `h` per directory of `dirs`, in order. */
  function SchedulesFor(h: Handler, dirs: seq<Path>): (r: seq<Schedule>)
    ensures |r| == |dirs|
    ensures forall k :: 0 <= k < |r| ==> r[k] == Schedule(h, dirs[k], false)
  {
    seq(|dirs|, k requires 0 <= k < |dirs| => Schedule(h, dirs[k], false))
  }

  /** What Compiler.watch schedules: one non-recursive watch per source directory, in map order. */
  function WatchSchedules(c: Compiler, units: seq<Unit>): seq<Schedule> {
    SchedulesFor(Handler(c, CollectSrcDstDirMappings(units)), DictKeys(units))
  }

  /** Every directory holding a source is watched exactly once. */
  lemma WatchSchedulesEachSourceDirOnce(c: Compiler, units: seq<Unit>, i: int)
    requires 0 <= i < |units|
    ensures exists k :: 0 <= k < |WatchSchedules(c, units)| && WatchSchedules(c, units)[k].dir == Dirname(units[i].0)
    ensures forall k, l :: 0 <= k < l < |WatchSchedules(c, units)| ==> WatchSchedules(c, units)[k].dir != WatchSchedules(c, units)[l].dir
  {
    var ks := DictKeys(units);
    assert Dirname(units[i].0) in CollectSrcDstDirMappings(units);
    var k :| 0 <= k < |ks| && ks[k] == Dirname(units[i].0);
    assert WatchSchedules(c, units)[k].dir == Dirname(units[i].0);
  }

  /** The argument list of SassCompiler.watch: the prefix, "--watch", then the pairs. */
  function SassWatchArgs(c: Compiler, units: seq<Unit>): seq<string> {
    c.args + ["--watch"] + DirPairs(units)
  }

  /** The watching sass process gets the same directory pairs as the updating one. */
  lemma SassWatchArgsMatchUpdate(c: Compiler, units: seq<Unit>)
    ensures SassWatchArgs(c, units) == SassUpdateArgs(c, units)[|c.args| := "--watch"]
  {
    SwapFlag(c.args, "--update", "--watch", DirPairs(units));
  }

  lemma SwapFlag(prefix: seq<string>, x: string, y: string, rest: seq<string>)
    ensures prefix + [y] + rest == (prefix + [x] + rest)[|prefix| := y]
  {
  }

  function WatchingLine(kind: Kind): string {
    "Watching for " + Name(kind) + " changes"
  }

  /** `compiler.watch(units, observer)`: the new host state and the new schedules. */
  function Watch(c: Compiler, st: HostState, schedules: seq<Schedule>, units: seq<Unit>): (HostState, seq<Schedule>) {
    if c.kind == Sass then
      (Print(st.(spawns := st.spawns + [Invocation(SassWatchArgs(c, units), c.gemfile)]), WatchingLine(Sass)), schedules)
    else (Print(st, WatchingLine(c.kind)), schedules + WatchSchedules(c, units))
  }

  /** "Watching for Sass changes" is the line the other backends print for Sass. */
  lemma WatchingLineOfSass()
    ensures WatchingLine(Sass) == "Watching for Sass changes"
  {
  }

  /** Only the Sass backend starts a process; the others only add schedules. */
  lemma WatchEffects(c: Compiler, st: HostState, schedules: seq<Schedule>, units: seq<Unit>)
    ensures var w := Watch(c, st, schedules, units);
            var st2, sch2 := w.0, w.1;
            && st2.nodes == st.nodes && st2.runs == st.runs && st2.err == st.err
            && st2.out == st.out + [WatchingLine(c.kind)]
            && (c.kind == Sass ==> st2.spawns == st.spawns + [Invocation(SassWatchArgs(c, units), c.gemfile)] && sch2 == schedules)
            && (c.kind != Sass ==> st2.spawns == st.spawns && sch2 == schedules + WatchSchedules(c, units))
  {
  }

  /** The loop of Compiler.watch. */
  method ScheduleAll(observer: Observer, h: Handler, dirs: seq<Path>)
    modifies observer
    ensures observer.schedules == old(observer.schedules) + SchedulesFor(h, dirs)
    ensures observer.started == old(observer.started)
  {
    ghost var before := observer.schedules;
    for k := 0 to |dirs|
      invariant observer.schedules == before + SchedulesFor(h, dirs)[..k]
      invariant observer.started == old(observer.started)
    {
      observer.ScheduleOn(h, dirs[k], false);
      assert SchedulesFor(h, dirs)[..k + 1] == SchedulesFor(h, dirs)[..k] + [SchedulesFor(h, dirs)[k]];
    }
    assert SchedulesFor(h, dirs)[..|dirs|] == SchedulesFor(h, dirs);
  }

  method WatchOn(c: Compiler, units: seq<Unit>, host: Host, observer: Observer)
    modifies host, observer
    ensures (host.State(), observer.schedules) == Watch(c, old(host.State()), old(observer.schedules), units)
    ensures observer.started == old(observer.started)
  {
    if c.kind == Sass {
      var args := c.args;
      args := args + ["--watch"];
      args := args + DirPairs(units);
      host.Spawn(Invocation(args, c.gemfile));
      WatchingLineOfSass();
      host.PrintLine("Watching for Sass changes");
      return;
    }
    var srcDstDirMap := CollectSrcDstDirMappings(units);
    ScheduleAll(observer, Handler(c, srcDstDirMap), DictKeys(units));
    host.PrintLine(WatchingLine(c.kind));
  }
}
