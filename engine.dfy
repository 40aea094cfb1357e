/**
 * Compiling: the staleness rule of Compiler.compile, the per-backend
 * additions (the CoffeeScript source-map rewrite, ES6's mkdir_p), the
 * fail-fast loop of Compiler.compile_all and Sass's single `--update` run.
 *
 * Each operation is a function from a host state to a `Step`, and a method on
 * a `Host` proved to do exactly that.
 */
module Engine {

  import opened Paths
  import opened Errors
  import opened Util
  import opened Host
  import opened Compilers

  // ---------------------------------------------------------------------------
  // Compiler.compile

  /** "Compiling src", then the command, if the backend has one. */
  function RunCommand(st: HostState, oracle: Oracle, src: Path, cmd: Option<seq<string>>): Step {
    var st1 := Print(st, "Compiling " + src);
    if cmd.None? then Step(st1, NotImplementedError) else CheckCall(st1, oracle, Invocation(cmd.value, None))
  }

  /**
   * Compiler.compile with a given command: an existing destination at least as
   * new as the source means there is nothing to do; an older one is removed
   * before the command runs, so that a failing command leaves no stale output.
   */
  function BaseCompileWith(st: HostState, oracle: Oracle, src: Path, dst: Path, cmd: Option<seq<string>>): Step {
    if Exists(st, dst) then
      var srcTime := GetMtime(st, src);
      if srcTime.Failure? then Step(st, srcTime.error)
      else if st.nodes[dst].mtime >= srcTime.value then Step(st, Ok)
      else
        var removed := Remove(st, dst);
        if removed.o.Raised() then removed else RunCommand(removed.st, oracle, src, cmd)
    else RunCommand(st, oracle, src, cmd)
  }

  /** Compiler.compile as written: the command is `get_command_with_arguments`. */
  function BaseCompile(c: Compiler, st: HostState, oracle: Oracle, src: Path, dst: Path): Step {
    BaseCompileWith(st, oracle, src, dst, CommandAsWritten(c, src, dst))
  }

  /** The destination exists and is at least as new as the source. */
  predicate UpToDate(st: HostState, src: Path, dst: Path) {
    Exists(st, dst) && Exists(st, src) && st.nodes[dst].mtime >= st.nodes[src].mtime
  }

  /** The command would run: the destination is absent, or older than the source and removable. */
  predicate Stale(st: HostState, src: Path, dst: Path) {
    !Exists(st, dst) ||
    (Exists(st, src) && st.nodes[dst].mtime < st.nodes[src].mtime && !IsDir(st, dst))
  }

  /** The skip rule: an up-to-date destination means no command and no change. */
  lemma BaseCompileSkips(st: HostState, oracle: Oracle, src: Path, dst: Path, cmd: Option<seq<string>>)
    requires UpToDate(st, src, dst)
    ensures BaseCompileWith(st, oracle, src, dst, cmd) == Step(st, Ok)
  {
  }

  /**
   * Otherwise the stale destination is gone, "Compiling src" is printed, and
   * the command runs exactly once; only a nonzero exit raises, and then with
   * that exit status and the command line.
   */
  lemma BaseCompileRuns(st: HostState, oracle: Oracle, src: Path, dst: Path, cmd: seq<string>)
    requires Stale(st, src, dst)
    ensures var r := BaseCompileWith(st, oracle, src, dst, Some(cmd));
            && r.st.nodes == (if Exists(st, dst) then st.nodes - {dst} else st.nodes)
            && r.st.runs == st.runs + [Invocation(cmd, None)]
            && r.st.out == st.out + ["Compiling " + src]
            && r.st.spawns == st.spawns && r.st.err == st.err
            && (r.o.Ok? <==> oracle.exitCode(Invocation(cmd, None)) == 0)
            && (!r.o.Ok? ==> r.o == CalledProcessError(Code(oracle.exitCode(Invocation(cmd, None))), Words(cmd)))
  {
  }

  /** A missing source with an existing destination is an error, and changes nothing. */
  lemma BaseCompileMissingSource(st: HostState, oracle: Oracle, src: Path, dst: Path, cmd: Option<seq<string>>)
    requires Exists(st, dst) && !Exists(st, src)
    ensures BaseCompileWith(st, oracle, src, dst, cmd) == Step(st, OSError(ENOENT, src))
  {
  }

  /** Whatever happens, the old destination never survives a command run. */
  lemma BaseCompileNoStaleOutput(st: HostState, oracle: Oracle, src: Path, dst: Path, cmd: Option<seq<string>>)
    ensures var r := BaseCompileWith(st, oracle, src, dst, cmd);
            |r.st.runs| > |st.runs| ==> dst !in r.st.nodes || !Exists(st, dst)
  {
  }

  // ---------------------------------------------------------------------------
  // CoffeescriptCompiler.compile

  /**
   * The map rewrite after a compile that did not raise: nothing happens
   * without a map file; otherwise it must hold a JSON object, which is written
   * back with the two keys replaced.
   */
  function RewriteMapFile(st: HostState, mapPath: Path, src: Path): (r: Step)
    ensures !Exists(st, mapPath) ==> r == Step(st, Ok)
  {
    if !Exists(st, mapPath) then Step(st, Ok)
    else
      var fields := ReadJsonObject(st, mapPath);
      if fields.Failure? then Step(st, fields.error)
      else Step(WriteFile(st, mapPath, JsonObject(RewriteSourceMap(fields.value, src))), Ok)
  }

  function CoffeeScriptCompile(c: Compiler, st: HostState, oracle: Oracle, src: Path, dst: Path): Step {
    var r := BaseCompile(c, st, oracle, src, dst);
    if r.o.Raised() then r else RewriteMapFile(r.st, MapPath(dst), src)
  }

  /** A compile that raises leaves the map file alone. */
  lemma CoffeeScriptCompileRaisedLeavesMap(c: Compiler, st: HostState, oracle: Oracle, src: Path, dst: Path)
    requires BaseCompile(c, st, oracle, src, dst).o.Raised()
    ensures CoffeeScriptCompile(c, st, oracle, src, dst) == BaseCompile(c, st, oracle, src, dst)
  {
  }

  /**
   * After a compile that did not raise, including the skip, a map holding a
   * JSON object now holds the rewritten object, and nothing else changed.
   */
  lemma CoffeeScriptCompileRewritesMap(c: Compiler, st: HostState, oracle: Oracle, src: Path, dst: Path)
    requires BaseCompile(c, st, oracle, src, dst).o.Ok?
    requires var b := BaseCompile(c, st, oracle, src, dst).st;
             Exists(b, MapPath(dst)) && b.nodes[MapPath(dst)].File? && b.nodes[MapPath(dst)].content.JsonObject?
    ensures var b := BaseCompile(c, st, oracle, src, dst).st;
            var r := CoffeeScriptCompile(c, st, oracle, src, dst);
            && r.o == Ok
            && r.st.nodes[MapPath(dst)].content == JsonObject(RewriteSourceMap(b.nodes[MapPath(dst)].content.fields, src))
            && r.st.nodes.Keys == b.nodes.Keys
            && (forall p :: p in b.nodes && p != MapPath(dst) ==> r.st.nodes[p] == b.nodes[p])
            && r.st.runs == b.runs && r.st.out == b.out && r.st.err == b.err
  {
  }

  /** An up-to-date destination still gets its map rewritten, and no command runs. */
  lemma CoffeeScriptCompileSkipRewritesMap(c: Compiler, st: HostState, oracle: Oracle, src: Path, dst: Path)
    requires UpToDate(st, src, dst)
    ensures CoffeeScriptCompile(c, st, oracle, src, dst) == RewriteMapFile(st, MapPath(dst), src)
  {
  }

  // ---------------------------------------------------------------------------
  // es6.py: mkdir_p and ES6Compiler.compile

  /** mkdir_p: makedirs, where "already exists" is no error if a directory is there. */
  function MkdirP(st: HostState, p: Path, now: int): (r: Step)
    ensures OnlyAddsDirs(st, r.st)
    ensures r.o.Ok? || r.o.OSError?
    ensures !r.o.Ok? ==> r == Makedirs(st, p, now)
    ensures var m := Makedirs(st, p, now); IsEexist(m.o) && IsDir(m.st, p) ==> r.o.Ok? && r.st == m.st
    ensures var m := Makedirs(st, p, now); !(IsEexist(m.o) && IsDir(m.st, p)) ==> r == m
  {
    var r := Makedirs(st, p, now);
    if IsEexist(r.o) && IsDir(r.st, p) then Step(r.st, Ok) else r
  }

  /** mkdir_p on a directory that already exists succeeds and changes nothing. */
  lemma MkdirPExisting(st: HostState, p: Path, now: int)
    requires WellFormed(st) && IsDir(st, p)
    ensures MkdirP(st, p, now) == Step(st, Ok)
  {
    MakedirsOfExistingDir(st, p, now);
  }

  function ES6CompileWith(c: Compiler, st: HostState, oracle: Oracle, src: Path, dst: Path, cmd: Option<seq<string>>): Step {
    var made := MkdirP(st, Dirname(dst), oracle.now);
    if made.o.Raised() then made else BaseCompileWith(made.st, oracle, src, dst, cmd)
  }

  /** ES6Compiler.compile as intended: the command is its `get_arguments`. */
  function ES6Compile(c: Compiler, st: HostState, oracle: Oracle, src: Path, dst: Path): Step {
    ES6CompileWith(c, st, oracle, src, dst, Command(c, src, dst))
  }

  /** ES6Compiler.compile as written: the base class looks up the stub `get_command_with_arguments`. */
  function ES6CompileAsWritten(c: Compiler, st: HostState, oracle: Oracle, src: Path, dst: Path): Step {
    ES6CompileWith(c, st, oracle, src, dst, CommandAsWritten(c, src, dst))
  }

  lemma StaleAfterAddingDirs(st: HostState, st2: HostState, src: Path, dst: Path)
    requires OnlyAddsDirs(st, st2) && Stale(st, src, dst) && Exists(st, dst)
    ensures Stale(st2, src, dst)
  {
  }

  /**
   * As written, an ES6 compile that gets past the staleness check removes the
   * old output and then fails with NotImplementedError, without running babel.
   */
  lemma ES6CompileAsWrittenFails(c: Compiler, st: HostState, oracle: Oracle, src: Path, dst: Path)
    requires c.kind == ES6 && Exists(st, dst) && Stale(st, src, dst)
    requires MkdirP(st, Dirname(dst), oracle.now).o.Ok?
    ensures var r := ES6CompileAsWritten(c, st, oracle, src, dst);
            r.o == NotImplementedError && r.st.runs == st.runs && dst !in r.st.nodes
  {
    var made := MkdirP(st, Dirname(dst), oracle.now);
    StaleAfterAddingDirs(st, made.st, src, dst);
    ES6CompileAsWrittenRaises(c, st, oracle, src, dst);
  }

  /**
   * As written, an ES6 compile whose destination is stale once its directory
   * exists (missing, or older than the source) prints "Compiling src" and
   * raises NotImplementedError: no command runs and nothing goes to stderr.
   */
  lemma ES6CompileAsWrittenRaises(c: Compiler, st: HostState, oracle: Oracle, src: Path, dst: Path)
    requires c.kind == ES6
    requires MkdirP(st, Dirname(dst), oracle.now).o.Ok?
    requires Stale(MkdirP(st, Dirname(dst), oracle.now).st, src, dst)
    ensures var r := ES6CompileAsWritten(c, st, oracle, src, dst);
            && r.o == NotImplementedError
            && r.st.runs == st.runs && r.st.spawns == st.spawns && r.st.err == st.err
            && r.st.out == st.out + ["Compiling " + src]
            && !Exists(r.st, dst)
  {
    var made := MkdirP(st, Dirname(dst), oracle.now);
    assert CommandAsWritten(c, src, dst) == None;
    BaseCompileWithoutCommand(made.st, oracle, src, dst);
  }

  /** A stale destination with no command to run: removed, "Compiling src", NotImplementedError. */
  lemma BaseCompileWithoutCommand(st: HostState, oracle: Oracle, src: Path, dst: Path)
    requires Stale(st, src, dst)
    ensures var r := BaseCompileWith(st, oracle, src, dst, None);
            && r.o == NotImplementedError
            && r.st.runs == st.runs && r.st.spawns == st.spawns && r.st.err == st.err
            && r.st.out == st.out + ["Compiling " + src]
            && !Exists(r.st, dst)
  {
  }

  /** The first run: with no destination at all, the as-written ES6 compile raises. */
  lemma ES6CompileAsWrittenFailsOnFirstRun(c: Compiler, st: HostState, oracle: Oracle, src: Path, dst: Path)
    requires c.kind == ES6
    requires MkdirP(st, Dirname(dst), oracle.now).o.Ok? && !Exists(MkdirP(st, Dirname(dst), oracle.now).st, dst)
    ensures var r := ES6CompileAsWritten(c, st, oracle, src, dst);
            r.o == NotImplementedError && r.st.runs == st.runs && !Exists(r.st, dst)
  {
    ES6CompileAsWrittenRaises(c, st, oracle, src, dst);
  }

  /** With `get_arguments` as the command, the first-run compile runs babel once. */
  lemma ES6CompileRunsBabelOnFirstRun(c: Compiler, st: HostState, oracle: Oracle, src: Path, dst: Path)
    requires c.kind == ES6
    requires MkdirP(st, Dirname(dst), oracle.now).o.Ok? && !Exists(MkdirP(st, Dirname(dst), oracle.now).st, dst)
    ensures var r := ES6Compile(c, st, oracle, src, dst);
            var inv := Invocation([c.executable, "--source-maps true", "-o", dst, src], None);
            r.st.runs == st.runs + [inv] && (r.o.Ok? <==> oracle.exitCode(inv) == 0)
  {
    var made := MkdirP(st, Dirname(dst), oracle.now);
    BaseCompileRuns(made.st, oracle, src, dst, ES6Arguments(c, src, dst));
  }

  /** With `get_arguments` as the command, the same compile runs babel once. */
  lemma ES6CompileRunsBabel(c: Compiler, st: HostState, oracle: Oracle, src: Path, dst: Path)
    requires c.kind == ES6 && Exists(st, dst) && Stale(st, src, dst)
    requires MkdirP(st, Dirname(dst), oracle.now).o.Ok?
    ensures var r := ES6Compile(c, st, oracle, src, dst);
            var inv := Invocation([c.executable, "--source-maps true", "-o", dst, src], None);
            r.st.runs == st.runs + [inv] && dst !in r.st.nodes &&
            (r.o.Ok? <==> oracle.exitCode(inv) == 0)
  {
    var made := MkdirP(st, Dirname(dst), oracle.now);
    StaleAfterAddingDirs(st, made.st, src, dst);
    BaseCompileRuns(made.st, oracle, src, dst, ES6Arguments(c, src, dst));
  }

  // ---------------------------------------------------------------------------
  // Dispatch and compile_all

  /** `compiler.compile(src, dst)` for the backend at hand. */
  function Compile(c: Compiler, st: HostState, oracle: Oracle, src: Path, dst: Path): Step {
    match c.kind
    case CoffeeScript => CoffeeScriptCompile(c, st, oracle, src, dst)
    case ES6 => ES6CompileAsWritten(c, st, oracle, src, dst)
    case Sass => BaseCompile(c, st, oracle, src, dst)
  }

  /** No backend runs a command for an up-to-date destination. */
  lemma CompileUpToDateRunsNothing(c: Compiler, st: HostState, oracle: Oracle, src: Path, dst: Path)
    requires UpToDate(st, src, dst)
    ensures Compile(c, st, oracle, src, dst).st.runs == st.runs
    ensures Compile(c, st, oracle, src, dst).st.nodes.Keys == st.nodes.Keys || c.kind == ES6
  {
    match c.kind {
      case CoffeeScript =>
        BaseCompileSkips(st, oracle, src, dst, CommandAsWritten(c, src, dst));
        CoffeeScriptCompileSkipRewritesMap(c, st, oracle, src, dst);
      case ES6 =>
        var made := MkdirP(st, Dirname(dst), oracle.now);
        assert UpToDate(made.st, src, dst);
        BaseCompileSkips(made.st, oracle, src, dst, CommandAsWritten(c, src, dst));
      case Sass =>
        BaseCompileSkips(st, oracle, src, dst, CommandAsWritten(c, src, dst));
    }
  }

  /** The loop of compile_all: in order, stopping at the first compile that raises. */
  function CompileEach(c: Compiler, st: HostState, oracle: Oracle, units: seq<Unit>): Step
    decreases |units|
  {
    if units == [] then Step(st, Ok)
    else
      var r := Compile(c, st, oracle, units[0].0, units[0].1);
      if r.o.Raised() then r else CompileEach(c, r.st, oracle, units[1..])
  }

  /** Once a compile has raised, later units are never looked at. */
  lemma {:induction false} CompileEachFailFast(c: Compiler, st: HostState, oracle: Oracle, us: seq<Unit>, vs: seq<Unit>)
    requires CompileEach(c, st, oracle, us).o.Raised()
    ensures CompileEach(c, st, oracle, us + vs) == CompileEach(c, st, oracle, us)
    decreases |us|
  {
    assert us != [];
    assert (us + vs)[0] == us[0] && (us + vs)[1..] == us[1..] + vs;
    var r := Compile(c, st, oracle, us[0].0, us[0].1);
    if !r.o.Raised() {
      CompileEachFailFast(c, r.st, oracle, us[1..], vs);
    }
  }

  /** When no compile raises, the units after them start from the state they left. */
  lemma {:induction false} CompileEachAppend(c: Compiler, st: HostState, oracle: Oracle, us: seq<Unit>, vs: seq<Unit>)
    requires !CompileEach(c, st, oracle, us).o.Raised()
    ensures CompileEach(c, st, oracle, us + vs) == CompileEach(c, CompileEach(c, st, oracle, us).st, oracle, vs)
    decreases |us|
  {
    if us == [] {
      assert us + vs == vs;
    } else {
      assert (us + vs)[0] == us[0] && (us + vs)[1..] == us[1..] + vs;
      var r := Compile(c, st, oracle, us[0].0, us[0].1);
      assert CompileEach(c, st, oracle, us) == (if r.o.Raised() then r else CompileEach(c, r.st, oracle, us[1..]));
      assert !r.o.Raised();
      assert CompileEach(c, st, oracle, us + vs) == CompileEach(c, r.st, oracle, us[1..] + vs);
      CompileEachAppend(c, r.st, oracle, us[1..], vs);
    }
  }

  function StartLine(kind: Kind): string {
    "Start precompiling " + Name(kind) + " files"
  }

  function EndLine(kind: Kind): string {
    "End precompiling " + Name(kind) + " files"
  }

  /** Compiler.compile_all: the loop between a start and an end line. */
  function BaseCompileAll(c: Compiler, st: HostState, oracle: Oracle, units: seq<Unit>): Step {
    var r := CompileEach(c, Print(st, StartLine(c.kind)), oracle, units);
    if r.o.Raised() then r else Step(Print(r.st, EndLine(c.kind)), Ok)
  }

  /**
   * As written, ES6 compile_all stops at its first unit whose destination is
   * stale: NotImplementedError, no command run, nothing on stderr.
   */
  lemma CompileAllES6Raises(c: Compiler, st: HostState, oracle: Oracle, units: seq<Unit>)
    requires c.kind == ES6 && units != []
    requires var made := MkdirP(Print(st, StartLine(ES6)), Dirname(units[0].1), oracle.now);
             made.o.Ok? && Stale(made.st, units[0].0, units[0].1)
    ensures var r := CompileAll(c, st, oracle, units);
            r.o == NotImplementedError && r.st.runs == st.runs && r.st.spawns == st.spawns && r.st.err == st.err
  {
    var st1 := Print(st, StartLine(ES6));
    var r0 := ES6CompileAsWritten(c, st1, oracle, units[0].0, units[0].1);
    ES6CompileAsWrittenRaises(c, st1, oracle, units[0].0, units[0].1);
    assert Compile(c, st1, oracle, units[0].0, units[0].1) == r0;
    assert CompileEach(c, st1, oracle, units) == r0;
    assert CompileAll(c, st, oracle, units) == BaseCompileAll(c, st, oracle, units);
  }

  /** The command of SassCompiler.compile_all: the prefix, "--update", then the pairs. */
  function SassUpdateArgs(c: Compiler, units: seq<Unit>): seq<string> {
    c.args + ["--update"] + DirPairs(units)
  }

  /**
   * SassCompiler.compile_all: one sass run over all directory pairs. The
   * error it raises puts the program name where CalledProcessError expects
   * the exit status, and the exit status where it expects the command.
   */
  function SassCompileAll(c: Compiler, st: HostState, oracle: Oracle, units: seq<Unit>): (r: Step)
    ensures r.st.runs == st.runs + [Invocation(SassUpdateArgs(c, units), c.gemfile)]
    ensures r.o.Ok? <==> oracle.exitCode(Invocation(SassUpdateArgs(c, units), c.gemfile)) == 0
    ensures !r.o.Ok? ==>
              r.o == CalledProcessError(Word(SassUpdateArgs(c, units)[0]),
                                        Code(oracle.exitCode(Invocation(SassUpdateArgs(c, units), c.gemfile))))
    ensures r.st.nodes == st.nodes && r.st.spawns == st.spawns && r.st.err == st.err
  {
    var args := SassUpdateArgs(c, units);
    var inv := Invocation(args, c.gemfile);
    var st1 := Print(st, StartLine(Sass)).(runs := st.runs + [inv]);
    var code := oracle.exitCode(inv);
    if code != 0 then Step(st1, CalledProcessError(Word(args[0]), Code(code)))
    else Step(Print(st1, EndLine(Sass)), Ok)
  }

  /** `compiler.compile_all(units)` for the backend at hand. */
  function CompileAll(c: Compiler, st: HostState, oracle: Oracle, units: seq<Unit>): Step {
    if c.kind == Sass then SassCompileAll(c, st, oracle, units) else BaseCompileAll(c, st, oracle, units)
  }

  /** The Sass run's arguments keep the command prefix intact. */
  lemma SassUpdateArgsShape(c: Compiler, units: seq<Unit>)
    ensures SassUpdateArgs(c, units)[..|c.args|] == c.args
    ensures SassUpdateArgs(c, units)[|c.args|] == "--update"
    ensures SassUpdateArgs(c, units)[|c.args| + 1..] == DirPairs(units)
  {
    var head := c.args + ["--update"];
    assert SassUpdateArgs(c, units) == head + DirPairs(units);
    assert |head| == |c.args| + 1;
    assert (head + DirPairs(units))[..|head|] == head;
    assert (head + DirPairs(units))[|head|..] == DirPairs(units);
    assert head[..|c.args|] == c.args;
  }

  // ---------------------------------------------------------------------------
  // The same operations on a Host

  method RunCommandOn(h: Host, src: Path, cmd: Option<seq<string>>) returns (o: Outcome)
    modifies h
    ensures Step(h.State(), o) == RunCommand(old(h.State()), h.oracle, src, cmd)
  {
    h.PrintLine("Compiling " + src);
    if cmd.None? {
      o := NotImplementedError;
    } else {
      o := h.Call(Invocation(cmd.value, None));
    }
  }

  method BaseCompileOn(h: Host, src: Path, dst: Path, cmd: Option<seq<string>>) returns (o: Outcome)
    modifies h
    ensures Step(h.State(), o) == BaseCompileWith(old(h.State()), h.oracle, src, dst, cmd)
  {
    var dstExists := h.PathExists(dst);
    if dstExists {
      var dstTime := h.GetModificationTime(dst);
      var srcTime := h.GetModificationTime(src);
      if srcTime.Failure? {
        return srcTime.error;
      }
      if dstTime.value >= srcTime.value {
        return Ok;
      }
      o := h.RemoveFile(dst);
      if o.Raised() {
        return;
      }
    }
    o := RunCommandOn(h, src, cmd);
  }

  method RewriteMapFileOn(h: Host, mapPath: Path, src: Path) returns (o: Outcome)
    modifies h
    ensures Step(h.State(), o) == RewriteMapFile(old(h.State()), mapPath, src)
  {
    var mapExists := h.PathExists(mapPath);
    if !mapExists {
      return Ok;
    }
    var fields := h.LoadJsonObject(mapPath);
    if fields.Failure? {
      return fields.error;
    }
    var mapData := fields.value;
    mapData := mapData["sourceRoot" := JString("")];
    mapData := mapData["sources" := JStrings([Basename(src)])];
    h.Overwrite(mapPath, JsonObject(mapData));
    o := Ok;
  }

  method MkdirPOn(h: Host, p: Path) returns (o: Outcome)
    modifies h
    ensures Step(h.State(), o) == MkdirP(old(h.State()), p, h.oracle.now)
  {
    o := h.MakeDirectories(p);
    if IsEexist(o) {
      var isDir := h.PathIsDir(p);
      if isDir {
        o := Ok;
      }
    }
  }

  method CompileOn(c: Compiler, h: Host, src: Path, dst: Path) returns (o: Outcome)
    modifies h
    ensures Step(h.State(), o) == Compile(c, old(h.State()), h.oracle, src, dst)
  {
    match c.kind {
      case CoffeeScript =>
        o := BaseCompileOn(h, src, dst, CommandAsWritten(c, src, dst));
        if !o.Raised() {
          o := RewriteMapFileOn(h, MapPath(dst), src);
        }
      case ES6 =>
        o := MkdirPOn(h, Dirname(dst));
        if !o.Raised() {
          o := BaseCompileOn(h, src, dst, CommandAsWritten(c, src, dst));
        }
      case Sass =>
        o := BaseCompileOn(h, src, dst, CommandAsWritten(c, src, dst));
    }
  }

  method SassCompileAllOn(c: Compiler, h: Host, units: seq<Unit>) returns (o: Outcome)
    modifies h
    ensures Step(h.State(), o) == SassCompileAll(c, old(h.State()), h.oracle, units)
  {
    h.PrintLine(StartLine(Sass));
    var args := c.args;
    args := args + ["--update"];
    args := args + DirPairs(units);
    var code := h.RunAndWait(Invocation(args, c.gemfile));
    if code != 0 {
      return CalledProcessError(Word(args[0]), Code(code));
    }
    h.PrintLine(EndLine(Sass));
    o := Ok;
  }

  /** `compiler.compile_all(units)`: a for loop over the units. */
  method CompileAllOn(c: Compiler, h: Host, units: seq<Unit>) returns (o: Outcome)
    modifies h
    ensures Step(h.State(), o) == CompileAll(c, old(h.State()), h.oracle, units)
  {
    if c.kind == Sass {
      o := SassCompileAllOn(c, h, units);
      return;
    }
    h.PrintLine(StartLine(c.kind));
    ghost var start := h.State();
    var i := 0;
    while i < |units|
      invariant 0 <= i <= |units|
      invariant CompileEach(c, start, h.oracle, units) == CompileEach(c, h.State(), h.oracle, units[i..])
    {
      assert units[i..][0] == units[i] && units[i..][1..] == units[i + 1..];
      o := CompileOn(c, h, units[i].0, units[i].1);
      if o.Raised() {
        return;
      }
      i := i + 1;
    }
    h.PrintLine(EndLine(c.kind));
    o := Ok;
  }
}
