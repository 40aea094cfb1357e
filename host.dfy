/**
 * The outside world the core acts on: a filesystem of files and directories
 * with integer modification times, the processes it runs or spawns, and the
 * lines it prints to stdout and stderr.
 *
 * Every operation is specified by a pure function on a `HostState` snapshot;
 * the `Host` class carries the same state in fields and its methods are proved
 * to change it exactly as those functions say. Paths are the strings the code
 * passes: they are not normalised, so "a/b" and "a/b/" are different entries.
 */
module Host {

  import opened Paths
  import opened Errors

  /** A JSON value as far as the source-map rewrite cares about it. */
  datatype JsonValue =
    | JString(str: string)
    | JStrings(items: seq<string>)
      /** any other JSON value, kept by its text */
    | JOther(text: string)

  /** A file's content: a JSON object, or anything that is not one. */
  datatype Content = Opaque(text: string) | JsonObject(fields: map<string, JsonValue>)

  datatype Node = File(mtime: int, content: Content) | Dir(mtime: int)

  /** A command line and the BUNDLE_GEMFILE its environment carries, if any. */
  datatype Invocation = Invocation(args: seq<string>, gemfile: Option<Path>)

  /**
   * What the model does not compute: the exit status each external command
   * ends with, and the modification time given to a directory it creates.
   */
  datatype Oracle = Oracle(exitCode: Invocation -> int, now: int)

  datatype HostState = HostState(
    nodes: map<Path, Node>,
    /** commands run to completion, in order */
    runs: seq<Invocation>,
    /** commands started in the background, in order */
    spawns: seq<Invocation>,
    out: seq<string>,
    err: seq<string>)

  /** The state after an operation and how the operation ended. */
  datatype Step = Step(st: HostState, o: Outcome)

  /** `os.path.exists(p)` (false for the empty path). */
  predicate Exists(st: HostState, p: Path) {
    p != "" && p in st.nodes
  }

  /** `os.path.isdir(p)` */
  predicate IsDir(st: HostState, p: Path) {
    Exists(st, p) && st.nodes[p].Dir?
  }

  /** `st2` is `st` with some directories added and nothing else changed. */
  predicate OnlyAddsDirs(st: HostState, st2: HostState) {
    && st2.runs == st.runs && st2.spawns == st.spawns && st2.out == st.out && st2.err == st.err
    && (forall p :: p in st.nodes ==> p in st2.nodes && st2.nodes[p] == st.nodes[p])
    && (forall p :: p in st2.nodes && p !in st.nodes ==> st2.nodes[p].Dir?)
  }

  lemma OnlyAddsDirsTrans(st: HostState, st2: HostState, st3: HostState)
    requires OnlyAddsDirs(st, st2) && OnlyAddsDirs(st2, st3)
    ensures OnlyAddsDirs(st, st3)
  {
  }

  /** `os.path.getmtime(p)` */
  function GetMtime(st: HostState, p: Path): (r: Result<int>)
    ensures r.Success? <==> Exists(st, p)
    ensures r.Failure? ==> r.error == OSError(ENOENT, p)
  {
    if !Exists(st, p) then Failure(OSError(ENOENT, p)) else Success(st.nodes[p].mtime)
  }

  /** `os.mkdir(p)` */
  function Mkdir(st: HostState, p: Path, now: int): (r: Step)
    ensures r.o.Ok? || r.o.OSError?
    ensures r.o.Ok? <==> !Exists(st, p) && p != "" && (Dirname(p) == "" || IsDir(st, Dirname(p)))
    ensures r.o.Ok? ==> r.st == st.(nodes := st.nodes[p := Dir(now)])
    ensures !r.o.Ok? ==> r.st == st
    ensures Exists(st, p) ==> r.o == OSError(EEXIST, p)
    ensures OnlyAddsDirs(st, r.st)
  {
    if p == "" then Step(st, OSError(ENOENT, p))
    else if Exists(st, p) then Step(st, OSError(EEXIST, p))
    else
      var parent := Dirname(p);
      if parent != "" && !Exists(st, parent) then Step(st, OSError(ENOENT, p))
      else if parent != "" && !IsDir(st, parent) then Step(st, OSError(ENOTDIR, p))
      else Step(st.(nodes := st.nodes[p := Dir(now)]), Ok)
  }

  /**
   * The head and tail `os.makedirs` works with: a trailing separator is split
   * off once more, so "a/b/" is handled as head "a", tail "b".
   */
  function MakedirsSplit(name: Path): (r: (Path, Path))
    ensures r.1 != "" ==> |r.0| < |name|
  {
    var s := Split(name);
    if s.1 == "" then Split(s.0) else s
  }

  predicate IsEexist(o: Outcome) {
    o.OSError? && o.errno == EEXIST
  }

  /**
   * `os.makedirs(name)`: create a missing parent first (an "already exists"
   * error from doing so is ignored), then create `name` itself, unless the
   * last component is "." in which case creating the parent was enough.
   */
  function Makedirs(st: HostState, name: Path, now: int): (r: Step)
    ensures OnlyAddsDirs(st, r.st)
    ensures r.o.Ok? || r.o.OSError?
    decreases |name|
  {
    var s := MakedirsSplit(name);
    var head, tail := s.0, s.1;
    if head != "" && tail != "" && !Exists(st, head) then
      var sub := Makedirs(st, head, now);
      if sub.o.Raised() && !IsEexist(sub.o) then sub
      else if tail == "." then Step(sub.st, Ok)
      else
        var r := Mkdir(sub.st, name, now);
        OnlyAddsDirsTrans(st, sub.st, r.st);
        r
    else Mkdir(st, name, now)
  }

  /** `os.remove(p)` */
  function Remove(st: HostState, p: Path): (r: Step)
    ensures r.o.Ok? <==> Exists(st, p) && !IsDir(st, p)
    ensures r.o.Ok? ==> r.st == st.(nodes := st.nodes - {p})
    ensures !r.o.Ok? ==> r.st == st && r.o.OSError?
  {
    if !Exists(st, p) then Step(st, OSError(ENOENT, p))
    else if IsDir(st, p) then Step(st, OSError(EISDIR, p))
    else Step(st.(nodes := st.nodes - {p}), Ok)
  }

  /**
   * Reading a JSON file into a dict, the way the source-map rewrite does:
   * opening a directory fails, and content that is not a JSON object cannot
   * have keys assigned.
   */
  function ReadJsonObject(st: HostState, p: Path): (r: Result<map<string, JsonValue>>)
    ensures r.Success? <==> Exists(st, p) && st.nodes[p].File? && st.nodes[p].content.JsonObject?
    ensures r.Success? ==> r.value == st.nodes[p].content.fields
  {
    if !Exists(st, p) then Failure(OSError(ENOENT, p))
    else if IsDir(st, p) then Failure(OSError(EISDIR, p))
    else if !st.nodes[p].content.JsonObject? then Failure(InvalidSourceMap(p))
    else Success(st.nodes[p].content.fields)
  }

  /**
   * Overwriting an existing regular file's content. The model gives the file
   * no new modification time.
   */
  function WriteFile(st: HostState, p: Path, c: Content): (r: HostState)
    requires Exists(st, p) && st.nodes[p].File?
    ensures r.nodes.Keys == st.nodes.Keys
    ensures r.nodes[p] == File(st.nodes[p].mtime, c)
    ensures forall q :: q in st.nodes && q != p ==> r.nodes[q] == st.nodes[q]
    ensures r.runs == st.runs && r.spawns == st.spawns && r.out == st.out && r.err == st.err
  {
    st.(nodes := st.nodes[p := File(st.nodes[p].mtime, c)])
  }

  /** `subprocess.check_call(args)`: run to completion, raise on a nonzero exit status. */
  function CheckCall(st: HostState, oracle: Oracle, inv: Invocation): (r: Step)
    ensures r.st == st.(runs := st.runs + [inv])
    ensures r.o.Ok? <==> oracle.exitCode(inv) == 0
    ensures !r.o.Ok? ==> r.o == CalledProcessError(Code(oracle.exitCode(inv)), Words(inv.args))
  {
    var code := oracle.exitCode(inv);
    Step(st.(runs := st.runs + [inv]), if code == 0 then Ok else CalledProcessError(Code(code), Words(inv.args)))
  }

  function Print(st: HostState, line: string): HostState {
    st.(out := st.out + [line])
  }

  function Warn(st: HostState, line: string): HostState {
    st.(err := st.err + [line])
  }

  /** The whole world the core sees, as mutable state. */
  class Host {
    var nodes: map<Path, Node>
    var runs: seq<Invocation>
    var spawns: seq<Invocation>
    var out: seq<string>
    var err: seq<string>
    const oracle: Oracle

    constructor (st: HostState, oracle: Oracle)
      ensures State() == st && this.oracle == oracle
    {
      nodes, runs, spawns, out, err := st.nodes, st.runs, st.spawns, st.out, st.err;
      this.oracle := oracle;
    }

    function State(): HostState
      reads this
    {
      HostState(nodes, runs, spawns, out, err)
    }

    method SetState(st: HostState)
      modifies this
      ensures State() == st
    {
      nodes, runs, spawns, out, err := st.nodes, st.runs, st.spawns, st.out, st.err;
    }

    /** `os.path.exists(p)` */
    method PathExists(p: Path) returns (b: bool)
      ensures b == Exists(State(), p)
    {
      b := p != "" && p in nodes;
    }

    /** `os.path.isdir(p)` */
    method PathIsDir(p: Path) returns (b: bool)
      ensures b == IsDir(State(), p)
    {
      b := p != "" && p in nodes && nodes[p].Dir?;
    }

    method GetModificationTime(p: Path) returns (r: Result<int>)
      ensures r == GetMtime(State(), p)
    {
      if p != "" && p in nodes {
        r := Success(nodes[p].mtime);
      } else {
        r := Failure(OSError(ENOENT, p));
      }
    }

    method MakeDirectory(p: Path) returns (o: Outcome)
      modifies this
      ensures Step(State(), o) == Mkdir(old(State()), p, oracle.now)
    {
      var parent := Dirname(p);
      if p == "" {
        o := OSError(ENOENT, p);
      } else if p in nodes {
        o := OSError(EEXIST, p);
      } else if parent != "" && parent !in nodes {
        o := OSError(ENOENT, p);
      } else if parent != "" && !nodes[parent].Dir? {
        o := OSError(ENOTDIR, p);
      } else {
        nodes := nodes[p := Dir(oracle.now)];
        o := Ok;
      }
    }

    method MakeDirectories(name: Path) returns (o: Outcome)
      modifies this
      ensures Step(State(), o) == Makedirs(old(State()), name, oracle.now)
      decreases |name|
    {
      var s := MakedirsSplit(name);
      var head, tail := s.0, s.1;
      var headExists := PathExists(head);
      if head != "" && tail != "" && !headExists {
        var sub := MakeDirectories(head);
        if sub.Raised() && !IsEexist(sub) {
          return sub;
        }
        if tail == "." {
          return Ok;
        }
      }
      o := MakeDirectory(name);
    }

    method RemoveFile(p: Path) returns (o: Outcome)
      modifies this
      ensures Step(State(), o) == Remove(old(State()), p)
    {
      if p == "" || p !in nodes {
        o := OSError(ENOENT, p);
      } else if nodes[p].Dir? {
        o := OSError(EISDIR, p);
      } else {
        nodes := nodes - {p};
        o := Ok;
      }
    }

    method LoadJsonObject(p: Path) returns (r: Result<map<string, JsonValue>>)
      ensures r == ReadJsonObject(State(), p)
    {
      if p == "" || p !in nodes {
        r := Failure(OSError(ENOENT, p));
      } else if nodes[p].Dir? {
        r := Failure(OSError(EISDIR, p));
      } else if !nodes[p].content.JsonObject? {
        r := Failure(InvalidSourceMap(p));
      } else {
        r := Success(nodes[p].content.fields);
      }
    }

    method Overwrite(p: Path, c: Content)
      requires Exists(State(), p) && State().nodes[p].File?
      modifies this
      ensures State() == WriteFile(old(State()), p, c)
    {
      nodes := nodes[p := File(nodes[p].mtime, c)];
    }

    /** `subprocess.check_call` */
    method Call(inv: Invocation) returns (o: Outcome)
      modifies this
      ensures Step(State(), o) == CheckCall(old(State()), oracle, inv)
    {
      runs := runs + [inv];
      var code := oracle.exitCode(inv);
      o := if code == 0 then Ok else CalledProcessError(Code(code), Words(inv.args));
    }

    /** `subprocess.Popen(...).wait()`: run to completion and hand back the exit status. */
    method RunAndWait(inv: Invocation) returns (code: int)
      modifies this
      ensures State() == old(State()).(runs := old(runs) + [inv])
      ensures code == oracle.exitCode(inv)
    {
      runs := runs + [inv];
      code := oracle.exitCode(inv);
    }

    /** `subprocess.Popen(...)` left running in the background. */
    method Spawn(inv: Invocation)
      modifies this
      ensures State() == old(State()).(spawns := old(spawns) + [inv])
    {
      spawns := spawns + [inv];
    }

    method PrintLine(line: string)
      modifies this
      ensures State() == Print(old(State()), line)
    {
      out := out + [line];
    }

    method WarnLine(line: string)
      modifies this
      ensures State() == Warn(old(State()), line)
    {
      err := err + [line];
    }
  }

  // ---------------------------------------------------------------------------
  // What makedirs promises

  /** Every path that exists has a parent directory, except at the top. */
  ghost predicate WellFormed(st: HostState) {
    forall p :: p in st.nodes && p != "" ==> Dirname(p) == "" || Dirname(p) == p || IsDir(st, Dirname(p))
  }

  /** Creating a directory that is already there fails with "already exists" and changes nothing. */
  lemma MakedirsOfExistingDir(st: HostState, name: Path, now: int)
    requires WellFormed(st) && IsDir(st, name)
    ensures Makedirs(st, name, now) == Step(st, OSError(EEXIST, name))
  {
    var s := MakedirsSplit(name);
    var s0 := Split(name);
    var d := Dirname(name);
    if s0.1 == "" {
      var dd := Dirname(d);
      if d != "" && d != name {
        assert IsDir(st, d);
        assert s.0 == dd;
        assert dd == "" || dd == d || IsDir(st, dd);
      }
    }
  }

  /** On success (and unless the name ends in "."), the directory exists afterwards. */
  lemma MakedirsCreates(st: HostState, name: Path, now: int)
    requires Makedirs(st, name, now).o.Ok?
    requires MakedirsSplit(name).1 != "."
    ensures IsDir(Makedirs(st, name, now).st, name)
  {
  }
}
