/**
 * The three backends (civet/compilers/coffeescript.py, es6.py, sass.py) as
 * values: how each is constructed from the settings, which files it accepts,
 * where it puts their output, the command line that compiles one file, the
 * source-map rewrite of CoffeeScript and the `src:dst` directory pairs of Sass.
 */
module Compilers {

  import opened Paths
  import opened Ordering
  import opened Errors
  import opened Util
  import opened Host

  datatype Kind = CoffeeScript | ES6 | Sass

  /** The Django settings the core reads; `None` is a setting that is not defined. */
  datatype Config = Config(
    precompiledAssetDir: Option<Path>,
    coffeeBin: Option<string>,
    babelBin: Option<string>,
    sassBin: Option<string>,
    coffeeScriptArguments: Option<seq<string>>,
    sassArguments: Option<seq<string>>,
    bundleGemfile: Option<Path>,
    bundleBin: Option<string>,
    ignorePatterns: Option<seq<string>>,
    ignoreDirs: Option<seq<string>>,
    compilerClasses: Option<seq<Kind>>)

  /** Python truthiness of an optional string setting. */
  predicate Truthy(s: Option<string>) {
    s.Some? && s.value != ""
  }

  function OrElse<T>(s: Option<T>, default: T): T {
    if s.Some? then s.value else default
  }

  /** The human visible name of a backend. */
  function Name(kind: Kind): string {
    match kind
    case CoffeeScript => "CoffeeScript"
    case ES6 => "Ecmascript 6"
    case Sass => "Sass"
  }

  /** The bare name of the backend's executable. */
  function ExecutableName(kind: Kind): string {
    match kind
    case CoffeeScript => "coffee"
    case ES6 => "babel"
    case Sass => "sass"
  }

  /** The value of CIVET_COFFEE_BIN, CIVET_BABEL_BIN or CIVET_SASS_BIN. */
  function ExecutableSetting(cfg: Config, kind: Kind): Option<string> {
    match kind
    case CoffeeScript => cfg.coffeeBin
    case ES6 => cfg.babelBin
    case Sass => cfg.sassBin
  }

  /** The name looked up on the PATH: the setting when defined, else the bare name. */
  function Bin(cfg: Config, kind: Kind): string {
    OrElse(ExecutableSetting(cfg, kind), ExecutableName(kind))
  }

  /**
   * A constructed compiler. `args` is the CoffeeScript argument setting, or
   * for Sass the whole command prefix; `gemfile` is the BUNDLE_GEMFILE of the
   * environment Sass runs in.
   */
  datatype Compiler = Compiler(
    kind: Kind,
    assetsDir: Path,
    executable: Path,
    args: seq<string>,
    gemfile: Option<Path>)

  /** What `bundle list` reports, the only part of it the model keeps. */
  datatype BundleProbe = BundleListFailed | SassInBundle | SassNotInBundle

  const DefaultCoffeeScriptArguments: seq<string> := ["--compile", "--map"]
  const DefaultBundleBin: string := "bundle"

  /**
   * `find_executable(name)` is truthy: `which` maps a name to the path
   * find_executable returns for it, and a name it lacks, or maps to the
   * empty string, counts as not found.
   */
  predicate OnPath(which: map<string, Path>, name: string) {
    name in which && which[name] != ""
  }

  /** Compiler.__init__'s executable lookup, failing when the result is falsy. */
  function LookupExecutable(cfg: Config, kind: Kind, which: map<string, Path>, kill: bool): (r: Result<Path>)
    ensures r.Success? <==> OnPath(which, Bin(cfg, kind))
    ensures r.Success? ==> r.value == which[Bin(cfg, kind)] && r.value != ""
    ensures r.Failure? ==> r.error == RaiseErrorOrKill(kill)
  {
    var bin := Bin(cfg, kind);
    if bin in which && which[bin] != "" then Success(which[bin]) else Failure(RaiseErrorOrKill(kill))
  }

  /**
   * Constructing a backend: CoffeeScriptCompiler, ES6Compiler and
   * SassCompiler `__init__`. Every failure goes through raise_error_or_kill.
   */
  function NewCompiler(kind: Kind, assetsDir: Path, kill: bool, cfg: Config,
                       which: map<string, Path>, probe: BundleProbe): (r: Result<Compiler>)
    ensures r.Failure? ==> r.error == RaiseErrorOrKill(kill)
    ensures kind == Sass && Truthy(cfg.sassBin) && Truthy(cfg.bundleGemfile) ==> r.Failure?
    ensures r.Success? <==>
              && OnPath(which, Bin(cfg, kind))
              && (kind == Sass && Truthy(cfg.bundleGemfile) ==>
                    !Truthy(cfg.sassBin) && OnPath(which, OrElse(cfg.bundleBin, DefaultBundleBin)) && probe == SassInBundle)
    ensures r.Success? ==>
              && r.value.kind == kind && r.value.assetsDir == assetsDir
              && r.value.executable == which[Bin(cfg, kind)]
    ensures r.Success? && kind == CoffeeScript ==>
              r.value.args == OrElse(cfg.coffeeScriptArguments, DefaultCoffeeScriptArguments) && r.value.gemfile == None
    ensures r.Success? && kind == Sass && Truthy(cfg.bundleGemfile) ==>
              && r.value.args == [OrElse(cfg.bundleBin, DefaultBundleBin), "exec", "sass"] + OrElse(cfg.sassArguments, [])
              && r.value.gemfile == cfg.bundleGemfile
    ensures r.Success? && kind == Sass && !Truthy(cfg.bundleGemfile) ==>
              r.value.args == [r.value.executable] + OrElse(cfg.sassArguments, []) && r.value.gemfile == None
  {
    match kind
    case CoffeeScript =>
      var exe := LookupExecutable(cfg, kind, which, kill);
      if exe.Failure? then Failure(exe.error)
      else Success(Compiler(kind, assetsDir, exe.value, OrElse(cfg.coffeeScriptArguments, DefaultCoffeeScriptArguments), None))
    case ES6 =>
      var exe := LookupExecutable(cfg, kind, which, kill);
      if exe.Failure? then Failure(exe.error)
      else Success(Compiler(kind, assetsDir, exe.value, [], None))
    case Sass =>
      var sassArgs := OrElse(cfg.sassArguments, []);
      if Truthy(cfg.sassBin) && Truthy(cfg.bundleGemfile) then Failure(RaiseErrorOrKill(kill))
      else if Truthy(cfg.bundleGemfile) then
        var bundleBin := OrElse(cfg.bundleBin, DefaultBundleBin);
        if !OnPath(which, bundleBin) || probe != SassInBundle then Failure(RaiseErrorOrKill(kill))
        else
          var exe := LookupExecutable(cfg, kind, which, kill);
          if exe.Failure? then Failure(exe.error)
          else Success(Compiler(kind, assetsDir, exe.value, [bundleBin, "exec", "sass"] + sassArgs, cfg.bundleGemfile))
      else
        var exe := LookupExecutable(cfg, kind, which, kill);
        if exe.Failure? then Failure(exe.error)
        else Success(Compiler(kind, assetsDir, exe.value, [exe.value] + sassArgs, None))
  }

  // ---------------------------------------------------------------------------
  // matches / get_dest_path

  /** `matches(base, ext)`: the backend accepts a file by its extension alone. */
  predicate Matches(kind: Kind, base: string, ext: string) {
    match kind
    case CoffeeScript => ext == ".coffee"
    case ES6 => ext == ".es6"
    case Sass => ext == ".sass" || ext == ".scss"
  }

  /** The extension of the compiled output. */
  function OutputExtension(kind: Kind): string {
    if kind == Sass then ".css" else ".js"
  }

  /** `get_dest_path(base, ext)`: the output path below the precompiled assets directory. */
  function DestPath(c: Compiler, base: string, ext: string): (r: Path)
    ensures Basename(r) == Basename(base) + OutputExtension(c.kind)
    ensures IsAbsolute(base) ==> r == base + OutputExtension(c.kind)
    ensures !IsAbsolute(base) ==> StartsWith(r, c.assetsDir)
    ensures !IsAbsolute(base) && (c.assetsDir == "" || EndsWithChar(c.assetsDir, '/')) ==>
              r == c.assetsDir + (base + OutputExtension(c.kind))
    ensures !IsAbsolute(base) && c.assetsDir != "" && !EndsWithChar(c.assetsDir, '/') ==>
              r == c.assetsDir + "/" + (base + OutputExtension(c.kind))
  {
    OutputNameKeepsKind(base, OutputExtension(c.kind));
    JoinRelative(c.assetsDir, base + OutputExtension(c.kind));
    OutputNameBasename(c.assetsDir, base, OutputExtension(c.kind));
    Join(c.assetsDir, base + OutputExtension(c.kind))
  }

  /** A relative stem keeps its subdirectories below the assets directory. */
  lemma DestPathKeepsSubdirectories(c: Compiler)
    requires c.kind == CoffeeScript && c.assetsDir == "/out"
    ensures DestPath(c, "app/js/foo", ".coffee") == "/out/app/js/foo.js"
  {
    assert !IsAbsolute("app/js/foo") by { assert "app/js/foo"[0] != '/'; }
    assert !EndsWithChar("/out", '/');
    assert "/out" + "/" + ("app/js/foo" + ".js") == "/out/app/js/foo.js";
  }

  /** Appending an extension keeps a stem absolute or relative. */
  lemma OutputNameKeepsKind(base: string, e: string)
    requires e != "" && e[0] == '.'
    ensures IsAbsolute(base + e) <==> IsAbsolute(base)
  {
    var name := base + e;
    if base == "" { assert name[0] == '.'; } else { assert name[0] == base[0]; }
  }

  /** The joined output path ends in the stem's file name plus the extension. */
  lemma OutputNameBasename(a: Path, base: string, e: string)
    requires e != "" && '/' !in e
    ensures Basename(Join(a, base + e)) == Basename(base) + e
  {
    BasenameJoin(a, base + e);
    BasenameAppend(base, e);
  }

  /** The base is irrelevant: only the extension decides. */
  lemma MatchesIgnoresBase(kind: Kind, base1: string, base2: string, ext: string)
    ensures Matches(kind, base1, ext) <==> Matches(kind, base2, ext)
  {
  }

  /** No extension is accepted by two different backends. */
  lemma MatchesDisjoint(k1: Kind, k2: Kind, base: string, ext: string)
    requires Matches(k1, base, ext) && Matches(k2, base, ext)
    ensures k1 == k2
  {
  }

  /** The extensions each backend accepts, in terms of splitext of a file name. */
  lemma MatchesSourceName()
    ensures Matches(CoffeeScript, "foo", SplitExt("foo.coffee").1)
    ensures !Matches(ES6, "foo", SplitExt("foo.coffee").1) && !Matches(Sass, "foo", SplitExt("foo.coffee").1)
  {
    SplitExtOfSourceName();
  }

  // ---------------------------------------------------------------------------
  // Command lines

  /** CoffeescriptCompiler.get_command_with_arguments */
  function CoffeeScriptCommand(c: Compiler, src: Path, dst: Path): (r: seq<string>)
    ensures |r| == |c.args| + 4
    ensures r[0] == c.executable && r[1] == "-o" && r[2] == Dirname(dst)
    ensures r[3..|r| - 1] == c.args && r[|r| - 1] == src
  {
    [c.executable, "-o", Dirname(dst)] + c.args + [src]
  }

  /** ES6Compiler.get_arguments */
  function ES6Arguments(c: Compiler, src: Path, dst: Path): (r: seq<string>)
    ensures |r| == 5 && r[0] == c.executable && r[1] == "--source-maps true" && r[2] == "-o"
    ensures r[3] == dst && r[4] == src
  {
    [c.executable, "--source-maps true", "-o", dst, src]
  }

  /**
   * The command the base compile runs, as the classes are written: only
   * CoffeeScript overrides get_command_with_arguments, so for the others the
   * base stub raises NotImplementedError (`None` here).
   */
  function CommandAsWritten(c: Compiler, src: Path, dst: Path): (r: Option<seq<string>>)
    ensures r.Some? <==> c.kind == CoffeeScript
  {
    if c.kind == CoffeeScript then Some(CoffeeScriptCommand(c, src, dst)) else None
  }

  /**
   * The command with ES6's `get_arguments` serving as its command, as the
   * name of the base class's stub message ("Subclasses must implement
   * get_arguments()") intends. Sass never compiles single files.
   */
  function Command(c: Compiler, src: Path, dst: Path): (r: Option<seq<string>>)
    ensures c.kind == CoffeeScript ==> r == Some(CoffeeScriptCommand(c, src, dst))
    ensures c.kind == ES6 ==> r == Some(ES6Arguments(c, src, dst))
    ensures c.kind == Sass ==> r == None
  {
    match c.kind
    case CoffeeScript => Some(CoffeeScriptCommand(c, src, dst))
    case ES6 => Some(ES6Arguments(c, src, dst))
    case Sass => None
  }

  /** As written, ES6 has no command: a compile that gets as far as the command fails. */
  lemma ES6CommandMissingAsWritten(c: Compiler, src: Path, dst: Path)
    requires c.kind == ES6
    ensures CommandAsWritten(c, src, dst) == None
    ensures Command(c, src, dst) == Some([c.executable, "--source-maps true", "-o", dst, src])
  {
  }

  /** The two definitions differ only for ES6. */
  lemma CommandAgreesExceptES6(c: Compiler, src: Path, dst: Path)
    requires c.kind != ES6
    ensures Command(c, src, dst) == CommandAsWritten(c, src, dst)
  {
  }

  /** The coffee output directory is the directory of the destination. */
  lemma CoffeeScriptCommandOutputDir(c: Compiler, dir: Path, name: Path, src: Path)
    requires dir != "" && (AllChar(dir, '/') || !EndsWithChar(dir, '/'))
    requires name != "" && '/' !in name
    ensures CoffeeScriptCommand(c, src, Join(dir, name))[2] == dir
  {
    SplitJoin(dir, name);
  }

  // ---------------------------------------------------------------------------
  // The CoffeeScript source map

  /** The map file next to a compiled file: its stem with ".map". */
  function MapPath(dst: Path): Path {
    var s := Split(dst);
    Join(s.0, SplitExt(s.1).0 + ".map")
  }

  /** The map of `dir/name` is `dir/stem.map`. */
  lemma MapPathOfJoin(dir: Path, name: Path)
    requires dir != "" && (AllChar(dir, '/') || !EndsWithChar(dir, '/'))
    requires name != "" && '/' !in name
    ensures MapPath(Join(dir, name)) == Join(dir, SplitExt(name).0 + ".map")
  {
    SplitJoin(dir, name);
  }

  /** The map file is in the destination's directory and named after its stem. */
  lemma MapPathShape(dst: Path)
    ensures Basename(MapPath(dst)) == SplitExt(Basename(dst)).0 + ".map"
  {
    var s := Split(dst);
    var stem := SplitExt(s.1).0;
    StemHasNoSlash(s.1);
    NoSlashConcat(stem, ".map");
    var n := stem + ".map";
    assert n != "";
    BasenameJoin(s.0, n);
    BasenameOfPlainName(n);
  }

  /** The rewrite of a map after compiling `src`: sourceRoot becomes "", sources the basename of `src`. */
  function RewriteSourceMap(fields: map<string, JsonValue>, src: Path): (r: map<string, JsonValue>)
    ensures "sourceRoot" in r && r["sourceRoot"] == JString("")
    ensures "sources" in r && r["sources"] == JStrings([Basename(src)])
    ensures r.Keys == fields.Keys + {"sourceRoot", "sources"}
    ensures forall k :: k in fields && k != "sourceRoot" && k != "sources" ==> r[k] == fields[k]
  {
    assert |"sourceRoot"| != |"sources"|;
    UpdatePair(fields, "sourceRoot", JString(""), "sources", JStrings([Basename(src)]));
    fields["sourceRoot" := JString("")]["sources" := JStrings([Basename(src)])]
  }

  /** Two updates at distinct keys: both new values are there, every other entry is kept. */
  lemma UpdatePair<K, V>(m: map<K, V>, a: K, va: V, b: K, vb: V)
    requires a != b
    ensures var r := m[a := va][b := vb];
            a in r && r[a] == va && b in r && r[b] == vb && r.Keys == m.Keys + {a, b} &&
            forall k :: k in m && k != a && k != b ==> r[k] == m[k]
  {
  }

  /** Rewriting a rewritten map changes nothing more. */
  lemma RewriteSourceMapIdempotent(fields: map<string, JsonValue>, src: Path)
    ensures RewriteSourceMap(RewriteSourceMap(fields, src), src) == RewriteSourceMap(fields, src)
  {
    UpdateTwice(fields, "sourceRoot", JString(""), "sources", JStrings([Basename(src)]));
  }

  /** Making the same two updates again changes nothing. */
  lemma UpdateTwice<K, V>(m: map<K, V>, a: K, va: V, b: K, vb: V)
    ensures m[a := va][b := vb][a := va][b := vb] == m[a := va][b := vb]
  {
    var once := m[a := va][b := vb];
    var twice := once[a := va][b := vb];
    assert twice.Keys == once.Keys;
    forall k | k in once ensures twice[k] == once[k] {
    }
  }

  /**
   * The example in the comment of CoffeescriptCompiler.compile: whatever the
   * source root, "../../.." and ["myapp/static/myapp/js/foo.coffee"] become
   * "" and ["foo.coffee"].
   */
  lemma RewriteSourceMapExample(root: Path, src: Path)
    requires src == root + "/myapp/static/myapp/js/foo.coffee"
    ensures var before := map["sourceRoot" := JString("../../.."), "sources" := JStrings(["myapp/static/myapp/js/foo.coffee"])];
            RewriteSourceMap(before, src) == map["sourceRoot" := JString(""), "sources" := JStrings(["foo.coffee"])]
  {
    var dir := root + "/myapp/static/myapp/js";
    assert src == dir + "/" + "foo.coffee";
    BasenameAfterSlash(dir, "foo.coffee");
    var before := map["sourceRoot" := JString("../../.."), "sources" := JStrings(["myapp/static/myapp/js/foo.coffee"])];
    assert RewriteSourceMap(before, src).Keys == before.Keys;
  }

  // ---------------------------------------------------------------------------
  // Sass directory pairs

  /** `["k:v" for each k in ks]` with `v` looked up in `m`. */
  function JoinPairs(ks: seq<Path>, m: map<Path, Path>): (r: seq<string>)
    requires forall i :: 0 <= i < |ks| ==> ks[i] in m
    ensures |r| == |ks|
    ensures forall i :: 0 <= i < |ks| ==> r[i] == ks[i] + ":" + m[ks[i]]
  {
    if ks == [] then [] else [ks[0] + ":" + m[ks[0]]] + JoinPairs(ks[1..], m)
  }

  /** The kept source directories of SassCompiler._get_dir_pairs. */
  function PairDirs(units: seq<Unit>): seq<Path> {
    Topmost(DictKeys(units))
  }

  /** SassCompiler._get_dir_pairs: one "src:dst" per top-most source directory. */
  function DirPairs(units: seq<Unit>): (r: seq<string>)
    ensures |r| == |PairDirs(units)|
    ensures forall i :: 0 <= i < |r| ==>
              PairDirs(units)[i] in CollectSrcDstDirMappings(units) &&
              r[i] == PairDirs(units)[i] + ":" + CollectSrcDstDirMappings(units)[PairDirs(units)[i]]
  {
    PairDirsMapped(units);
    JoinPairs(PairDirs(units), CollectSrcDstDirMappings(units))
  }

  /** Every kept source directory is a key of collect_src_dst_dir_mappings. */
  lemma PairDirsMapped(units: seq<Unit>)
    ensures forall i :: 0 <= i < |PairDirs(units)| ==> PairDirs(units)[i] in CollectSrcDstDirMappings(units)
  {
    var ks := DictKeys(units);
    TopmostFromInput(ks);
    forall i | 0 <= i < |PairDirs(units)| ensures PairDirs(units)[i] in CollectSrcDstDirMappings(units) {
      assert PairDirs(units)[i] in ks;
    }
  }

  /**
   * Every source directory of the Sass files lies at or below the source side
   * of some pair, and that pair's destination is the one the mapping gives.
   */
  lemma DirPairsCoverSources(units: seq<Unit>, i: int)
    requires 0 <= i < |units|
    ensures CoveredBy(Dirname(units[i].0), PairDirs(units))
  {
    var ks := DictKeys(units);
    var d := Dirname(units[i].0);
    assert d in CollectSrcDstDirMappings(units).Keys;
    assert d in ks;
    TopmostCovers(ks);
    assert CoveredBy(d, Topmost(ks));
  }

  /** No kept source directory lies below the one kept before it, and none appears twice. */
  lemma DirPairsNoChildAfterParent(units: seq<Unit>)
    ensures forall k :: 0 <= k < |PairDirs(units)| - 1 ==> !Covers(PairDirs(units)[k], PairDirs(units)[k + 1])
    ensures forall k, l :: 0 <= k < l < |PairDirs(units)| ==> PairDirs(units)[k] != PairDirs(units)[l]
  {
    TopmostAdjacentNotNested(DictKeys(units));
    TopmostNoDuplicates(DictKeys(units));
  }

  /** Without characters sorting below '/', no kept source directory lies below another. */
  lemma DirPairsNoChild(units: seq<Unit>)
    requires NoCharBelowSlash(DictKeys(units))
    ensures forall k, l :: 0 <= k < |PairDirs(units)| && 0 <= l < |PairDirs(units)| && k != l ==>
              !Covers(PairDirs(units)[k], PairDirs(units)[l])
  {
    TopmostNoneNested(DictKeys(units));
  }
}
