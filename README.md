# civet asset precompilation, modelled in Dafny

civet precompiles the CoffeeScript, ES6 (Babel) and Sass sources of a Django
project, and can watch them while the development server runs.

`precompile_assets` does the following in order:

1. It creates `CIVET_PRECOMPILED_ASSET_DIR` if needed and adds it to
   `STATICFILES_DIRS`.
2. It builds one compiler object per configured class. Each constructor looks
   up its executable and fails through `raise_error_or_kill` when it is
   missing.
3. It collects `(source, destination)` pairs through Django's static file
   finders, one list per compiler.
4. It runs each compiler's `compile_all`. A failing command ends the run with
   `AssertionError` or `sys.exit(1)`, depending on `kill_on_error`.
5. When watching, it starts file system watches:
   - CoffeeScript and ES6 each get one watchdog handler per source directory.
   - Sass gets a single `sass --watch` child process over the topmost source
     directories.

The project models the following as functions, each with lemmas about it:

- that whole run;
- each backend's compile step:
  - skip an up-to-date destination;
  - remove a stale one before the command runs;
  - rewrite the CoffeeScript source map afterwards;
  - run `mkdir_p` for ES6;
- the per-event reaction of the watchdog handler;
- the two directory helpers in `civet/util.py`.

Where the source changes state step by step, an imperative method mirrors it
and is proved to agree with its function:

- the host (files, commands, stdout and stderr) is a `Host` class;
- the watchdog observer and Django's settings object are classes too;
- loops are `while`/`for` loops with invariants.

The batch chain (`Compile`, `CompileAll`, `PrecompileAssets`) and the watch
handler (`HandlerCompile`, `HandleEvent`) follow the source as written. So
an ES6 compile of a stale destination raises `NotImplementedError`, and the
handler uses `get_dst_path` as written, and the Sass directory pairs use
`get_shortest_topmost_directories` as written. The intended behaviour of these
defects (see "## Findings") is defined beside them and proved on its own terms.
The chain does not use it.

Modules, in dependency order:

- `Paths` (`paths.dfy`): `os.path` split, dirname, basename, splitext and join on `'/'`.
- `Ordering` (`ordering.dfy`): Python's string order, and an insertion sort standing for `sorted`.
- `Errors` (`errors.dfy`): the exceptions civet raises or lets through, as an `Outcome` value.
- `Util` (`util.dfy`): `civet/util.py`.
- `Host` (`host.dfy`): a snapshot of the host and the standard library calls that civet makes on it. The `Host` class holds such a snapshot and performs the calls.
- `Compilers` (`compilers.dfy`): construction of each backend, and what each backend matches, where its output goes and which command it runs.
- `Engine` (`engine.dfy`): `compile` and `compile_all` of each backend.
- `Watch` (`watch.dfy`): `CompilerFSEventHandler`, `CompilerObserver`, `Compiler.watch` and `SassCompiler.watch`.
- `Precompiler` (`precompiler.dfy`): `collect_files` and `precompile_assets`.

Other parts of the system enter the model as parameters:

- **External tools** enter as an `Oracle`. It gives an exit code for each
  command line and the current time, which becomes the mtime of directories
  created.
- **`find_executable`** is a map from program names to paths.
- **The `bundle list` probe** is a three-valued `BundleProbe`.
- **Django's finders** are functions from the ignore patterns to listed files.

## Model

| member | source | states |
|---|---|---|
| Util.CollectSrcDstDirMappings | civet/util.py:6-15 | the keys are exactly the directories of the sources; for each source directory the value is the directory of the destination of the last pair with that source directory (a later pair overrides an earlier one) |
| Util.LastWins | civet/util.py:14-15 | a dict built from pairs has exactly their first components as keys, and each key maps to the second component of its last pair |
| Util.LastWinsSnoc | civet/util.py:14-15 | adding one more pair to the comprehension adds its key and makes its value the one stored for that key, while every other key keeps the value of its last pair |
| Util.DictKeys | civet/util.py:14-15 | the dict's keys in iteration order: exactly the keys of the mapping, each once, ordered by the first unit of each source directory |
| Util.KeysInOrder | civet/util.py:14-15 | the keys of a dict built from pairs, in first-insertion order: exactly its keys, without repetition, each one's first pair lying before the next one's |
| Util.FirstIndex | civet/util.py:14-15 | the position where a key is first inserted: that pair has the key and no earlier one does; `|pairs|` when none does |
| Util.CollectExample | civet/util.py:10-12 | the docstring example: one pair `/some/source/test.coffee`, `/some/output/test.js` gives the single entry `/some/source` → `/some/output` |
| Util.CollectSingle | civet/util.py:14-15 | a single pair gives one key, the source's dirname, mapped to the destination's dirname |
| Util.DirnameOfChild | civet/util.py:14 | `os.path.dirname(dir + "/" + name)` is `dir` for a slash-free name and a dir not ending in '/' |
| Util.GetShortestTopmostDirectories | civet/util.py:18-53 | the loop returns `Topmost(dirs)`; every input directory is covered by a result; every result is an input; no result covers the one after it |
| Util.Topmost | civet/util.py:34-35 | the result is empty exactly when the input is |
| Util.TopmostFromInput | civet/util.py:38-52 | every returned directory is one of the inputs |
| Util.TopmostSortedSubset | civet/util.py:38-52 | the result is a subset of the input, strictly increasing in string order, and starts with the input's least directory |
| Util.TopmostIncreasing | civet/util.py:38-52 | the result is strictly increasing in Python string order |
| Util.TopmostCovers | civet/util.py:25-26 | every input directory is reachable from some returned directory (equal to it, or below it after a '/') |
| Util.TopmostAdjacentNotNested | civet/util.py:43-52 | no returned directory covers the one after it, for every input |
| Util.TopmostNoDuplicates | civet/util.py:47-52 | the result has no repeated directory, even when the input has |
| Util.TopmostNoneNested | civet/util.py:25-26 | when no path has a character below '/', no returned directory covers another one |
| Util.TopmostCoversExactlyOnce | civet/util.py:25-26 | when no path has a character below '/', each input directory is covered by exactly one returned directory |
| Util.TopmostKeepsNestedAcrossLowCharacter | civet/util.py:25-26 | for `/a`, `/a-b`, `/a/c` all three are returned although `/a` covers `/a/c`: '-' sorts below '/', so the "only one" of the docstring needs the precondition above |
| Util.TopmostIntended | civet/util.py:25-26 | the intended reduction (a directory is kept only when no kept directory covers it) is empty exactly when the input is |
| Util.KeepUncoveredShape | civet/util.py:25-26 | on sorted input the intended scan extends what was kept with inputs only, strictly increasing, none covering another |
| Util.KeepUncoveredAppend | civet/util.py:25-26 | keeping a directory no kept one covers, and none sorts after, keeps the result increasing and free of nesting |
| Util.KeepUncoveredCovers | civet/util.py:25-26 | every directory the intended scan passes is covered by a kept one, and nothing already covered is lost |
| Util.TopmostIntendedReduces | civet/util.py:25-26 | the intended reduction covers every input, keeps only inputs, is strictly increasing and has no directory covering another, for every input |
| Util.TopmostIntendedCoversExactlyOnce | civet/util.py:25-26 | the docstring's "one and only one", for every input: each input directory is covered by exactly one directory of the intended reduction |
| Util.KeepUncoveredAgrees | civet/util.py:47-52 | when no character sorts below '/', testing against the last kept directory equals testing against all of them |
| Util.CoveredByLast | civet/util.py:47-52 | when no character sorts below '/', a directory sorting after every kept one is covered by some kept directory exactly when the last kept one covers it |
| Util.KeepUncoveredFromHead | civet/util.py:38-52 | when no character sorts below '/', the intended scan on sorted input is the head followed by civet's scan |
| Util.TopmostIntendedAgrees | civet/util.py:18-53 | when no path holds a character below '/', the intended reduction equals what `get_shortest_topmost_directories` returns |
| Util.TopmostIntendedDropsNestedAcrossLowCharacter | civet/util.py:25-26 | for `/a`, `/a-b`, `/a/c` the intended reduction is `/a`, `/a-b`: `/a/c` is dropped because `/a` covers it |
| Util.TopmostOfNothing | civet/util.py:34-35 | no directories give no result |
| Util.TopmostNoFalsePrefix | civet/util.py:43-45 | `/foobar` is not treated as a child of `/foo` |
| Util.TopmostDocstringExample | civet/util.py:28-31 | the docstring example: `/a, /a/b, /a/b/c, /d/e, /f` gives `/a, /d/e, /f` |
| Util.TopmostOfSorted | civet/util.py:38-45 | on sorted input, the first directory and then the scan from it |
| Util.KeepSkip | civet/util.py:50 | a directory whose terminated form starts with the current prefix is dropped, and the prefix stays |
| Util.KeepTake | civet/util.py:50-52 | any other directory is kept and becomes the new prefix |
| Util.KeepCovers | civet/util.py:47-52 | each scanned directory is either covered by the current one or by a kept one |
| Util.KeepShape | civet/util.py:47-52 | on sorted input the kept directories are inputs, above the current one, strictly increasing and not nested pairwise in order |
| Util.KeepNoneNested | civet/util.py:47-52 | when no character sorts below '/', no kept directory covers another or is covered by the current one |
| Util.HeadAndKeptNoneNested | civet/util.py:40-52 | when no character sorts below '/', the first sorted directory followed by the scan's kept ones has no directory covering another |
| Util.CoversInterval | civet/util.py:38-50 | when no character sorts below '/', a path sorting between a directory and one of its descendants is itself covered by that directory |
| Util.CoversLe | civet/util.py:38-50 | a directory sorts no later than anything it covers |
| Util.RaiseErrorOrKill | civet/util.py:56-66 | the outcome is always an exception; it is `SystemExit(1)` exactly when `kill_on_error` is set, else `AssertionError` |
| Ordering.Insert | civet/util.py:38 | inserting into a sorted list keeps it sorted and adds exactly the element (multiset) |
| Ordering.Sort | civet/util.py:38 | `sorted(dirs)`: sorted in Python's string order and a permutation of the input |
| Ordering.StrLeTotal | civet/util.py:38 | Python's string order is total |
| Ordering.StrLeTrans | civet/util.py:38 | and transitive |
| Ordering.StrLeAntisym | civet/util.py:38 | and antisymmetric |
| Ordering.SortedUnique | civet/util.py:38 | a sorted permutation of a list is unique |
| Paths.Split | civet/compilers/base_compiler.py:59 | `os.path.split`: the tail has no '/', head plus separators plus tail is the path, the head loses trailing slashes unless it is all slashes, and the head is empty exactly when the path has no '/' |
| Paths.SplitExt | civet/asset_precompiler.py:133 | `os.path.splitext`: stem plus extension is the input, and the extension is empty or a dot followed by neither a dot nor a '/' |
| Paths.SplitExtOfDotFile | civet/asset_precompiler.py:133 | a leading dot does not start an extension (`.bashrc` has none) |
| Paths.SplitExtOfSourceName | civet/asset_precompiler.py:133 | `foo.coffee` splits into `foo`, `.coffee` |
| Paths.Join | civet/compilers/coffeescript.py:75 | `os.path.join`: an absolute second part replaces the first, otherwise the result starts with the first part and ends with the second |
| Paths.JoinRelative | civet/compilers/coffeescript.py:75 | `os.path.join` with a relative second part: the two parts, with a '/' between them exactly when the first is non-empty and does not already end in '/' |
| Paths.SplitJoin | civet/compilers/coffeescript.py:73-75 | splitting the join of a dirname-shaped directory and a plain file name gives both back |
| Paths.BasenameJoin | civet/compilers/coffeescript.py:73-75 | the basename of a join is the basename of its non-empty second part |
| Paths.SplitTail | civet/compilers/coffeescript.py:73-75 | the basename part of `os.path.split` is everything after the last '/' |
| Paths.RFind | civet/compilers/base_compiler.py:59 | the last index of a character, or -1 when there is none |
| Paths.RStrip | civet/compilers/base_compiler.py:59 | stripping a trailing character leaves a prefix that does not end in it, and removes only that character |
| Host.GetMtime | civet/compilers/base_compiler.py:186 | `os.path.getmtime` succeeds exactly when the path exists, else raises `OSError(ENOENT)` |
| Host.Mkdir | civet/compilers/es6.py:9 | `os.mkdir` succeeds exactly when the path is absent and its parent (the string's dirname, so paths are taken literally; see Left out) is a directory, and then adds just that directory; `EEXIST` when the path exists; only ever adds directories |
| Host.Makedirs | civet/asset_precompiler.py:70 | `os.makedirs` only ever adds directories, and succeeds or raises `OSError` |
| Host.MakedirsCreates | civet/asset_precompiler.py:67-70 | when `os.makedirs` succeeds the directory exists afterwards |
| Host.MakedirsOfExistingDir | civet/compilers/es6.py:9-11 | `os.makedirs` of an existing directory raises `OSError(EEXIST)` and changes nothing |
| Host.Remove | civet/compilers/base_compiler.py:189 | `os.remove` succeeds exactly on an existing non-directory and removes only it; otherwise `OSError` and nothing changes |
| Host.ReadJsonObject | civet/compilers/coffeescript.py:78-80 | `json.load` succeeds exactly on an existing JSON object file, giving its fields |
| Host.WriteFile | civet/compilers/coffeescript.py:84-85 | `json.dump` replaces the content of that one file and changes nothing else |
| Host.CheckCall | civet/compilers/base_compiler.py:193 | `subprocess.check_call` records the command, succeeds exactly on exit code 0, and otherwise raises `CalledProcessError(returncode, cmd)` |
| Host.Host.PathExists | civet/compilers/base_compiler.py:185 | `os.path.exists` on the host's current state |
| Host.Host.PathIsDir | civet/compilers/es6.py:11 | `os.path.isdir` on the host's current state |
| Host.Host.GetModificationTime | civet/compilers/base_compiler.py:186 | performs `GetMtime` on the host's current state |
| Host.Host.MakeDirectory | civet/compilers/es6.py:9 | the new host state and outcome are those of `Mkdir` |
| Host.Host.MakeDirectories | civet/asset_precompiler.py:70 | the recursive creation leaves exactly the state and outcome of `Makedirs` |
| Host.Host.RemoveFile | civet/compilers/base_compiler.py:189 | the new host state and outcome are those of `Remove` |
| Host.Host.LoadJsonObject | civet/compilers/coffeescript.py:78-80 | reading the map file gives `ReadJsonObject` of the current state |
| Host.Host.Overwrite | civet/compilers/coffeescript.py:84-85 | the new state is `WriteFile` of the old one |
| Host.Host.Call | civet/compilers/base_compiler.py:193 | the new host state and outcome are those of `CheckCall` |
| Host.Host.RunAndWait | civet/compilers/sass.py:117-118 | `Popen(...).wait()`: records the command and returns its exit code, changing nothing else |
| Host.Host.Spawn | civet/compilers/sass.py:128 | a child process started without waiting is recorded and nothing else changes |
| Host.Host.PrintLine | civet/compilers/base_compiler.py:191 | one line is appended to stdout |
| Host.Host.WarnLine | civet/asset_precompiler.py:90-92 | one line is appended to stderr |
| Compilers.LookupExecutable | civet/compilers/base_compiler.py:116-140 | the executable is found exactly when `find_executable` of the setting (or the default program name) gives a non-empty path, and is that path; otherwise `raise_error_or_kill` |
| Compilers.NewCompiler | civet/compilers/sass.py:41-90 | construction fails (through `raise_error_or_kill`) when both `CIVET_SASS_BIN` and `CIVET_BUNDLE_GEMFILE` are set; it succeeds exactly when the executable is found (a non-empty path) and, with a Gemfile, `bundle` is found likewise and `sass` is in the bundle; the arguments are the CoffeeScript settings, `bundle exec sass` plus the Sass arguments, or the Sass program plus them |
| Compilers.DestPath | civet/compilers/coffeescript.py:24-25 | `get_dest_path` is `join(assets, base + ext)`: an absolute stem replaces the assets directory; a relative one, with its subdirectories, follows the assets directory after a '/' (none when the directory is empty or already ends in '/'); the basename is the stem's plus the backend's extension |
| Compilers.DestPathKeepsSubdirectories | civet/compilers/coffeescript.py:24-25 | with assets directory `/out`, the stem `app/js/foo` of a `.coffee` file becomes `/out/app/js/foo.js` |
| Compilers.OutputNameKeepsKind | civet/compilers/coffeescript.py:25 | appending the extension keeps a stem absolute or relative, which decides what `os.path.join` does |
| Compilers.OutputNameBasename | civet/compilers/coffeescript.py:25 | the joined output path's basename is the stem's basename plus the extension |
| Compilers.MatchesIgnoresBase | civet/compilers/es6.py:37-38 | whether a backend matches depends on the extension only |
| Compilers.MatchesDisjoint | civet/compilers/sass.py:92-93 | no file matches two backends |
| Compilers.MatchesSourceName | civet/compilers/coffeescript.py:21-22 | `foo.coffee` matches CoffeeScript and neither of the others |
| Compilers.CoffeeScriptCommand | civet/compilers/coffeescript.py:27-34 | `coffee -o <dirname(dst)> <args> <src>`, exactly |
| Compilers.CoffeeScriptCommandOutputDir | civet/compilers/coffeescript.py:27-34 | for a destination joined from a directory and a file name, `-o` gets that directory back |
| Compilers.ES6Arguments | civet/compilers/es6.py:43-50 | exactly five arguments: the Babel executable, `--source-maps true`, `-o`, the destination, the source |
| Compilers.CommandAsWritten | civet/compilers/base_compiler.py:173-177 | as written only CoffeeScript overrides `get_command_with_arguments`; the others hit the stub |
| Compilers.Command | civet/compilers/es6.py:43-50 | the command as intended: CoffeeScript's, ES6's `get_arguments`, none for Sass (which compiles all at once) |
| Compilers.ES6CommandMissingAsWritten | civet/compilers/es6.py:43-50 | for ES6 the as-written lookup finds no command, while the intended one is Babel's |
| Compilers.CommandAgreesExceptES6 | civet/compilers/base_compiler.py:173-177 | for the other backends the two agree |
| Compilers.MapPathOfJoin | civet/compilers/coffeescript.py:73-75 | the map of `dir/name.js` is `dir/name.map` |
| Compilers.MapPathShape | civet/compilers/coffeescript.py:73-75 | the map's basename is the destination's stem plus `.map` |
| Compilers.RewriteSourceMap | civet/compilers/coffeescript.py:77-82 | the map keeps every other field, and gets `sourceRoot` "" and `sources` [basename of the source] |
| Compilers.RewriteSourceMapIdempotent | civet/compilers/coffeescript.py:77-82 | rewriting twice is rewriting once |
| Compilers.RewriteSourceMapExample | civet/compilers/coffeescript.py:53-72 | the comment's example: `../../..` and `myapp/static/myapp/js/foo.coffee` become `""` and `foo.coffee` |
| Compilers.JoinPairs | civet/compilers/sass.py:108 | one `src:dst` argument per key, in order |
| Compilers.DirPairs | civet/compilers/sass.py:98-108 | one `src:dst` argument per topmost source directory, in their sorted order (the Python 3.7 dict order; see DictKeys under Left out), with the mapped destination |
| Compilers.PairDirsMapped | civet/compilers/sass.py:103-104 | every topmost directory is a key of the directory map |
| Compilers.DirPairsCoverSources | civet/compilers/sass.py:102-103 | every source directory lies below one of the directories handed to sass |
| Compilers.DirPairsNoChildAfterParent | civet/compilers/sass.py:102-104 | no directory handed to sass covers the next one, and none is repeated |
| Compilers.DirPairsNoChild | civet/compilers/sass.py:102-104 | when no character sorts below '/', no directory handed to sass covers another |
| Engine.RunCommand | civet/compilers/base_compiler.py:191-193 | no contract of its own: the `Compiling` line, then `check_call` of the command, or `NotImplementedError` when the backend has none; BaseCompileRuns and BaseCompileWithoutCommand state it |
| Engine.BaseCompileWith | civet/compilers/base_compiler.py:179-193 | no contract of its own: `Compiler.compile` for a given command; BaseCompileSkips, BaseCompileRuns, BaseCompileMissingSource and BaseCompileNoStaleOutput state its cases |
| Engine.BaseCompile | civet/compilers/base_compiler.py:179-193 | no contract of its own: `Compiler.compile` with the backend's `get_command_with_arguments` as written |
| Engine.CoffeeScriptCompile | civet/compilers/coffeescript.py:36-85 | no contract of its own: the base compile, then the map rewrite unless it raised; CoffeeScriptCompileRaisedLeavesMap, CoffeeScriptCompileRewritesMap and CoffeeScriptCompileSkipRewritesMap state it |
| Engine.ES6CompileWith | civet/compilers/es6.py:52-55 | no contract of its own: `mkdir_p` of the destination directory, then the base compile with the given command |
| Engine.ES6CompileAsWritten | civet/compilers/es6.py:52-55 | no contract of its own: `ES6Compiler.compile` as written, reaching the stub; ES6CompileAsWrittenFails, ES6CompileAsWrittenRaises and ES6CompileAsWrittenFailsOnFirstRun state it |
| Engine.ES6Compile | civet/compilers/es6.py:43-55 | no contract of its own: the intended compile with Babel's arguments; ES6CompileRunsBabel and ES6CompileRunsBabelOnFirstRun state it |
| Engine.Compile | civet/compilers/base_compiler.py:179-193 | no contract of its own: `compiler.compile` dispatched to the backend's override (CoffeeScript, ES6 as written) or the base method (Sass); CompileUpToDateRunsNothing states it |
| Engine.CompileEach | civet/compilers/base_compiler.py:200-201 | no contract of its own: the `for` loop over the pairs; CompileEachFailFast and CompileEachAppend state it |
| Engine.BaseCompileAll | civet/compilers/base_compiler.py:195-202 | no contract of its own: the start line, the loop, and the end line only when nothing raised; CompileAllOn ties the host loop to it |
| Engine.CompileAll | civet/compilers/base_compiler.py:195-202 | no contract of its own: `compile_all`, the Sass override or the base method; CompileAllES6Raises and CompileAllOn state it |
| Engine.SassUpdateArgs | civet/compilers/sass.py:114-116 | no contract of its own: the arguments of the `--update` run; SassUpdateArgsShape states their shape |
| Engine.BaseCompileSkips | civet/compilers/base_compiler.py:185-187 | an up-to-date destination means nothing happens |
| Engine.BaseCompileRuns | civet/compilers/base_compiler.py:185-193 | for a stale destination: it is removed, "Compiling src" is printed, the command runs once, and the outcome is success exactly on exit code 0, else `CalledProcessError` with that code and command |
| Engine.BaseCompileMissingSource | civet/compilers/base_compiler.py:185-186 | an existing destination with a missing source raises `OSError(ENOENT)` and changes nothing |
| Engine.BaseCompileNoStaleOutput | civet/compilers/base_compiler.py:180-189 | whenever a command runs, an old destination has been removed first |
| Engine.RewriteMapFile | civet/compilers/coffeescript.py:77 | without a map file nothing happens |
| Engine.CoffeeScriptCompileRaisedLeavesMap | civet/compilers/coffeescript.py:37-40 | when the base compile raises, the map is not touched |
| Engine.CoffeeScriptCompileRewritesMap | civet/compilers/coffeescript.py:73-85 | after a successful compile the map file gets the rewritten fields and nothing else changes |
| Engine.CoffeeScriptCompileSkipRewritesMap | civet/compilers/coffeescript.py:37-85 | an up-to-date destination still has its map rewritten |
| Engine.MkdirP | civet/compilers/es6.py:7-14 | `mkdir_p` only adds directories and succeeds or raises `OSError`; an `EEXIST` error with a directory at the path becomes success in `makedirs`'s state, and every other outcome of `os.makedirs`, error or success, is passed on unchanged |
| Engine.MkdirPExisting | civet/compilers/es6.py:11-12 | on an existing directory `mkdir_p` changes nothing and succeeds |
| Engine.StaleAfterAddingDirs | civet/compilers/es6.py:52-55 | creating the output directory keeps an existing destination stale |
| Engine.ES6CompileAsWrittenFails | civet/compilers/es6.py:52-55 | as written, a stale ES6 destination is removed and then `NotImplementedError` is raised with no command run |
| Engine.BaseCompileWithoutCommand | civet/compilers/base_compiler.py:185-193 | for a stale destination and the stub command: the destination is gone, "Compiling src" is printed, no command runs, nothing reaches stderr and `NotImplementedError` is raised |
| Engine.ES6CompileAsWrittenRaises | civet/compilers/es6.py:52-55 | as written, once `mkdir_p` succeeds and the destination is stale, ES6 compile prints "Compiling src", runs nothing, leaves no destination and raises `NotImplementedError` |
| Engine.ES6CompileAsWrittenFailsOnFirstRun | civet/compilers/es6.py:52-55 | as written, a missing ES6 destination (the first run) is not produced: `NotImplementedError`, no command |
| Engine.ES6CompileRunsBabelOnFirstRun | civet/compilers/es6.py:43-55 | as intended, a missing ES6 destination makes Babel run once with the five arguments; success exactly on exit code 0 |
| Engine.CompileAllES6Raises | civet/compilers/base_compiler.py:195-202 | as written, ES6 `compile_all` whose first file is stale raises `NotImplementedError` with no command run and nothing on stderr |
| Engine.ES6CompileRunsBabel | civet/compilers/es6.py:43-55 | as intended, a stale ES6 destination is removed and Babel runs once; success exactly on exit code 0 |
| Engine.CompileUpToDateRunsNothing | civet/compilers/base_compiler.py:185-187 | no backend runs a command for an up-to-date destination, and only ES6 may create files (its output directory) |
| Engine.CompileEachFailFast | civet/compilers/base_compiler.py:200-201 | once a compile raises, later pairs are never looked at |
| Engine.CompileEachAppend | civet/compilers/base_compiler.py:200-201 | without an error, compiling two lists compiles the second from the state the first left |
| Engine.SassCompileAll | civet/compilers/sass.py:110-121 | one sass run with the prefix, `--update` and the pairs; success exactly on exit code 0, else `CalledProcessError` with the program name and the code (as written, swapped); no file changes |
| Engine.SassUpdateArgsShape | civet/compilers/sass.py:114-116 | the arguments are the prefix, `--update`, then exactly the directory pairs |
| Engine.RunCommandOn | civet/compilers/base_compiler.py:191-193 | the same state and outcome as `RunCommand` |
| Engine.BaseCompileOn | civet/compilers/base_compiler.py:179-193 | the same state and outcome as `BaseCompileWith` |
| Engine.RewriteMapFileOn | civet/compilers/coffeescript.py:77-85 | the same state and outcome as `RewriteMapFile` |
| Engine.MkdirPOn | civet/compilers/es6.py:7-14 | the same state and outcome as `MkdirP` |
| Engine.CompileOn | civet/compilers/coffeescript.py:36-85 | the same state and outcome as `Compile` for the backend, the program as written (ES6 hits the stub) |
| Engine.SassCompileAllOn | civet/compilers/sass.py:110-121 | the same state and outcome as `SassCompileAll` |
| Engine.CompileAllOn | civet/compilers/base_compiler.py:195-202 | the loop leaves the state and outcome of `CompileAll`, the program as written |
| Watch.MappedDir | civet/compilers/base_compiler.py:59-62 | a destination directory exists exactly when the source's directory is mapped to a non-empty one |
| Watch.GetDstPathAsWritten | civet/compilers/base_compiler.py:58-66 | as written: a path exactly when the directory is mapped, whose file name is the source's stem plus the output extension |
| Watch.GetDstPathAsWrittenIgnoresMap | civet/compilers/base_compiler.py:64-66 | as written, with an absolute assets directory not ending in '/', the destination sits directly in the precompiled assets directory, whatever the map says |
| Watch.GetDstPathAsWrittenNestsRelative | civet/compilers/base_compiler.py:64-66 | as written, with a non-empty relative assets directory not ending in '/' and a mapped directory not ending in '/', the destination is the mapped directory, '/', the assets directory, '/', then the output file name: the assets directory is nested below the mapped one |
| Watch.GetDstPathAsWrittenMisplaces | civet/compilers/base_compiler.py:64-66 | so for a source in any mapped sub-directory the as-written path differs from the intended one |
| Watch.GetDstPath | civet/compilers/base_compiler.py:58-66 | as intended: a path exactly when the directory is mapped; its file name is the source's stem plus the output extension, in the mapped directory |
| Watch.WatchTargetMatchesBatch | civet/compilers/base_compiler.py:58-66 | for the last pair of a directory, the intended watch-mode destination splits into the same directory and name as the batch destination |
| Watch.DestFileName | civet/compilers/base_compiler.py:64-65 | the output file name of a plain source name is its stem plus the extension, non-empty, relative and slash-free |
| Watch.JoinFileName | civet/compilers/base_compiler.py:66 | joining a directory and a file name keeps both recoverable |
| Watch.HandlerCompile | civet/compilers/base_compiler.py:68-79 | no destination (from `get_dst_path` as written) gives the warning and nothing else; otherwise the compiler's compile to that destination, with `CalledProcessError` swallowed and other errors escaping |
| Watch.OnDeleted | civet/compilers/base_compiler.py:89-95 | a deletion raises nothing and changes only stderr: one "Directory … deleted" line for a directory, one "File … deleted" line for a matching file, nothing for any other file |
| Watch.OnCreated | civet/compilers/base_compiler.py:81-87 | a new directory writes "New directory … created but not watched" to stderr and nothing else; a new file is handled exactly as a modification of it |
| Watch.OnModified | civet/compilers/base_compiler.py:97-100 | a modified directory, or a file the compiler does not match, changes nothing and raises nothing; a modified matching file goes to the handler's compile |
| Watch.OnMoved | civet/compilers/base_compiler.py:102-112 | a moved directory is reported exactly as a deleted one; a file moved between two matching names writes the rename warning, then is handled as a modification of the new name; any other file move changes nothing |
| Watch.HandleEvent | civet/compilers/base_compiler.py:81-112 | no contract of its own: watchdog's dispatch to the four callbacks; HandleEventCompilesOnlyMatches and HandleEventSwallowsCommandFailure state it |
| Watch.Deliver | civet/compilers/base_compiler.py:81-112 | no contract of its own: events handled one after another until one raises; DeliverQuiet states it |
| Watch.HandleEventCompilesOnlyMatches | civet/compilers/base_compiler.py:81-112 | an event compiles exactly when it is a creation, modification or move of a matching file (to a matching file), after the rename warning for a move; any other event raises nothing and only appends its warnings (EventWarnings) to stderr |
| Watch.DirectoryEvents | civet/compilers/base_compiler.py:81-112 | a created directory is reported as not watched, a deleted or moved one as deleted, each with one stderr line and nothing else; a modified directory changes nothing |
| Watch.FileDeletedEvent | civet/compilers/base_compiler.py:89-95 | deleting a matching file writes exactly one "File … deleted" line; deleting any other file changes nothing |
| Watch.HandleEventSwallowsCommandFailure | civet/compilers/base_compiler.py:76-79 | no event lets `CalledProcessError` escape |
| Watch.ModifiedCompiles | civet/compilers/base_compiler.py:97-100 | a modified matching file is handed to the handler's compile |
| Watch.ModifiedUpToDateRunsNothing | civet/compilers/base_compiler.py:97-100 | a modification whose as-written destination is up to date runs no command |
| Watch.ModifiedIgnored | civet/compilers/base_compiler.py:97-100 | a modification of a file the compiler does not match changes nothing and raises nothing |
| Watch.HandlerCompileUpToDate | civet/compilers/base_compiler.py:68-79 | the handler's compile of a file whose as-written destination is up to date runs no command |
| Watch.ModifiedES6StaleRaises | civet/compilers/base_compiler.py:68-79 | as written, a modified ES6 source with a stale destination makes the handler raise `NotImplementedError`, which it does not catch; no command runs and nothing reaches stderr |
| Watch.DeliverQuiet | civet/compilers/base_compiler.py:81-112 | any sequence of events that compile nothing changes no file, runs nothing and prints nothing to stdout |
| Watch.Observer.constructor | civet/asset_precompiler.py:75-76 | a new observer has nothing scheduled and is not started |
| Watch.Observer.ScheduleOn | civet/compilers/base_compiler.py:209-210 | `observer.schedule` appends one schedule |
| Watch.Observer.Start | civet/compilers/base_compiler.py:33-41 | `start` marks the observer started and keeps its schedules |
| Watch.WatchSchedules | civet/compilers/base_compiler.py:204-210 | no contract of its own: one handler over the directory map, scheduled on each of its keys; WatchSchedulesEachSourceDirOnce states it |
| Watch.SassWatchArgs | civet/compilers/sass.py:125-127 | no contract of its own: the arguments of the `--watch` process; SassWatchArgsMatchUpdate states them |
| Watch.Watch | civet/compilers/base_compiler.py:204-215 | no contract of its own: `watch`, the Sass override (civet/compilers/sass.py:123-136) or the base method; WatchEffects and WatchOn state it |
| Watch.SchedulesFor | civet/compilers/base_compiler.py:209-210 | one non-recursive schedule per directory, in order |
| Watch.WatchSchedulesEachSourceDirOnce | civet/compilers/base_compiler.py:204-210 | every directory holding a source is scheduled, and none twice |
| Watch.SassWatchArgsMatchUpdate | civet/compilers/sass.py:123-128 | the `--watch` process gets the update command with `--update` replaced by `--watch` |
| Watch.WatchEffects | civet/compilers/sass.py:123-136 | watching prints one line and touches no file; Sass spawns `sass --watch` and schedules nothing, the others schedule their handlers and spawn nothing |
| Watch.ScheduleAll | civet/compilers/base_compiler.py:209-210 | the loop appends exactly `SchedulesFor` |
| Watch.WatchOn | civet/compilers/base_compiler.py:204-215 | the new host state and schedules are those of `Watch` |
| Precompiler.IgnorePatterns | civet/asset_precompiler.py:113-116 | `CVS`, `.*`, `*~`, then the configured extra patterns |
| Precompiler.UnitsFor | civet/asset_precompiler.py:125-139 | no contract of its own: the pairs one compiler receives from the listed files; UnitsForComplete, UnitsForSound and UnitsForSnoc state it |
| Precompiler.CollectFiles | civet/asset_precompiler.py:101-140 | one list of pairs per compiler |
| Precompiler.UnitsForSnoc | civet/asset_precompiler.py:135-139 | a listed file adds its pair to a compiler's list exactly when it is selected |
| Precompiler.UnitsForAppend | civet/asset_precompiler.py:125-139 | collecting over two listings is collecting over each in turn |
| Precompiler.UnitsForComplete | civet/asset_precompiler.py:135-139 | every file that is not ignored and matches gets its pair in the compiler's list |
| Precompiler.UnitsForSound | civet/asset_precompiler.py:135-139 | every pair in the list comes from such a file |
| Precompiler.UnitsForDuplicate | civet/asset_precompiler.py:125-139 | a file listed twice is collected twice (a list, not a set) |
| Precompiler.UnitsForSingle | civet/asset_precompiler.py:125-139 | a single kept file gives exactly its one `(realpath, dest)` pair |
| Precompiler.UnitsForIgnored | civet/asset_precompiler.py:135 | a file under an ignored directory adds nothing to any list |
| Precompiler.UnitsForKept | civet/asset_precompiler.py:135-139 | any other file is offered to every compiler |
| Precompiler.ListedSnoc | civet/asset_precompiler.py:125-126 | the files come from the finders in order |
| Precompiler.RecordFile | civet/asset_precompiler.py:128-139 | one listed file updates every compiler's list as `UnitsFor` says |
| Precompiler.OfferToAll | civet/asset_precompiler.py:136-139 | each compiler whose `matches` holds gets the pair appended |
| Precompiler.CollectFilesOn | civet/asset_precompiler.py:118-140 | the nested loop returns exactly `CollectFiles` |
| Precompiler.BuildCompilers | civet/asset_precompiler.py:79-81 | success exactly when every class constructs; then one compiler per class, in order; otherwise `raise_error_or_kill` |
| Precompiler.BuildCompilersOn | civet/asset_precompiler.py:79-81 | the loop returns exactly `BuildCompilers` |
| Precompiler.CompileBatches | civet/asset_precompiler.py:85-88 | no contract of its own: the batch loop over the compilers with files, stopping at the first exception; CompileBatchesCons, CompileBatchesSplit and CompileBatchesOn state it |
| Precompiler.WatchAll | civet/asset_precompiler.py:95-97 | no contract of its own: `watch` on each compiler in order; WatchAllCompilesNothing and WatchAllOn state it |
| Precompiler.SetUp | civet/asset_precompiler.py:52-81 | no contract of its own: the settings check, the assets directory, STATICFILES_DIRS and the compilers; SetUpOutcome states it |
| Precompiler.CompileAndWatch | civet/asset_precompiler.py:83-98 | no contract of its own: collection, the batch under its `try`, then watching when asked; CompileAndWatchOutcome and CompileAndWatchEscapes state it |
| Precompiler.Finish | civet/asset_precompiler.py:83-98 | no contract of its own: a stopped set-up ends the run, a ready one goes on to compile and watch; FinishOn states it |
| Precompiler.PrecompileAssets | civet/asset_precompiler.py:52-98 | no contract of its own: `precompile_assets`, set-up then the rest; WatchingOnlyAfterSuccess, MissingAssetDirSetting, BatchFailureStopsRun and ES6StaleUnitEndsRun state it |
| Precompiler.CompileBatchesOfNothing | civet/asset_precompiler.py:86-88 | compilers without files do nothing, not even print |
| Precompiler.CompileBatchesSplit | civet/asset_precompiler.py:85-88 | when the compilers before one raise nothing, the loop goes on from the state they leave |
| Precompiler.CompileBatchesCons | civet/asset_precompiler.py:86-88 | one turn of the loop: the first compiler runs `compile_all` only when it has files, and the rest run from the state it leaves unless it raised |
| Precompiler.ES6StaleUnitEndsRun | civet/asset_precompiler.py:83-93 | as written, a run whose batch reaches an ES6 compiler with a stale first file ends in `NotImplementedError`: nothing is watched, no further command runs, and the incomplete-precompilation line is not written |
| Precompiler.ES6StaleBatchRaises | civet/asset_precompiler.py:85-88 | as written, when the loop reaches an ES6 compiler whose first file is stale, it raises `NotImplementedError` and no command runs after those of the compilers before it |
| Precompiler.CompileAndWatchEscapes | civet/asset_precompiler.py:85-98 | an error other than `CalledProcessError` escapes the `except` clause: the run ends with it, without the incomplete-precompilation line and without watching |
| Precompiler.Batch | civet/asset_precompiler.py:85-93 | a `CalledProcessError` prints the incomplete message and ends in `raise_error_or_kill`; any other outcome is that of the loop |
| Precompiler.WatchAllCompilesNothing | civet/asset_precompiler.py:95-97 | starting to watch changes no file, runs nothing, and adds one stdout line per compiler |
| Precompiler.EnsureAssetDir | civet/asset_precompiler.py:67-70 | an existing directory is left alone; otherwise a notice is printed and `os.makedirs` runs (paths taken literally; see Host.Mkdir under Left out) |
| Precompiler.AddStaticDir | civet/asset_precompiler.py:72-73 | the directory is in `STATICFILES_DIRS` afterwards, appended only when it was missing |
| Precompiler.AddStaticDirIdempotent | civet/asset_precompiler.py:72-73 | adding it twice is adding it once |
| Precompiler.AddStaticDirOnce | civet/asset_precompiler.py:72-73 | a list without repetitions stays without repetitions |
| Precompiler.MissingAssetDirSetting | civet/asset_precompiler.py:22-24 | without `CIVET_PRECOMPILED_ASSET_DIR` the run is the `AssertionError` alone, with nothing changed |
| Precompiler.WatchingOnlyAfterSuccess | civet/asset_precompiler.py:52-98 | the observer is started exactly when watching was asked for and the run succeeded; a run that does not raise has the assets directory in `STATICFILES_DIRS` |
| Precompiler.SetUpOutcome | civet/asset_precompiler.py:67-81 | set-up either stops with an exception or has the assets directory registered |
| Precompiler.CompileAndWatchOutcome | civet/asset_precompiler.py:83-98 | after set-up the run ends in success or an exception, and watches exactly on success when asked |
| Precompiler.BatchFailureStopsRun | civet/asset_precompiler.py:85-93 | a failing command in the batch ends the run with `raise_error_or_kill`, the incomplete message last on stderr and nothing watched |
| Precompiler.Settings.constructor | civet/asset_precompiler.py:72 | the settings object holds the given `STATICFILES_DIRS` |
| Precompiler.Settings.AddStaticfilesDir | civet/asset_precompiler.py:72-73 | updates `STATICFILES_DIRS` as `AddStaticDir` |
| Precompiler.CompileBatchesOn | civet/asset_precompiler.py:85-88 | the loop leaves the state and outcome of `CompileBatches` |
| Precompiler.WatchAllOn | civet/asset_precompiler.py:95-97 | the loop leaves the state and schedules of `WatchAll` |
| Precompiler.EnsureAssetDirOn | civet/asset_precompiler.py:67-70 | the same state and outcome as `EnsureAssetDir` |
| Precompiler.SetUpOn | civet/asset_precompiler.py:67-81 | the same result as `SetUp`; the host and settings are left as it says |
| Precompiler.FinishOn | civet/asset_precompiler.py:83-98 | the host, settings, outcome and observer are those `Finish` gives |
| Precompiler.CompileAndWatchOn | civet/asset_precompiler.py:83-98 | the host, outcome and observer are those `CompileAndWatch` gives; the observer is started exactly when it watches |
| Precompiler.PrecompileAssetsOn | civet/asset_precompiler.py:52-98 | the host, `STATICFILES_DIRS`, outcome and observer are exactly those of `PrecompileAssets`; the observer is started exactly when the run watches, with its schedules |

## Left out

- `precompile_and_watch_assets` (civet/asset_precompiler.py:44-49) runs `precompile_assets` on a new thread. Threads are not modelled; the model is the body that the thread runs.
- The observer's own thread, the `atexit` clean-up hooks, `process.kill()` of the `sass --watch` child, and `os.kill(getpid(), SIGINT)` are left out. These are process control outside the model. `raise_error_or_kill` is modelled by the outcome it ends in.
- The programs civet runs (coffee, babel, sass, bundle) write no files in the model. Their effect is their exit code from the oracle. So a CoffeeScript map file exists only if it was there before.
- `find_executable` is a map from names to paths. The `bundle list` probe is its outcome: failed, sass listed, or sass not listed. The regular expression is not modelled.
- The construction error messages on stderr (civet/compilers/sass.py:46-80, civet/compilers/base_compiler.py:116-140) are left out. Only the outcome is modelled.
- `BUNDLE_GEMFILE` in the child environment is left out. The gemfile travels with the invocation instead.
- Django's finders, storages and ignore-pattern matching are functions given as parameters. `os.path.realpath` is the finder's `realPath`, so symbolic links are not resolved by the model.
- Paths are plain strings with no `..` and no current directory. The string functions (split, join, dirname) treat them as `os.path` does. The filesystem operations do not normalise them as the operating system does; see the next line.
- Host.Mkdir / Host.Exists: the host's entries are keyed by the exact path string, so `/out/` and `/out` name different entries, and so do `a//b` and `a/b`. `exists`, `isdir`, `mkdir`, `getmtime` and `remove` resolve paths through the operating system, where these are the same. Take a setting such as `CIVET_PRECOMPILED_ASSET_DIR = "/out/"` with `/` an existing directory. When `/out` is missing, the model's `os.makedirs` raises ENOENT, because `Mkdir` looks for the parent `/out`; civet creates the directory and goes on. When `/out` already exists, the model prints the creation notice and adds a second entry; civet prints nothing (civet/asset_precompiler.py:67-70).
- File times are integers. A directory created gets the oracle's single `now`. Rewriting a map file keeps its time.
- JSON is modelled as a map of fields. Parsing, formatting and non-object documents written by the tools are left out.
- `ES6Compiler.args` (civet/compilers/es6.py:23) is set but never used by civet, so it is left out.
- `civet/utils.py`, `setup.py` and `civet/management/commands/runserver.py` are not part of this model.
- Watchdog's event dispatch is `Deliver`. It stops at the first exception a callback lets through, standing for the observer thread dying. Event ordering and coalescing are watchdog's own and not modelled.
- WatchAllCompilesNothing: states how many lines reach stdout and that earlier output is kept, not their text. The lines are in WatchEffects, one compiler at a time.
- TopmostNoneNested: the "one and only one" of the docstring is proved only when no path holds a character that sorts below '/'. Without that, nesting can remain, and TopmostKeepsNestedAcrossLowCharacter shows an input where it does. The corrected TopmostIntended holds it for every input (see "## Findings").
- TopmostCoversExactlyOnce: same precondition as TopmostNoneNested, for the same reason.
- CollectExample: the docstring's paths are written as `dir + "/" + name` so that the general dirname lemma applies. It is the same string.
- SassCompileAll: the `CalledProcessError` is built with the program name and the exit code in swapped places, as in the source. Nothing in civet reads those fields, so the model keeps them as written.
- DictKeys: a Python 2 dict iterates in an unspecified order. The model fixes first-insertion order, the order of Python 3.7 dicts. Two things depend on that order. One is the order of the `observer.schedule` calls (civet/compilers/base_compiler.py:209-210). The other is the order of the `src:dst` arguments given to `sass --update` and `sass --watch`: civet/compilers/sass.py:104 rebuilds the dict from the sorted topmost directories and line 108 iterates it, so under Python 2 the arguments come in hash order. Compilers.DirPairs uses the sorted order. Only the sets of keys and of Sass directory pairs are free of dict order.
- DirPairs: gives the Sass `src:dst` arguments in the sorted order of the topmost directories. Under Python 2 their order is the hash order of the rebuilt dict, which the model does not represent.
- Unicode: characters compare by code point, as Python's `str` does. Byte strings and encodings are not modelled.

## Findings

| source | as written | input that shows it | evidently intended | confidence | as-written member | corrected member |
|---|---|---|---|---|---|---|
| civet/compilers/base_compiler.py:58-66 | `get_dst_path` joins the mapped destination directory with `compiler.get_dest_path(base, ext)`, which already starts with the precompiled assets directory. With an absolute assets directory not ending in '/', that value is absolute and `os.path.join` discards the mapped directory. With a relative one such as `out`, the assets directory is nested below the mapped one (`out/app/out/foo.js`). | assets directory `/out`; map `/src/app/js` → `/out/app/js`; source `/src/app/js/foo.coffee`. As written: `/out/foo.js`. The batch compile writes `/out/app/js/foo.js`. | the output file name inside the mapped directory, `/out/app/js/foo.js` | not executed | Watch.GetDstPathAsWritten, Watch.GetDstPathAsWrittenIgnoresMap, Watch.GetDstPathAsWrittenMisplaces, Watch.GetDstPathAsWrittenNestsRelative | Watch.GetDstPath, Watch.WatchTargetMatchesBatch |
| civet/compilers/es6.py:43-50 | `ES6Compiler` defines `get_arguments`, but `Compiler.compile` calls `get_command_with_arguments` (civet/compilers/base_compiler.py:192). That is the base stub, which raises `NotImplementedError` (civet/compilers/base_compiler.py:173-177). | any `.es6` source whose destination is missing or older. The stale destination is removed, then `NotImplementedError` is raised and Babel never runs. | the compile runs `babel --source-maps true -o dst src` | not executed | Engine.ES6CompileAsWritten, Engine.ES6CompileAsWrittenFails, Engine.ES6CompileAsWrittenFailsOnFirstRun, Precompiler.ES6StaleUnitEndsRun, Compilers.CommandAsWritten | Engine.ES6Compile, Engine.ES6CompileRunsBabel, Engine.ES6CompileRunsBabelOnFirstRun, Compilers.Command |
| civet/util.py:25-26 | `get_shortest_topmost_directories` compares each directory with the most recently kept one only (civet/util.py:47-52). Plain string sorting puts a sibling such as `/a-b` between `/a` and `/a/c`, because '-' sorts below '/'. | `['/a', '/a-b', '/a/c']`: all three are returned, although `/a` covers `/a/c`. | each directory is reached from one and only one returned directory, so the result is `['/a', '/a-b']` | not executed | Util.Topmost, Util.TopmostKeepsNestedAcrossLowCharacter | Util.TopmostIntended, Util.TopmostIntendedReduces, Util.TopmostIntendedCoversExactlyOnce, Util.TopmostIntendedAgrees, Util.TopmostIntendedDropsNestedAcrossLowCharacter |
