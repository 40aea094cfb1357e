/**
 * How an operation of the core ends: normally, or by one of the exceptions
 * the Python code raises or lets through.
 */
module Errors {

  import opened Paths

  /** The `errno` values the filesystem model produces. */
  datatype Errno = EEXIST | ENOENT | ENOTDIR | EISDIR

  /** A positional argument of `CalledProcessError(returncode, cmd)`. */
  datatype Arg = Code(code: int) | Word(word: string) | Words(words: seq<string>)

  datatype Outcome =
    | Ok
      /** subprocess.CalledProcessError(returncode, cmd) */
    | CalledProcessError(returncode: Arg, cmd: Arg)
      /** the base class's `get_command_with_arguments` stub */
    | NotImplementedError
      /** OSError and its subclasses, with the path involved */
    | OSError(errno: Errno, path: Path)
      /** json.load or the item assignment on a map file that is not a JSON object */
    | InvalidSourceMap(path: Path)
      /** AssertionError raised by raise_error_or_kill, or at import time */
    | AssertionError
      /** sys.exit(code) */
    | SystemExit(status: int)
  {
    predicate Raised() { !Ok? }
  }

  datatype Result<T> = Success(value: T) | Failure(error: Outcome)

  /** A Python value that may be `None`. */
  datatype Option<T> = None | Some(value: T)
}
