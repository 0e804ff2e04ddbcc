/** What the check consumes from outside: the dirty-state and lint calculation
    behind a formatter, and the up-to-date cache. Both are opaque to the check;
    here the calculation is a pair of deterministic functions that may fail with
    an I/O error, and the cache is a set of paths. Each object keeps a ghost log
    of the calls made on it, so that "no work" and "written exactly once" are
    observable. */
module Collaborators {
  import opened Paths
  import opened LintMap

  /** Whether formatting would change a file. */
  datatype DirtyState = Clean | Dirty

  /** An `IOException` raised while reading or formatting a file. */
  datatype IOError = IOError(message: string)

  datatype Result<T> = Ok(value: T) | Err(error: IOError)

  /** The calculation behind `DirtyState.of(formatter, file)`: the dirty state
      of a file, and the lints of a file computed against a given dirty state. */
  datatype Calculator = Calculator(
    dirtyStateOf: Path -> Result<DirtyState>,
    lintsAgainst: (Path, DirtyState) -> Result<seq<Lint>>)

  /** The formatter handed to the check. */
  class Formatter {
    const calculator: Calculator
    /** The files a calculation was started for, in call order. */
    ghost var calculated: seq<Path>

    constructor (calculator: Calculator)
      ensures this.calculator == calculator && calculated == []
    {
      this.calculator := calculator;
      calculated := [];
    }

    /** `DirtyState.of(formatter, file).calculateDirtyState()`. */
    method CalculateDirtyState(file: Path) returns (r: Result<DirtyState>)
      modifies this`calculated
      ensures r == calculator.dirtyStateOf(file)
      ensures calculated == old(calculated) + [file]
    {
      r := calculator.dirtyStateOf(file);
      calculated := calculated + [file];
    }

    /** `calculation.calculateLintAgainstDirtyState(dirtyState)`. */
    method CalculateLintAgainstDirtyState(file: Path, dirtyState: DirtyState) returns (r: Result<seq<Lint>>)
      ensures r == calculator.lintsAgainst(file, dirtyState)
    {
      r := calculator.lintsAgainst(file, dirtyState);
    }
  }

  /** The incremental cache: the paths known to be clean and lint-free. */
  class UpToDateChecker {
    var upToDate: set<Path>
    /** The paths passed to `setUpToDate`, in call order. */
    ghost var written: seq<Path>

    constructor (entries: set<Path>)
      ensures upToDate == entries && written == []
    {
      upToDate := entries;
      written := [];
    }

    /** `isUpToDate(path)`: the cache holds the path. */
    method IsUpToDate(file: Path) returns (b: bool)
      ensures b <==> file in upToDate
    {
      b := file in upToDate;
    }

    /** `setUpToDate(path)`: the cache now holds the path too. */
    method SetUpToDate(file: Path)
      modifies this
      ensures upToDate == old(upToDate) + {file}
      ensures written == old(written) + [file]
    {
      upToDate := upToDate + {file};
      written := written + [file];
    }
  }
}
