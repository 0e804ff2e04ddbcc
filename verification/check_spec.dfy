/** What the check computes, as functions: one step per file, the whole pass
    as a fold over the files, and the decision taken once the pass is over.
    The `Process` method in CheckMojo is proved to compute exactly this. */
module CheckSpec {
  import opened Paths
  import opened LintMap
  import opened Report
  import opened Collaborators

  /** Everything the pass has accumulated so far: the dirty files in visiting
      order, the lint map, the cache, and the logs of calculations started and
      cache writes made. */
  datatype Acc = Acc(
    problemFiles: seq<Path>,
    lints: seq<Entry>,
    cache: set<Path>,
    examined: seq<Path>,
    written: seq<Path>)

  /** The state before the first file, with the cache as the caller hands it over. */
  function Start(cache: set<Path>): Acc {
    Acc([], [], cache, [], [])
  }

  /** The two calculations for one file, the lints computed against the dirty state. */
  function Calculate(calculator: Calculator, file: Path): Result<(DirtyState, seq<Lint>)> {
    match calculator.dirtyStateOf(file)
    case Err(e) => Err(e)
    case Ok(dirtyState) =>
      match calculator.lintsAgainst(file, dirtyState)
      case Err(e) => Err(e)
      case Ok(lints) => Ok((dirtyState, lints))
  }

  datatype StepResult = Next(acc: Acc) | Abort(error: IOError, acc: Acc)

  /** One turn of the loop: skip an up-to-date file; otherwise calculate,
      record the lints if there are any, record the file if it is dirty, and
      cache it if it is both clean and lint-free. An I/O error stops here,
      after the calculation was started and before anything is recorded. */
  function Step(calculator: Calculator, acc: Acc, file: Path): (r: StepResult)
    ensures file in acc.cache ==> r == Next(acc)
    ensures file !in acc.cache ==> r.acc.examined == acc.examined + [file]
    ensures r.Abort? <==> file !in acc.cache && Calculate(calculator, file).Err?
    ensures r.Abort? ==> r.acc == acc.(examined := acc.examined + [file])
    ensures r.acc.cache <= acc.cache + {file}
    ensures file in r.acc.cache <==> file in acc.cache || Calculate(calculator, file) == Ok((Clean, []))
  {
    if file in acc.cache then Next(acc)
    else
      var seen := acc.(examined := acc.examined + [file]);
      match Calculate(calculator, file)
      case Err(e) => Abort(e, seen)
      case Ok((dirtyState, lints)) =>
        var upToDate := lints == [] && dirtyState == Clean;
        Next(seen.(
          lints := if lints != [] then Put(acc.lints, file, lints) else acc.lints,
          problemFiles := if dirtyState != Clean then acc.problemFiles + [file] else acc.problemFiles,
          cache := if upToDate then acc.cache + {file} else acc.cache,
          written := if upToDate then acc.written + [file] else acc.written))
  }

  datatype RunResult = Completed(acc: Acc) | Aborted(file: Path, error: IOError, acc: Acc)

  /** The loop over the files, in the order given. An aborted run names a
      listed file, the last one whose calculation was started. */
  function Run(calculator: Calculator, files: seq<Path>, acc: Acc): (r: RunResult)
    ensures r.Aborted? ==> r.file in files && |r.acc.examined| > 0 && r.acc.examined[|r.acc.examined| - 1] == r.file
    decreases |files|
  {
    if files == [] then Completed(acc)
    else
      match Step(calculator, acc, files[0])
      case Abort(e, a) => Aborted(files[0], e, a)
      case Next(a) => Run(calculator, files[1..], a)
  }

  /** How the check ends. `Fixable` carries the files the diff report covers
      and the remediation line, `Unfixable` the lines printed to the error
      stream and the exception message, `IOFailure` the file that failed. */
  datatype Outcome =
    | Success
    | Fixable(problemFiles: seq<Path>, runToFix: string)
    | Unfixable(printed: seq<string>, message: string)
    | IOFailure(file: Path, message: string, cause: IOError)

  const RunToFix := "Run 'mvn spotless:apply' to fix these violations."
  const CannotFix := "'mvn spotless:apply' cannot fix these violations."

  const UnableToFormatPrefix := "Unable to format file "

  /** The message of the abort: a fixed prefix followed by the file. */
  function UnableToFormat(file: Path): (message: string)
    ensures |message| == |UnableToFormatPrefix| + |file|
    ensures message[..|UnableToFormatPrefix|] == UnableToFormatPrefix
    ensures message[|UnableToFormatPrefix|..] == file
  {
    UnableToFormatPrefix + file
  }

  /** The decision after the loop. Dirty files win over lints; lint lines are
      printed only when no file is dirty, one line per lint. */
  function Decide(r: RunResult): (o: Outcome)
    ensures o.IOFailure? <==> r.Aborted?
    ensures o.Fixable? <==> r.Completed? && r.acc.problemFiles != []
    ensures o.Unfixable? <==> r.Completed? && r.acc.problemFiles == [] && r.acc.lints != []
    ensures o.Unfixable? ==> |o.printed| == TotalLints(r.acc.lints)
  {
    match r
    case Aborted(file, e, _) => IOFailure(file, UnableToFormat(file), e)
    case Completed(a) =>
      if a.problemFiles != [] then Fixable(a.problemFiles, RunToFix)
      else if a.lints != [] then PairsCount(a.lints); Unfixable(Render(a.lints), CannotFix)
      else Success
  }

  // Reference definitions, file by file, for a list without repeated files.

  predicate Distinct(files: seq<Path>) {
    forall i, j :: 0 <= i < j < |files| ==> files[i] != files[j]
  }

  /** No file that the cache does not hold fails to calculate. */
  predicate NoIOErrors(calculator: Calculator, cache: set<Path>, files: seq<Path>) {
    forall f :: f in files && f !in cache ==> Calculate(calculator, f).Ok?
  }

  /** The files not held by the cache, in order. */
  function Unskipped(cache: set<Path>, files: seq<Path>): seq<Path> {
    if files == [] then []
    else (if files[0] !in cache then [files[0]] else []) + Unskipped(cache, files[1..])
  }

  /** The files not held by the cache whose dirty state is not clean, in order. */
  function DirtyFiles(calculator: Calculator, cache: set<Path>, files: seq<Path>): seq<Path> {
    if files == [] then []
    else
      var f := files[0];
      var dirty := f !in cache && Calculate(calculator, f).Ok? && Calculate(calculator, f).value.0 != Clean;
      (if dirty then [f] else []) + DirtyFiles(calculator, cache, files[1..])
  }

  /** The files not held by the cache that are clean and have no lints, in order. */
  function CleanFiles(calculator: Calculator, cache: set<Path>, files: seq<Path>): seq<Path> {
    if files == [] then []
    else
      var f := files[0];
      var clean := f !in cache && Calculate(calculator, f) == Ok((Clean, []));
      (if clean then [f] else []) + CleanFiles(calculator, cache, files[1..])
  }

  /** Each file not held by the cache that has lints, mapped to its lints. */
  function FlaggedLints(calculator: Calculator, cache: set<Path>, files: seq<Path>): map<Path, seq<Lint>> {
    map f | f in files && f !in cache && Calculate(calculator, f).Ok? && Calculate(calculator, f).value.1 != []
      :: Calculate(calculator, f).value.1
  }

  /** The list with every occurrence of `file` removed. */
  function Without(files: seq<Path>, file: Path): seq<Path> {
    if files == [] then []
    else (if files[0] == file then [] else [files[0]]) + Without(files[1..], file)
  }
}
