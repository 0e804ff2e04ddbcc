/** The check goal: visit the files, consult and update the up-to-date cache,
    collect dirty files and lints, then fail with the fixable report, the
    unfixable lint listing, or succeed. */
module CheckMojo {
  import opened Paths
  import opened LintMap
  import opened Report
  import opened Collaborators
  import opened CheckSpec

  /** The check over `files` in the given order. The outcome, the cache
      afterwards, the calculations started and the cache writes made are
      exactly those of the specification `Run` from the cache as it was. */
  method Process(files: seq<Path>, formatter: Formatter, upToDateChecker: UpToDateChecker)
    returns (outcome: Outcome)
    modifies formatter`calculated, upToDateChecker
    ensures var r := Run(formatter.calculator, files, Start(old(upToDateChecker.upToDate)));
      && outcome == Decide(r)
      && upToDateChecker.upToDate == r.acc.cache
      && formatter.calculated == old(formatter.calculated) + r.acc.examined
      && upToDateChecker.written == old(upToDateChecker.written) + r.acc.written
  {
    ghost var calculator := formatter.calculator;
    ghost var start := Start(upToDateChecker.upToDate);
    var problemFiles: seq<Path> := [];
    var allLints: seq<Entry> := [];
    ghost var examined: seq<Path> := [];
    ghost var written: seq<Path> := [];
    for i := 0 to |files|
      invariant formatter.calculated == old(formatter.calculated) + examined
      invariant upToDateChecker.written == old(upToDateChecker.written) + written
      invariant Run(calculator, files, start)
             == Run(calculator, files[i..], Acc(problemFiles, allLints, upToDateChecker.upToDate, examined, written))
    {
      ghost var acc := Acc(problemFiles, allLints, upToDateChecker.upToDate, examined, written);
      var file := files[i];
      assert files[i..][1..] == files[i + 1..];
      var upToDate := upToDateChecker.IsUpToDate(file);
      if upToDate {
        continue;
      }
      var dirtyState := formatter.CalculateDirtyState(file);
      examined := examined + [file];
      if dirtyState.Err? {
        return IOFailure(file, UnableToFormat(file), dirtyState.error);
      }
      var lints := formatter.CalculateLintAgainstDirtyState(file, dirtyState.value);
      if lints.Err? {
        return IOFailure(file, UnableToFormat(file), lints.error);
      }
      if lints.value != [] {
        allLints := Put(allLints, file, lints.value);
      }
      if dirtyState.value != Clean {
        problemFiles := problemFiles + [file];
      }
      if lints.value == [] && dirtyState.value == Clean {
        upToDateChecker.SetUpToDate(file);
        written := written + [file];
      }
      assert Step(calculator, acc, file)
          == Next(Acc(problemFiles, allLints, upToDateChecker.upToDate, examined, written));
    }

    if problemFiles != [] {
      return Fixable(problemFiles, RunToFix);
    }
    if allLints != [] {
      var lines := PrintLints(allLints);
      return Unfixable(lines, CannotFix);
    }
    return Success;
  }
}
