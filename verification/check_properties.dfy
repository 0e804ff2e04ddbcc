/** What the check promises, proved about the specification `Run` and
    `Decide` that the `Process` method implements. */
module CheckProperties {
  import opened Paths
  import opened LintMap
  import opened Report
  import opened Collaborators
  import opened CheckSpec

  /** Nothing accumulated is ever taken back: the cache and the logs only
      grow, the problem list only gets longer, and a non-empty lint map stays
      non-empty. */
  lemma {:induction false} RunGrows(calculator: Calculator, files: seq<Path>, acc: Acc)
    ensures var a := Run(calculator, files, acc).acc;
      && acc.cache <= a.cache
      && acc.problemFiles <= a.problemFiles
      && (acc.lints != [] ==> a.lints != [])
      && acc.examined <= a.examined
      && acc.written <= a.written
  {
    if files != [] {
      match Step(calculator, acc, files[0])
      case Abort(_, _) =>
      case Next(a) => RunGrows(calculator, files[1..], a);
    }
  }

  /** Only listed files are calculated, recorded, cached or named by a failure. */
  lemma {:induction false} ListedOnly(calculator: Calculator, files: seq<Path>, acc: Acc)
    ensures var r := Run(calculator, files, acc);
      && (forall g :: g in r.acc.examined ==> g in acc.examined || g in files)
      && (forall g :: g in r.acc.problemFiles ==> g in acc.problemFiles || g in files)
      && (forall g :: g in r.acc.written ==> g in acc.written || g in files)
      && (forall g :: g in r.acc.cache ==> g in acc.cache || g in files)
      && (forall g :: g in ToMap(r.acc.lints) ==> g in ToMap(acc.lints) || g in files)
      && (r.Aborted? ==> r.file in files)
  {
    if files != [] {
      match Step(calculator, acc, files[0])
      case Abort(_, _) =>
      case Next(a) =>
        ListedOnly(calculator, files[1..], a);
        assert forall g :: g in files[1..] ==> g in files;
    }
  }

  /** Removing `file` from the list. */
  lemma {:induction false} WithoutOmits(files: seq<Path>, file: Path)
    ensures file !in Without(files, file)
    ensures forall g :: g in Without(files, file) ==> g in files
  {
    if files != [] {
      WithoutOmits(files[1..], file);
    }
  }

  /** Once a file is in the cache, every later occurrence of it is a no-op:
      the run is the run over the list with that file removed. */
  lemma {:induction false} SkippedFileIgnored(calculator: Calculator, files: seq<Path>, acc: Acc, file: Path)
    requires file in acc.cache
    ensures Run(calculator, files, acc) == Run(calculator, Without(files, file), acc)
  {
    if files != [] {
      var w := Without(files, file);
      if files[0] == file {
        assert w == Without(files[1..], file);
        SkippedFileIgnored(calculator, files[1..], acc, file);
      } else {
        assert w == [files[0]] + Without(files[1..], file);
        assert w[1..] == Without(files[1..], file);
        match Step(calculator, acc, files[0])
        case Abort(_, _) =>
        case Next(a) => SkippedFileIgnored(calculator, files[1..], a, file);
      }
    }
  }

  /** A file the cache reports up to date gets no calculation, is never a
      problem file, never gets lints recorded, is never written to the cache,
      and is never the file a failure names. */
  lemma UpToDateFileUntouched(calculator: Calculator, files: seq<Path>, cache: set<Path>, file: Path)
    requires file in cache
    ensures var r := Run(calculator, files, Start(cache));
      && file !in r.acc.examined
      && file !in r.acc.problemFiles
      && file !in ToMap(r.acc.lints)
      && file !in r.acc.written
      && (r.Aborted? ==> r.file != file)
  {
    SkippedFileIgnored(calculator, files, Start(cache), file);
    WithoutOmits(files, file);
    ListedOnly(calculator, Without(files, file), Start(cache));
  }

  /** Fail fast: a run that fails stops at the first file whose calculation
      fails. Everything before it ran normally, the cache keeps what was
      written before it, and the files after it have no effect at all. */
  lemma {:induction false} FailFast(calculator: Calculator, files: seq<Path>, acc: Acc) returns (i: nat)
    requires Run(calculator, files, acc).Aborted?
    ensures var r := Run(calculator, files, acc);
      && i < |files| && files[i] == r.file
      && Run(calculator, files[..i], acc).Completed?
      && Step(calculator, Run(calculator, files[..i], acc).acc, files[i]) == Abort(r.error, r.acc)
      && r.acc.cache == Run(calculator, files[..i], acc).acc.cache
      && Run(calculator, files[..i + 1], acc) == r
  {
    match Step(calculator, acc, files[0])
    case Abort(_, _) =>
      i := 0;
      assert files[..0] == [];
      assert files[..1] == [files[0]];
      assert files[..1][1..] == [];
    case Next(a) =>
      var j := FailFast(calculator, files[1..], a);
      i := j + 1;
      assert files[..j + 1][1..] == files[1..][..j];
      assert files[..j + 2][1..] == files[1..][..j + 1];
      assert files[..j + 1][0] == files[0] && files[..j + 2][0] == files[0];
  }

  lemma AppendAssociative(a: seq<Path>, b: seq<Path>, c: seq<Path>)
    ensures (a + b) + c == a + (b + c)
  {
  }

  /** Facts about a list without repeated files. */
  lemma DistinctTail(files: seq<Path>)
    requires Distinct(files) && files != []
    ensures Distinct(files[1..])
    ensures files[0] !in files[1..]
    ensures forall g :: g in files[1..] ==> g in files && g != files[0]
  {
  }

  /** The first file of such a list takes a normal step, and the rest of the
      list meets the same conditions afterwards. */
  lemma StepOnDistinctHead(calculator: Calculator, files: seq<Path>, acc: Acc, cache: set<Path>)
    returns (a: Acc)
    requires files != [] && Distinct(files) && NoIOErrors(calculator, cache, files)
    requires forall f :: f in files ==> (f in acc.cache <==> f in cache)
    ensures Step(calculator, acc, files[0]) == Next(a)
    ensures Run(calculator, files, acc) == Run(calculator, files[1..], a)
    ensures Distinct(files[1..]) && NoIOErrors(calculator, cache, files[1..])
    ensures forall f :: f in files[1..] ==> (f in a.cache <==> f in cache)
  {
    DistinctTail(files);
    assert files[0] in files;
    a := Step(calculator, acc, files[0]).acc;
  }

  /** For a list without repeated files and without I/O errors, the run
      completes; the files calculated are exactly those the cache did not
      hold, and the problem files are exactly the dirty ones, both in list
      order. `cache` is the cache as first handed over, which agrees with
      `acc.cache` on the listed files. */
  lemma {:induction false} ProblemFilesOnDistinctFiles(calculator: Calculator, files: seq<Path>, acc: Acc, cache: set<Path>)
    requires Distinct(files) && NoIOErrors(calculator, cache, files)
    requires forall f :: f in files ==> (f in acc.cache <==> f in cache)
    ensures var r := Run(calculator, files, acc);
      && r.Completed?
      && r.acc.examined == acc.examined + Unskipped(cache, files)
      && r.acc.problemFiles == acc.problemFiles + DirtyFiles(calculator, cache, files)
  {
    if files != [] {
      var f := files[0];
      var a := StepOnDistinctHead(calculator, files, acc, cache);
      ProblemFilesOnDistinctFiles(calculator, files[1..], a, cache);
      var seen := if f !in cache then [f] else [];
      var dirty := if f !in cache && Calculate(calculator, f).value.0 != Clean then [f] else [];
      assert Unskipped(cache, files) == seen + Unskipped(cache, files[1..]);
      assert DirtyFiles(calculator, cache, files) == dirty + DirtyFiles(calculator, cache, files[1..]);
      assert a.examined == acc.examined + seen;
      assert a.problemFiles == acc.problemFiles + dirty;
      AppendAssociative(acc.examined, seen, Unskipped(cache, files[1..]));
      AppendAssociative(acc.problemFiles, dirty, DirtyFiles(calculator, cache, files[1..]));
    }
  }

  /** Nothing enters the cache except through `setUpToDate`: if the cache is
      the initial cache plus everything written so far, it stays so. */
  lemma {:induction false} CacheIsWrites(calculator: Calculator, files: seq<Path>, acc: Acc, initial: set<Path>)
    requires acc.cache == initial + set g | g in acc.written
    ensures var a := Run(calculator, files, acc).acc;
      a.cache == initial + set g | g in a.written
  {
    if files != [] {
      match Step(calculator, acc, files[0])
      case Abort(_, _) =>
      case Next(a) =>
        if a.written != acc.written {
          assert (set g | g in acc.written + [files[0]]) == (set g | g in acc.written) + {files[0]};
        }
        CacheIsWrites(calculator, files[1..], a, initial);
    }
  }

  /** For a list without repeated files and without I/O errors, the run
      completes and `setUpToDate` is called exactly once for each file that
      is clean and lint-free, in list order, and for no other file. */
  lemma {:induction false} CacheWritesOnDistinctFiles(calculator: Calculator, files: seq<Path>, acc: Acc, cache: set<Path>)
    requires Distinct(files) && NoIOErrors(calculator, cache, files)
    requires forall f :: f in files ==> (f in acc.cache <==> f in cache)
    ensures var r := Run(calculator, files, acc);
      && r.Completed?
      && r.acc.written == acc.written + CleanFiles(calculator, cache, files)
  {
    if files != [] {
      var f := files[0];
      var a := StepOnDistinctHead(calculator, files, acc, cache);
      CacheWritesOnDistinctFiles(calculator, files[1..], a, cache);
      var head := if f !in cache && Calculate(calculator, f) == Ok((Clean, [])) then [f] else [];
      assert CleanFiles(calculator, cache, files) == head + CleanFiles(calculator, cache, files[1..]);
      assert a.written == acc.written + head;
      AppendAssociative(acc.written, head, CleanFiles(calculator, cache, files[1..]));
    }
  }

  /** For a list without repeated files and without I/O errors, a file is in
      the cache after the run exactly when it was there before or it turned
      out clean and lint-free. */
  lemma CacheOnDistinctFiles(calculator: Calculator, files: seq<Path>, cache: set<Path>)
    requires Distinct(files) && NoIOErrors(calculator, cache, files)
    ensures var r := Run(calculator, files, Start(cache));
      && r.Completed?
      && r.acc.cache == cache + set f | f in CleanFiles(calculator, cache, files)
  {
    assert (set g | g in Start(cache).written) == {};
    CacheIsWrites(calculator, files, Start(cache), cache);
    CacheWritesOnDistinctFiles(calculator, files, Start(cache), cache);
  }

  /** The lints recorded for the files of one more list, written out as a map. */
  lemma FlaggedLintsCons(calculator: Calculator, cache: set<Path>, files: seq<Path>)
    requires files != [] && files[0] !in files[1..]
    ensures var f := files[0];
      var rest := FlaggedLints(calculator, cache, files[1..]);
      && f !in rest
      && FlaggedLints(calculator, cache, files)
         == if f !in cache && Calculate(calculator, f).Ok? && Calculate(calculator, f).value.1 != []
            then rest[f := Calculate(calculator, f).value.1] else rest
  {
    assert forall g :: g in files <==> g == files[0] || g in files[1..];
  }

  /** Updating a key the right-hand map lacks commutes with the union. */
  lemma UpdateThenUnion(left: map<Path, seq<Lint>>, right: map<Path, seq<Lint>>, key: Path, value: seq<Lint>)
    requires key !in right
    ensures left[key := value] + right == left + right[key := value]
  {
  }

  /** For a list without repeated files and without I/O errors, the lint map
      stays in ascending key order and gains, for each file the cache did not
      hold and that has lints, exactly that file's lints. */
  lemma {:induction false} LintsOnDistinctFiles(calculator: Calculator, files: seq<Path>, acc: Acc, cache: set<Path>)
    requires Distinct(files) && NoIOErrors(calculator, cache, files)
    requires forall f :: f in files ==> (f in acc.cache <==> f in cache)
    requires StrictlySorted(acc.lints)
    ensures var r := Run(calculator, files, acc);
      && r.Completed?
      && StrictlySorted(r.acc.lints)
      && ToMap(r.acc.lints) == ToMap(acc.lints) + FlaggedLints(calculator, cache, files)
  {
    if files != [] {
      var f := files[0];
      DistinctTail(files);
      FlaggedLintsCons(calculator, cache, files);
      var a := StepOnDistinctHead(calculator, files, acc, cache);
      var rest := FlaggedLints(calculator, cache, files[1..]);
      if f !in acc.cache && Calculate(calculator, f).value.1 != [] {
        var lints := Calculate(calculator, f).value.1;
        PutSorted(acc.lints, f, lints);
        PutUpdates(acc.lints, f, lints);
        assert ToMap(a.lints) == ToMap(acc.lints)[f := lints];
        assert FlaggedLints(calculator, cache, files) == rest[f := lints];
        UpdateThenUnion(ToMap(acc.lints), rest, f, lints);
      } else {
        assert a.lints == acc.lints;
        assert FlaggedLints(calculator, cache, files) == rest;
      }
      LintsOnDistinctFiles(calculator, files[1..], a, cache);
    }
  }

  /** The outcome of the check, stated file by file for a list without
      repeated files and without I/O errors: any dirty file makes it the
      fixable failure naming exactly the dirty files in order, whatever the
      lints; otherwise any lint makes it the unfixable failure, printing the
      lines of a lint map sorted by path that holds exactly the flagged files'
      lints; otherwise the check succeeds. */
  lemma CheckOutcome(calculator: Calculator, files: seq<Path>, cache: set<Path>)
    requires Distinct(files) && NoIOErrors(calculator, cache, files)
    ensures var r := Run(calculator, files, Start(cache));
      var o := Decide(r);
      var dirty := DirtyFiles(calculator, cache, files);
      var flagged := FlaggedLints(calculator, cache, files);
      && r.Completed?
      && (dirty != [] ==> o == Fixable(dirty, RunToFix))
      && (dirty == [] && flagged != map[] ==>
            && o == Unfixable(Render(r.acc.lints), CannotFix)
            && StrictlySorted(r.acc.lints)
            && ToMap(r.acc.lints) == flagged)
      && (dirty == [] && flagged == map[] ==> o == Success)
  {
    var r := Run(calculator, files, Start(cache));
    ProblemFilesOnDistinctFiles(calculator, files, Start(cache), cache);
    LintsOnDistinctFiles(calculator, files, Start(cache), cache);
    var a := r.acc;
    assert a.problemFiles == DirtyFiles(calculator, cache, files);
    assert ToMap(a.lints) == FlaggedLints(calculator, cache, files) by {
      assert ToMap(Start(cache).lints) == map[];
    }
    ToMapEmpty(a.lints);
  }

  /** A run over files that are all cached does nothing at all. */
  lemma {:induction false} AllCachedSkips(calculator: Calculator, files: seq<Path>, acc: Acc)
    requires forall f :: f in files ==> f in acc.cache
    ensures Run(calculator, files, acc) == Completed(acc)
  {
    if files != [] {
      assert files[0] in files;
      assert forall g :: g in files[1..] ==> g in files;
      AllCachedSkips(calculator, files[1..], acc);
    }
  }

  /** A run that completes without adding a problem file and with an empty
      lint map leaves every listed file in the cache. */
  lemma {:induction false} CleanRunCachesAll(calculator: Calculator, files: seq<Path>, acc: Acc)
    requires Run(calculator, files, acc).Completed?
    requires Run(calculator, files, acc).acc.problemFiles == acc.problemFiles
    requires Run(calculator, files, acc).acc.lints == []
    ensures forall f :: f in files ==> f in Run(calculator, files, acc).acc.cache
  {
    if files != [] {
      var a := Run(calculator, files, acc).acc;
      var f := files[0];
      assert Step(calculator, acc, f).Next?;
      var a1 := Step(calculator, acc, f).acc;
      RunGrows(calculator, files[1..], a1);
      assert a1.problemFiles == acc.problemFiles by {
        assert acc.problemFiles <= a1.problemFiles <= a.problemFiles;
      }
      CleanRunCachesAll(calculator, files[1..], a1);
      assert f in a1.cache;
      forall g | g in files ensures g in a.cache {
        if g != f { assert g in files[1..]; }
      }
    }
  }

  /** Running the check again after it succeeded, with no change in between,
      calculates nothing, writes nothing and succeeds again. */
  lemma RerunAfterSuccess(calculator: Calculator, files: seq<Path>, cache: set<Path>)
    requires Decide(Run(calculator, files, Start(cache))) == Success
    ensures var again := Start(Run(calculator, files, Start(cache)).acc.cache);
      && Run(calculator, files, again) == Completed(again)
      && Decide(Run(calculator, files, again)) == Success
  {
    CleanRunCachesAll(calculator, files, Start(cache));
    AllCachedSkips(calculator, files, Start(Run(calculator, files, Start(cache)).acc.cache));
  }
}
