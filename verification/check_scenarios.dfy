/** Small concrete runs of the check, stated as lemmas about the specification. */
module CheckScenarios {
  import opened Paths
  import opened LintMap
  import opened Report
  import opened Collaborators
  import opened CheckSpec

  /** A calculator under which the listed files are dirty, `lintsOf` gives
      each file's lints, and `broken` fails to read. */
  function Fixture(dirty: set<Path>, lintsOf: map<Path, seq<Lint>>, broken: set<Path>): Calculator {
    Calculator(
      file => if file in broken then Err(IOError("unreadable")) else if file in dirty then Ok(Dirty) else Ok(Clean),
      (file, dirtyState) => Ok(if file in lintsOf then lintsOf[file] else []))
  }

  /** A clean file and a dirty file: the fixable failure names only the dirty
      one, and the clean one is cached. */
  lemma CleanThenDirty()
    ensures var r := Run(Fixture({"B"}, map[], {}), ["A", "B"], Start({}));
      && Decide(r) == Fixable(["B"], RunToFix)
      && r.acc.cache == {"A"}
  {
  }

  /** A clean file with two lints and a clean lint-free file: the unfixable
      failure prints the two lines of the first file in order, and only the
      second file is cached. */
  lemma LintsOnly()
    ensures var r := Run(Fixture({}, map["A" := [Lint("L1"), Lint("L2")]], {}), ["A", "B"], Start({}));
      && Decide(r) == Unfixable(["A:L1", "A:L2"], CannotFix)
      && r.acc.cache == {"B"}
  {
    var calculator := Fixture({}, map["A" := [Lint("L1"), Lint("L2")]], {});
    var a1 := Step(calculator, Start({}), "A").acc;
    assert a1.lints == [("A", [Lint("L1"), Lint("L2")])];
    assert Run(calculator, ["A", "B"], Start({})) == Run(calculator, ["B"], a1);
    var entries := a1.lints;
    assert entries[..0] == [];
    assert Pairs(entries) == [("A", Lint("L1")), ("A", Lint("L2"))];
    assert Line("A", Lint("L1")) == "A:L1" && Line("A", Lint("L2")) == "A:L2";
    assert Render(entries) == ["A:L1", "A:L2"];
  }

  /** A file already up to date: success, with no calculation started. */
  lemma UpToDateOnly()
    ensures var r := Run(Fixture({"A"}, map[], {"A"}), ["A"], Start({"A"}));
      && Decide(r) == Success
      && r.acc.examined == []
  {
  }

  /** A dirty file, a clean file, then an unreadable one and one more: the run
      fails on the unreadable file, reports neither violation, keeps the cache
      entry of the clean file, and never looks at the last file. */
  lemma FailureAfterDirtyFile()
    ensures var r := Run(Fixture({"A"}, map[], {"C"}), ["A", "B", "C", "D"], Start({}));
      && Decide(r) == IOFailure("C", UnableToFormat("C"), IOError("unreadable"))
      && r.acc.cache == {"B"}
      && r.acc.examined == ["A", "B", "C"]
  {
    var calculator := Fixture({"A"}, map[], {"C"});
    var a1 := Acc(["A"], [], {}, ["A"], []);
    assert Step(calculator, Start({}), "A") == Next(a1);
    var a2 := Acc(["A"], [], {"B"}, ["A", "B"], ["B"]);
    assert Step(calculator, a1, "B") == Next(a2);
    assert Step(calculator, a2, "C") == Abort(IOError("unreadable"), a2.(examined := ["A", "B", "C"]));
    assert ["A", "B", "C", "D"][1..] == ["B", "C", "D"] && ["B", "C", "D"][1..] == ["C", "D"];
  }
}
