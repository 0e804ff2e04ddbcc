/** The lines printed when only unfixable lints remain: the lint map is
    walked in key order and each lint of each file gives one line
    `<path>:<lint>`. */
module Report {
  import opened Paths
  import opened LintMap

  /** One printed line: the path, a colon, then the lint's rendering, so
      both can be read back from the line. */
  function Line(file: Path, lint: Lint): (line: string)
    ensures |line| == |file| + 1 + |lint.rendering|
    ensures line[..|file|] == file && line[|file|] == ':' && line[|file| + 1..] == lint.rendering
  {
    file + ":" + lint.rendering
  }

  /** The (file, lint) pairs of one entry, in the entry's own lint order. */
  function Block(entry: Entry): seq<(Path, Lint)> {
    seq(|entry.1|, j requires 0 <= j < |entry.1| => (entry.0, entry.1[j]))
  }

  /** Every (file, lint) pair, entry after entry in map order. */
  function Pairs(entries: seq<Entry>): seq<(Path, Lint)> {
    if entries == [] then []
    else Pairs(entries[..|entries| - 1]) + Block(entries[|entries| - 1])
  }

  /** The number of lints held by the entries. */
  function TotalLints(entries: seq<Entry>): nat {
    if entries == [] then 0
    else TotalLints(entries[..|entries| - 1]) + |entries[|entries| - 1].1|
  }

  /** The printed lines: one per (file, lint) pair, in the same order. */
  function Render(entries: seq<Entry>): seq<string> {
    var pairs := Pairs(entries);
    seq(|pairs|, k requires 0 <= k < |pairs| => Line(pairs[k].0, pairs[k].1))
  }

  /** Where the block of the `i`-th entry starts among the pairs. */
  function Offset(entries: seq<Entry>, i: nat): nat
    requires i <= |entries|
  {
    TotalLints(entries[..i])
  }

  /** There is exactly one pair, hence one line, per lint. */
  lemma {:induction false} PairsCount(entries: seq<Entry>)
    ensures |Pairs(entries)| == TotalLints(entries)
    ensures |Render(entries)| == TotalLints(entries)
  {
    if entries != [] {
      PairsCount(entries[..|entries| - 1]);
    }
  }

  /** The lines of one more entry follow the lines already printed. */
  lemma RenderSnoc(entries: seq<Entry>, i: nat)
    requires i < |entries|
    ensures Render(entries[..i + 1]) == Render(entries[..i]) + seq(|entries[i].1|, j requires 0 <= j < |entries[i].1| => Line(entries[i].0, entries[i].1[j]))
  {
    assert entries[..i + 1][..i] == entries[..i];
  }

  /** Each entry's lints are printed together, as one contiguous block in
      their original order, starting at the entry's offset. */
  lemma {:induction false} PairsBlock(entries: seq<Entry>, i: nat)
    requires i < |entries|
    ensures Offset(entries, i) + |entries[i].1| <= |Pairs(entries)|
    ensures Pairs(entries)[Offset(entries, i)..Offset(entries, i) + |entries[i].1|] == Block(entries[i])
  {
    var n := |entries|;
    var init := entries[..n - 1];
    PairsCount(init);
    if i == n - 1 {
      assert entries[..i] == init;
    } else {
      PairsBlock(init, i);
      assert init[..i] == entries[..i];
      PairsCount(entries[..i]);
    }
  }

  /** When the keys are strictly sorted, so are the printed files: along the
      pairs a file is followed only by itself or by a file sorting after it,
      and no pair's file sorts after the last key. */
  lemma {:induction false} PairsOrdered(entries: seq<Entry>)
    requires StrictlySorted(entries)
    ensures forall k :: 0 <= k < |Pairs(entries)| ==> LessOrEqual(Pairs(entries)[k].0, entries[|entries| - 1].0)
    ensures forall k1, k2 :: 0 <= k1 < k2 < |Pairs(entries)| ==>
      Pairs(entries)[k1].0 == Pairs(entries)[k2].0 || Less(Pairs(entries)[k1].0, Pairs(entries)[k2].0)
  {
    if entries != [] {
      var n := |entries|;
      var init := entries[..n - 1];
      var last := entries[n - 1].0;
      var head := Pairs(init);
      var pairs := Pairs(entries);
      PairsOrdered(init);
      assert pairs == head + Block(entries[n - 1]);
      forall k | 0 <= k < |head| ensures Less(head[k].0, last) {
        LessOrEqualThenLess(head[k].0, init[n - 2].0, last);
      }
      forall k | 0 <= k < |pairs| ensures LessOrEqual(pairs[k].0, last) {
        if k < |head| { assert pairs[k] == head[k]; }
      }
      forall k1, k2 | 0 <= k1 < k2 < |pairs| ensures pairs[k1].0 == pairs[k2].0 || Less(pairs[k1].0, pairs[k2].0) {
        if k2 < |head| {
          assert pairs[k1] == head[k1] && pairs[k2] == head[k2];
        } else if k1 < |head| {
          assert pairs[k1] == head[k1];
        }
      }
    }
  }

  /** The loop at the end of the check: for each entry of the map, in order,
      print one line per lint. Returns the printed lines. */
  method PrintLints(allLints: seq<Entry>) returns (lines: seq<string>)
    ensures lines == Render(allLints)
  {
    lines := [];
    for i := 0 to |allLints|
      invariant lines == Render(allLints[..i])
    {
      var (file, lints) := allLints[i];
      for j := 0 to |lints|
        invariant lines == Render(allLints[..i]) + seq(j, m requires 0 <= m < j => Line(file, lints[m]))
      {
        lines := lines + [Line(file, lints[j])];
      }
      RenderSnoc(allLints, i);
    }
    assert allLints[..|allLints|] == allLints;
  }
}
