/** The map from file to its lints that the check accumulates, a `TreeMap`
    keyed by file. It is modelled as its in-order list of entries: keys
    strictly ascending in path order, so iterating the list is iterating
    the tree. */
module LintMap {
  import opened Paths

  /** One style violation; `rendering` is its `toString()` form. */
  datatype Lint = Lint(rendering: string)

  /** A file and the lints found in it, in the order they were found. */
  type Entry = (Path, seq<Lint>)

  /** The tree's in-order invariant: every key sorts strictly before every later key. */
  predicate StrictlySorted(entries: seq<Entry>) {
    forall i, j :: 0 <= i < j < |entries| ==> Less(entries[i].0, entries[j].0)
  }

  /** Every key sorts strictly after `low`. */
  predicate AllAbove(low: Path, entries: seq<Entry>) {
    forall i :: 0 <= i < |entries| ==> Less(low, entries[i].0)
  }

  /** The map the entries stand for. */
  function ToMap(entries: seq<Entry>): map<Path, seq<Lint>> {
    if entries == [] then map[]
    else ToMap(entries[1..])[entries[0].0 := entries[0].1]
  }

  /** `TreeMap.put`: walk the keys in order; a new key goes before the first
      larger one, an existing key keeps its place and gets the new value.
      After a put the map is never empty and holds exactly one more key
      when the key is new. */
  function Put(entries: seq<Entry>, file: Path, lints: seq<Lint>): (r: seq<Entry>)
    ensures r != []
    ensures ToMap(r).Keys == ToMap(entries).Keys + {file}
  {
    if entries == [] then [(file, lints)]
    else
      var c := CompareTo(file, entries[0].0);
      if c < 0 then [(file, lints)] + entries
      else if c == 0 then [(file, lints)] + entries[1..]
      else [entries[0]] + Put(entries[1..], file, lints)
  }

  /** The map is empty exactly when no entry was ever put. */
  lemma ToMapEmpty(entries: seq<Entry>)
    ensures ToMap(entries) == map[] <==> entries == []
  {
    if entries != [] {
      assert entries[0].0 in ToMap(entries);
    }
  }

  /** A lower bound on every key survives a put of a key above it. */
  lemma {:induction false} PutAbove(low: Path, entries: seq<Entry>, file: Path, lints: seq<Lint>)
    requires AllAbove(low, entries) && Less(low, file)
    ensures AllAbove(low, Put(entries, file, lints))
  {
    if entries != [] && CompareTo(file, entries[0].0) > 0 {
      PutAbove(low, entries[1..], file, lints);
      var r := Put(entries, file, lints);
      assert r[1..] == Put(entries[1..], file, lints);
      forall i | 0 < i < |r| ensures Less(low, r[i].0) {
        assert r[i] == r[1..][i - 1];
      }
    }
  }

  /** `put` keeps the keys in strictly ascending order. */
  lemma {:induction false} PutSorted(entries: seq<Entry>, file: Path, lints: seq<Lint>)
    requires StrictlySorted(entries)
    ensures StrictlySorted(Put(entries, file, lints))
  {
    if entries != [] {
      var c := CompareTo(file, entries[0].0);
      var r := Put(entries, file, lints);
      if c < 0 {
        forall j | 0 < j < |r| ensures Less(file, r[j].0) {
          if j > 1 { LessTransitive(file, entries[0].0, entries[j - 1].0); }
        }
        assert r[1..] == entries;
      } else if c == 0 {
        assert r[1..] == entries[1..];
      } else {
        var rest := Put(entries[1..], file, lints);
        PutSorted(entries[1..], file, lints);
        CompareToAntisymmetric(file, entries[0].0);
        PutAbove(entries[0].0, entries[1..], file, lints);
        assert r[1..] == rest;
        forall i, j | 0 <= i < j < |r| ensures Less(r[i].0, r[j].0) {
          assert r[j] == rest[j - 1];
          if i > 0 { assert r[i] == rest[i - 1]; }
        }
      }
    }
  }

  /** `put` behaves as a map update: the key now holds the new value and
      every other key keeps its value. */
  lemma {:induction false} PutUpdates(entries: seq<Entry>, file: Path, lints: seq<Lint>)
    ensures ToMap(Put(entries, file, lints)) == ToMap(entries)[file := lints]
  {
    if entries != [] {
      var c := CompareTo(file, entries[0].0);
      var r := Put(entries, file, lints);
      if c < 0 {
        assert r[1..] == entries;
      } else if c == 0 {
        assert r[1..] == entries[1..];
      } else {
        PutUpdates(entries[1..], file, lints);
        assert r[1..] == Put(entries[1..], file, lints);
      }
    }
  }
}
