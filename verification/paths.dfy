/** Paths of candidate files and the order in which the lint report lists them.
    A file is identified by its path text. `java.io.File` compares files on Unix
    by comparing their path strings with `String.compareTo`, which is what orders
    the keys of the lint map. */
module Paths {

  type Path = string

  /** `String.compareTo`: the difference of the first pair of differing
      characters, or else the difference of the lengths. Zero exactly when
      the two strings are equal. */
  function CompareTo(a: Path, b: Path): (c: int)
    ensures c == 0 <==> a == b
    ensures a != [] && b != [] && a[0] != b[0] ==> (c < 0 <==> a[0] < b[0])
  {
    if a == [] || b == [] then |a| - |b|
    else if a[0] != b[0] then a[0] as int - b[0] as int
    else
      var c := CompareTo(a[1..], b[1..]);
      assert a == [a[0]] + a[1..] && b == [b[0]] + b[1..];
      c
  }

  /** `a` sorts strictly before `b`. */
  predicate Less(a: Path, b: Path) {
    CompareTo(a, b) < 0
  }

  /** `a` sorts before `b` or is `b`. */
  predicate LessOrEqual(a: Path, b: Path) {
    CompareTo(a, b) <= 0
  }

  /** Swapping the operands negates the comparison. */
  lemma {:induction false} CompareToAntisymmetric(a: Path, b: Path)
    ensures CompareTo(b, a) == -CompareTo(a, b)
  {
    if a != [] && b != [] && a[0] == b[0] {
      CompareToAntisymmetric(a[1..], b[1..]);
    }
  }

  /** Two distinct paths are always ordered one way or the other, never both. */
  lemma LessTotal(a: Path, b: Path)
    ensures a != b <==> (Less(a, b) || Less(b, a))
    ensures !(Less(a, b) && Less(b, a))
  {
    CompareToAntisymmetric(a, b);
  }

  /** The strict order is transitive, so a sorted key list is sorted pairwise. */
  lemma {:induction false} LessTransitive(a: Path, b: Path, c: Path)
    requires Less(a, b) && Less(b, c)
    ensures Less(a, c)
  {
    if a != [] && b != [] && c != [] && a[0] == b[0] && b[0] == c[0] {
      LessTransitive(a[1..], b[1..], c[1..]);
    }
  }

  /** Sorting before-or-equal chains with the strict order. */
  lemma LessOrEqualThenLess(a: Path, b: Path, c: Path)
    requires LessOrEqual(a, b) && Less(b, c)
    ensures Less(a, c)
  {
    if a != b {
      LessTransitive(a, b, c);
    }
  }
}
