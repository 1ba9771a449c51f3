/**
 * pandas' `drop_duplicates()` on a frame and `unique()` on a column, both
 * with their default of keeping the first occurrence of every value. A row
 * or a cell is a value here: two rows are duplicates when they are equal.
 */
module Duplicates {

  /** No value occurs twice. */
  predicate Distinct<T(==)>(s: seq<T>)
  {
    forall i, j :: 0 <= i < j < |s| ==> s[i] != s[j]
  }

  /** The position of the first occurrence of `x` in `s`. */
  function FirstIndex<T(==)>(s: seq<T>, x: T): (k: nat)
    requires x in s
    ensures k < |s| && s[k] == x
    ensures forall j :: 0 <= j < k ==> s[j] != x
  {
    if s[0] == x then 0 else 1 + FirstIndex(s[1..], x)
  }

  /**
   * The values of `s` with every repetition after the first dropped. It is
   * built from the back: the last value is kept only when it did not occur
   * earlier.
   */
  function Dedup<T(==)>(s: seq<T>): (r: seq<T>)
    ensures Distinct(r)
    ensures forall i :: 0 <= i < |s| ==> s[i] in r
    ensures forall i :: 0 <= i < |r| ==> r[i] in s
    ensures |r| <= |s|
  {
    if s == [] then []
    else
      var init, last := s[..|s| - 1], s[|s| - 1];
      assert s == init + [last];
      var d := Dedup(init);
      if last in d then d else d + [last]
  }

  /** The first occurrence of a value is found where it was before something was appended. */
  lemma FirstIndexAppend<T>(s: seq<T>, x: T, y: T)
    requires y in s
    ensures FirstIndex(s + [x], y) == FirstIndex(s, y)
  {
    var k, k' := FirstIndex(s, y), FirstIndex(s + [x], y);
    assert (s + [x])[k] == y;
    assert s[k'] == y;
  }

  /**
   * `drop_duplicates` keeps the relative order of first occurrences: a
   * value that comes earlier in the result first occurred earlier in the
   * input.
   */
  lemma {:induction false} DedupKeepsFirstOrder<T>(s: seq<T>)
    ensures forall i, j :: 0 <= i < j < |Dedup(s)| ==> FirstIndex(s, Dedup(s)[i]) < FirstIndex(s, Dedup(s)[j])
  {
    if s != [] {
      var init, last := s[..|s| - 1], s[|s| - 1];
      assert s == init + [last];
      var d := Dedup(init);
      DedupKeepsFirstOrder(init);
      forall y | y in init
        ensures FirstIndex(s, y) == FirstIndex(init, y)
      {
        FirstIndexAppend(init, last, y);
      }
      if last !in d {
        assert last !in init;
        assert FirstIndex(s, last) == |init|;
      }
    }
  }

  /** A sequence without repetitions is left as it is. */
  lemma {:induction false} DedupOfDistinct<T>(s: seq<T>)
    requires Distinct(s)
    ensures Dedup(s) == s
  {
    if s != [] {
      var init, last := s[..|s| - 1], s[|s| - 1];
      assert s == init + [last];
      assert Distinct(init);
      DedupOfDistinct(init);
      assert last !in init;
    }
  }

  /** Dropping duplicates a second time changes nothing. */
  lemma DedupIdempotent<T>(s: seq<T>)
    ensures Dedup(Dedup(s)) == Dedup(s)
  {
    DedupOfDistinct(Dedup(s));
  }
}
