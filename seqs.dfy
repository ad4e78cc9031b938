/** Sequence helpers: the insertion-ordered set behind `Array.from(new Set(xs))` and JavaScript object keys. */
module Seqs {

  predicate NoDuplicates<T(==)>(s: seq<T>) {
    forall i, j :: 0 <= i < j < |s| ==> s[i] != s[j]
  }

  /** The position of the first occurrence of `x` in `xs`. */
  function FirstIndex<T(==)>(xs: seq<T>, x: T): (k: nat)
    requires x in xs
    ensures k < |xs| && xs[k] == x && x !in xs[..k]
  {
    if xs[0] == x then 0 else 1 + FirstIndex(xs[1..], x)
  }

  /** The first occurrence is the only position holding `x` with no earlier `x`. */
  lemma FirstIndexUnique<T>(xs: seq<T>, x: T, k: nat)
    requires k < |xs| && xs[k] == x && x !in xs[..k]
    ensures FirstIndex(xs, x) == k
  {
    var f := FirstIndex(xs, x);
    assert forall m :: 0 <= m < k ==> xs[..k][m] == xs[m];
    assert forall m :: 0 <= m < f ==> xs[..f][m] == xs[m];
  }

  /**
   * The distinct elements of `xs` in order of first occurrence: what
   * `Array.from(new Set(xs))` builds, and the order in which a JavaScript
   * object lists keys assigned in the order of `xs`.
   */
  function Dedup<T(==)>(xs: seq<T>): (r: seq<T>)
    ensures NoDuplicates(r)
    ensures forall i :: 0 <= i < |r| ==> r[i] in xs
    ensures forall i :: 0 <= i < |xs| ==> xs[i] in r
    ensures |r| <= |xs|
    decreases |xs|
  {
    if xs == [] then []
    else
      var prefix := xs[..|xs| - 1];
      var last := xs[|xs| - 1];
      assert xs == prefix + [last];
      var d := Dedup(prefix);
      if last in d then d else d + [last]
  }

  /** Adding one element at the end appends it when it is new and changes nothing otherwise. */
  lemma DedupSnoc<T>(xs: seq<T>, x: T)
    ensures Dedup(xs + [x]) == if x in xs then Dedup(xs) else Dedup(xs) + [x]
  {
    assert (xs + [x])[..|xs|] == xs;
  }

  /** A first occurrence in a prefix is a first occurrence in the whole sequence. */
  lemma FirstIndexPrefix<T>(xs: seq<T>, n: nat, x: T)
    requires n <= |xs| && x in xs[..n]
    ensures FirstIndex(xs, x) == FirstIndex(xs[..n], x)
  {
    var k := FirstIndex(xs[..n], x);
    assert xs[..n][..k] == xs[..k];
    FirstIndexUnique(xs, x, k);
  }

  /** `Dedup` keeps the elements in the order of their first occurrences. */
  lemma {:induction false} DedupFirstOccurrenceOrder<T>(xs: seq<T>, i: nat, j: nat)
    requires i < j < |Dedup(xs)|
    ensures FirstIndex(xs, Dedup(xs)[i]) < FirstIndex(xs, Dedup(xs)[j])
    decreases |xs|
  {
    var prefix := xs[..|xs| - 1];
    var last := xs[|xs| - 1];
    assert xs == prefix + [last];
    var d := Dedup(prefix);
    assert prefix == xs[..|xs| - 1];
    if j < |d| {
      DedupFirstOccurrenceOrder(prefix, i, j);
      FirstIndexPrefix(xs, |xs| - 1, d[i]);
      FirstIndexPrefix(xs, |xs| - 1, d[j]);
    } else {
      assert last !in d && Dedup(xs)[j] == last;
      assert last !in prefix;
      FirstIndexUnique(xs, last, |xs| - 1);
      FirstIndexPrefix(xs, |xs| - 1, d[i]);
    }
  }
}
