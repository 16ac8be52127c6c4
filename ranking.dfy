/** The ranking steps of the query path: the stored rows are sorted in
    place ascending by score (`sort_unstable_by`), reversed in place, and
    the result is cut to the first ten (`truncate`). The score is any total
    function of a row. */
module Ranking {
  import opened Numbers

  predicate Ascending<T>(s: seq<T>, key: T -> int)
  {
    forall i, j :: 0 <= i < j < |s| ==> key(s[i]) <= key(s[j])
  }

  predicate NonIncreasing<T>(s: seq<T>, key: T -> int)
  {
    forall i, j :: 0 <= i < j < |s| ==> key(s[i]) >= key(s[j])
  }

  /** The elements of `s` in the opposite order. */
  function Reversed<T>(s: seq<T>): (r: seq<T>)
    ensures |r| == |s|
    ensures forall k :: 0 <= k < |s| ==> r[k] == s[|s| - 1 - k]
    decreases |s|
  {
    if |s| == 0 then [] else Reversed(s[1..]) + [s[0]]
  }

  /** Reversing keeps every element, as often as it occurs. */
  lemma {:induction false} ReversedMultiset<T>(s: seq<T>)
    ensures multiset(Reversed(s)) == multiset(s)
    decreases |s|
  {
    if |s| > 0 {
      ReversedMultiset(s[1..]);
      assert s == [s[0]] + s[1..];
    }
  }

  /** Reversing an ascending order gives a non-increasing one. */
  lemma ReversedAscending<T>(s: seq<T>, key: T -> int)
    requires Ascending(s, key)
    ensures NonIncreasing(Reversed(s), key)
  {
    var r := Reversed(s);
    forall i, j | 0 <= i < j < |r| ensures key(r[i]) >= key(r[j]) {
      assert r[i] == s[|s| - 1 - i] && r[j] == s[|s| - 1 - j];
    }
  }

  /** `sort_unstable_by` on the scores: ascending, and a permutation of
      the elements that were there. Equal scores may end up in any order. */
  method SortUnstableBy<T>(a: array<T>, key: T -> int)
    modifies a
    ensures Ascending(a[..], key)
    ensures multiset(a[..]) == multiset(old(a[..]))
  {
    var i := 0;
    while i < a.Length
      invariant 0 <= i <= a.Length
      invariant forall p, q :: 0 <= p < q < i ==> key(a[p]) <= key(a[q])
      invariant multiset(a[..]) == multiset(old(a[..]))
    {
      InsertAt(a, i, key);
      i := i + 1;
    }
  }

  /** Moves `a[i]` down into the ascending prefix `a[..i]`. */
  method InsertAt<T>(a: array<T>, i: nat, key: T -> int)
    requires i < a.Length
    requires forall p, q :: 0 <= p < q < i ==> key(a[p]) <= key(a[q])
    modifies a
    ensures forall p, q :: 0 <= p < q <= i ==> key(a[p]) <= key(a[q])
    ensures a[i + 1..] == old(a[i + 1..])
    ensures multiset(a[..]) == multiset(old(a[..]))
  {
    var j := i;
    while j > 0 && key(a[j - 1]) > key(a[j])
      invariant 0 <= j <= i
      invariant forall p, q :: 0 <= p < q <= i && p != j && q != j ==> key(a[p]) <= key(a[q])
      invariant forall q :: j < q <= i ==> key(a[j]) < key(a[q])
      invariant a[i + 1..] == old(a[i + 1..])
      invariant multiset(a[..]) == multiset(old(a[..]))
    {
      Swap(a, j - 1, j);
      j := j - 1;
    }
  }

  method Swap<T>(a: array<T>, i: nat, j: nat)
    requires i < a.Length && j < a.Length
    modifies a
    ensures a[i] == old(a[j]) && a[j] == old(a[i])
    ensures forall k :: 0 <= k < a.Length && k != i && k != j ==> a[k] == old(a[k])
    ensures multiset(a[..]) == multiset(old(a[..]))
  {
    a[i], a[j] := a[j], a[i];
  }

  /** `reverse`: swaps the two ends inwards. */
  method Reverse<T>(a: array<T>)
    modifies a
    ensures a[..] == Reversed(old(a[..]))
  {
    var n := a.Length;
    var i := 0;
    while i < n / 2
      invariant 0 <= i <= n / 2
      invariant forall k :: 0 <= k < i ==> a[k] == old(a[n - 1 - k]) && a[n - 1 - k] == old(a[k])
      invariant forall k :: i <= k < n - i ==> a[k] == old(a[k])
    {
      a[i], a[n - 1 - i] := a[n - 1 - i], a[i];
      i := i + 1;
    }
    assert a[..] == Reversed(old(a[..]));
  }

  /** Lines 157-158: the rows sorted ascending by score and then reversed,
      that is, every row exactly once, highest score first. */
  method RankDescending<T>(rows: seq<T>, key: T -> int) returns (ranked: seq<T>)
    ensures multiset(ranked) == multiset(rows)
    ensures NonIncreasing(ranked, key)
  {
    var a := new T[|rows|](k requires 0 <= k < |rows| => rows[k]);
    assert a[..] == rows;
    SortUnstableBy(a, key);
    ghost var sorted := a[..];
    Reverse(a);
    ranked := a[..];
    ReversedMultiset(sorted);
    ReversedAscending(sorted, key);
  }

  /** `truncate(len)`: the first `len` elements, or all of them when there
      are fewer; nothing is added. */
  function Truncate<T>(s: seq<T>, len: nat): (r: seq<T>)
    ensures |r| == Min(len, |s|)
    ensures r == s[..|r|]
  {
    if |s| <= len then s else s[..len]
  }

  /** Cutting a ranking of `rows` to `len` gives `min(len, |rows|)` rows of
      `rows`, each at most as often as it occurs there, still highest score
      first, and none of the rows left out scores above a row kept. */
  lemma TruncatedRankingIsTopK<T>(ranked: seq<T>, rows: seq<T>, key: T -> int, len: nat)
    requires multiset(ranked) == multiset(rows) && NonIncreasing(ranked, key)
    ensures |Truncate(ranked, len)| == Min(len, |rows|)
    ensures multiset(Truncate(ranked, len)) <= multiset(rows)
    ensures NonIncreasing(Truncate(ranked, len), key)
    ensures forall x, y :: x in multiset(rows) - multiset(Truncate(ranked, len)) && y in Truncate(ranked, len) ==> key(x) <= key(y)
  {
    var top := Truncate(ranked, len);
    var rest := ranked[|top|..];
    assert ranked == top + rest;
    assert |ranked| == |multiset(ranked)| == |multiset(rows)| == |rows|;
    assert multiset(rows) - multiset(top) == multiset(rest);
    forall x, y | x in multiset(rows) - multiset(top) && y in top ensures key(x) <= key(y) {
      assert x in rest;
      var i :| 0 <= i < |rest| && rest[i] == x;
      var j :| 0 <= j < |top| && top[j] == y;
      assert ranked[|top| + i] == x && ranked[j] == y;
    }
  }
}
