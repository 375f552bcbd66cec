/**
  Sorting by a rank, the model of SQL `ORDER BY`.

  A row's rank is the sequence of its sort columns (negated for a `DESC`
  column); rows are arranged so that ranks never decrease under `Lex.Le`.
  Rows of equal rank may come out in any order in the database; `SortBy` is
  one such order (a stable insertion sort), and every property the queries
  rely on is proved from `SortedBy` alone, so it holds for any tie order.
*/
module OrderBy {
  import opened Lex

  predicate SortedBy<T>(s: seq<T>, rank: T -> seq<int>)
  {
    forall i, j :: 0 <= i < j < |s| ==> Le(rank(s[i]), rank(s[j]))
  }

  /** A lower bound on the ranks of a sequence carries over to any
      rearrangement of it. */
  lemma BoundSurvivesPermutation<T>(b: seq<int>, xs: seq<T>, ys: seq<T>, rank: T -> seq<int>)
    requires multiset(xs) == multiset(ys)
    requires forall i :: 0 <= i < |xs| ==> Le(b, rank(xs[i]))
    ensures forall j :: 0 <= j < |ys| ==> Le(b, rank(ys[j]))
  {
    forall j | 0 <= j < |ys|
      ensures Le(b, rank(ys[j]))
    {
      assert ys[j] in multiset(ys);
      assert ys[j] in xs;
      var i :| 0 <= i < |xs| && xs[i] == ys[j];
    }
  }

  lemma PrependSorted<T>(x: T, s: seq<T>, rank: T -> seq<int>)
    requires SortedBy(s, rank)
    requires |s| > 0 ==> Le(rank(x), rank(s[0]))
    ensures SortedBy([x] + s, rank)
  {
    var r := [x] + s;
    forall i, j | 0 <= i < j < |r|
      ensures Le(rank(r[i]), rank(r[j]))
    {
      if i == 0 && j > 1 {
        LeTransitive(rank(x), rank(s[0]), rank(s[j - 1]));
      }
    }
  }

  /** Inserts `x` into a sorted sequence, before the first element it does
      not follow. */
  function Insert<T(==)>(x: T, s: seq<T>, rank: T -> seq<int>): (r: seq<T>)
    requires SortedBy(s, rank)
    ensures SortedBy(r, rank)
    ensures multiset(r) == multiset(s) + multiset{x}
    decreases |s|
  {
    if |s| == 0 then [x]
    else if Le(rank(x), rank(s[0])) then
      PrependSorted(x, s, rank);
      [x] + s
    else
      assert s == [s[0]] + s[1..];
      LeTotal(rank(x), rank(s[0]));
      var rest := Insert(x, s[1..], rank);
      BoundSurvivesPermutation(rank(s[0]), s[1..] + [x], rest, rank);
      PrependSorted(s[0], rest, rank);
      [s[0]] + rest
  }

  /** A rearrangement of `s` whose ranks never decrease. */
  function SortBy<T(==)>(s: seq<T>, rank: T -> seq<int>): (r: seq<T>)
    ensures SortedBy(r, rank)
    ensures multiset(r) == multiset(s)
    decreases |s|
  {
    if |s| == 0 then []
    else
      assert s == [s[0]] + s[1..];
      Insert(s[0], SortBy(s[1..], rank), rank)
  }
}
