// ORDER BY as a function: an insertion sort over any total preorder. The
// store returns the rows of a query in the order its ORDER BY names; for rows
// the order ranks equal the store picks some order, and this sort is one
// fixed choice of it.

module Sorting {

  /** `leq` compares every pair and is transitive. */
  ghost predicate TotalPreorder<T(!new)>(leq: (T, T) -> bool)
  {
    && (forall a, b :: leq(a, b) || leq(b, a))
    && (forall a, b, c :: leq(a, b) && leq(b, c) ==> leq(a, c))
  }

  predicate SortedBy<T>(s: seq<T>, leq: (T, T) -> bool)
  {
    forall i, j :: 0 <= i < j < |s| ==> leq(s[i], s[j])
  }

  /** Puts x before the first element it sorts no later than. */
  function Insert<T>(x: T, s: seq<T>, leq: (T, T) -> bool): (r: seq<T>)
    ensures multiset(r) == multiset(s) + multiset{x}
    ensures |r| == |s| + 1
  {
    if |s| == 0 then [x]
    else if leq(x, s[0]) then [x] + s
    else
      assert s == [s[0]] + s[1..];
      [s[0]] + Insert(x, s[1..], leq)
  }

  function SortBy<T>(s: seq<T>, leq: (T, T) -> bool): (r: seq<T>)
    ensures multiset(r) == multiset(s)
    ensures |r| == |s|
  {
    if |s| == 0 then []
    else
      assert s == [s[0]] + s[1..];
      Insert(s[0], SortBy(s[1..], leq), leq)
  }

  /** Everything in s sorts no earlier than y. */
  predicate Above<T>(y: T, s: seq<T>, leq: (T, T) -> bool)
  {
    forall k :: 0 <= k < |s| ==> leq(y, s[k])
  }

  lemma {:induction false} InsertAbove<T>(y: T, x: T, s: seq<T>, leq: (T, T) -> bool)
    requires leq(y, x) && Above(y, s, leq)
    ensures Above(y, Insert(x, s, leq), leq)
  {
    if |s| > 0 && !leq(x, s[0]) {
      InsertAbove(y, x, s[1..], leq);
    }
  }

  lemma {:induction false} InsertSorted<T(!new)>(x: T, s: seq<T>, leq: (T, T) -> bool)
    requires TotalPreorder(leq) && SortedBy(s, leq)
    ensures SortedBy(Insert(x, s, leq), leq)
  {
    if |s| > 0 {
      if leq(x, s[0]) {
        assert Above(x, s, leq) by {
          forall k | 0 <= k < |s| ensures leq(x, s[k]) {
            if k > 0 {
              assert leq(s[0], s[k]);
            }
          }
        }
      } else {
        InsertSorted(x, s[1..], leq);
        assert leq(s[0], x);
        InsertAbove(s[0], x, s[1..], leq);
      }
    }
  }

  lemma {:induction false} SortBySorted<T(!new)>(s: seq<T>, leq: (T, T) -> bool)
    requires TotalPreorder(leq)
    ensures SortedBy(SortBy(s, leq), leq)
  {
    if |s| > 0 {
      SortBySorted(s[1..], leq);
      InsertSorted(s[0], SortBy(s[1..], leq), leq);
    }
  }
}
