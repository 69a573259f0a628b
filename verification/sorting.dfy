/** Sorting a sequence by a total preorder, the contract a database `ORDER BY`
    gives: the result is a permutation of the input in which every element may
    precede every later one. Ties are left in an order the caller may not rely
    on; this insertion sort happens to keep them stable. */
module Sorting {
  import opened Seqs

  /** `le` is total and transitive, so it can order any sequence. */
  ghost predicate TotalPreorder<T(!new)>(le: (T, T) -> bool) {
    && (forall a, b :: le(a, b) || le(b, a))
    && (forall a, b, c :: le(a, b) && le(b, c) ==> le(a, c))
  }

  /** Every element may precede every later element. */
  ghost predicate SortedBy<T>(le: (T, T) -> bool, s: seq<T>) {
    forall i, j :: 0 <= i < j < |s| ==> le(s[i], s[j])
  }

  /** Inserts `x` into the sorted `s` before the first element it may precede. */
  function InsertBy<T(!new)>(le: (T, T) -> bool, x: T, s: seq<T>): (r: seq<T>)
    requires TotalPreorder(le)
    requires SortedBy(le, s)
    ensures SortedBy(le, r)
    ensures multiset(r) == multiset(s) + multiset{x}
  {
    if |s| == 0 then [x]
    else if le(x, s[0]) then [x] + s
    else
      var rest := InsertBy(le, x, s[1..]);
      assert forall k :: 0 <= k < |rest| ==> le(s[0], rest[k]) by {
        forall k | 0 <= k < |rest| ensures le(s[0], rest[k]) {
          assert rest[k] in multiset(rest);
          if rest[k] != x {
            assert rest[k] in multiset(s[1..]);
            var j :| 0 <= j < |s[1..]| && s[1..][j] == rest[k];
            assert s[1..][j] == s[j + 1];
          }
        }
      }
      assert s == [s[0]] + s[1..];
      [s[0]] + rest
  }

  /** A sorted permutation of `s`. */
  function SortBy<T(!new)>(le: (T, T) -> bool, s: seq<T>): (r: seq<T>)
    requires TotalPreorder(le)
    ensures SortedBy(le, r)
    ensures multiset(r) == multiset(s)
    ensures |r| == |s|
  {
    if |s| == 0 then []
    else
      assert s == [s[0]] + s[1..];
      InsertBy(le, s[0], SortBy(le, s[1..]))
  }

  /** In a sorted sequence, each of the first `k` elements may precede every
      element after them. */
  lemma SortedPrefixFirst<T>(le: (T, T) -> bool, s: seq<T>, k: nat)
    requires SortedBy(le, s) && k <= |s|
    ensures forall i, c :: 0 <= i < k && c in multiset(s[k..]) ==> le(s[i], c)
  {
    forall i, c | 0 <= i < k && c in multiset(s[k..]) ensures le(s[i], c) {
      var j :| 0 <= j < |s[k..]| && s[k..][j] == c;
      assert s[k + j] == c;
    }
  }

  /** Filtering a sorted sequence leaves it sorted. */
  lemma {:induction false} FilterKeepsSorted<T(!new)>(le: (T, T) -> bool, s: seq<T>, p: T -> bool)
    requires SortedBy(le, s)
    ensures SortedBy(le, Filter(s, p))
  {
    if |s| != 0 {
      assert SortedBy(le, s[1..]) by {
        forall i, j | 0 <= i < j < |s[1..]| ensures le(s[1..][i], s[1..][j]) {
          assert s[1..][i] == s[i + 1] && s[1..][j] == s[j + 1];
        }
      }
      FilterKeepsSorted(le, s[1..], p);
      var rest := Filter(s[1..], p);
      if p(s[0]) {
        forall k | 0 <= k < |rest| ensures le(s[0], rest[k]) {
          assert rest[k] in s[1..];
          var j :| 0 <= j < |s[1..]| && s[1..][j] == rest[k];
          assert s[j + 1] == rest[k];
        }
        assert Filter(s, p) == [s[0]] + rest;
      } else {
        assert Filter(s, p) == rest;
      }
    }
  }
}
