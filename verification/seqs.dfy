/** Order-preserving filtering and windows over sequences, the shapes that
    `Array.prototype.filter`, Prisma's `skip`/`take` and `slice` have. */
module Seqs {

  /** The order-preserving subsequence of the elements of `s` that satisfy `p`. */
  function Filter<T(!new)>(s: seq<T>, p: T -> bool): (r: seq<T>)
    ensures |r| <= |s|
    ensures forall x :: x in r <==> x in s && p(x)
    ensures forall i :: 0 <= i < |r| ==> p(r[i])
  {
    if |s| == 0 then []
    else (if p(s[0]) then [s[0]] else []) + Filter(s[1..], p)
  }

  /** The part one element contributes to a filter. */
  function Keep<T>(x: T, p: T -> bool): seq<T> {
    if p(x) then [x] else []
  }

  /** Filtering four elements, one at a time. */
  lemma FilterOfFour<T(!new)>(s: seq<T>, p: T -> bool)
    requires |s| == 4
    ensures Filter(s, p) == Keep(s[0], p) + (Keep(s[1], p) + (Keep(s[2], p) + Keep(s[3], p)))
  {
    assert s[4..] == [];
    FilterStep(s, 3, p);
    assert Filter(s[3..], p) == Keep(s[3], p);
    FilterStep(s, 2, p);
    FilterStep(s, 1, p);
    FilterStep(s, 0, p);
    assert s[0..] == s;
  }

  /** Filtering the suffix from `k` on, one element at a time. */
  lemma FilterStep<T(!new)>(s: seq<T>, k: nat, p: T -> bool)
    requires k < |s|
    ensures Filter(s[k..], p) == Keep(s[k], p) + Filter(s[k + 1..], p)
  {
    assert s[k..][1..] == s[k + 1..];
  }

  /** Filtering distributes over concatenation: the relative order of the kept
      elements is the order they had in the input. */
  lemma {:induction false} FilterConcat<T(!new)>(a: seq<T>, b: seq<T>, p: T -> bool)
    ensures Filter(a + b, p) == Filter(a, p) + Filter(b, p)
  {
    if |a| == 0 {
      assert a + b == b;
    } else {
      assert (a + b)[0] == a[0];
      assert (a + b)[1..] == a[1..] + b;
      FilterConcat(a[1..], b, p);
    }
  }

  /** A filter keeps the whole input exactly when every element passes it. */
  lemma {:induction false} FilterKeepsAll<T(!new)>(s: seq<T>, p: T -> bool)
    ensures Filter(s, p) == s <==> forall i :: 0 <= i < |s| ==> p(s[i])
  {
    if |s| == 0 {
    } else {
      FilterKeepsAll(s[1..], p);
      if !p(s[0]) {
        assert s[0] in s;
      } else if forall i :: 0 <= i < |s| ==> p(s[i]) {
        assert forall i :: 0 <= i < |s[1..]| ==> p(s[1..][i]) by {
          forall i | 0 <= i < |s[1..]| ensures p(s[1..][i]) {
            assert s[1..][i] == s[i + 1];
          }
        }
      }
    }
  }

  /** Two filters agree on a sequence when their predicates agree on its elements. */
  lemma {:induction false} FilterCongruent<T(!new)>(s: seq<T>, p: T -> bool, q: T -> bool)
    requires forall i :: 0 <= i < |s| ==> p(s[i]) == q(s[i])
    ensures Filter(s, p) == Filter(s, q)
  {
    if |s| != 0 {
      assert forall i :: 0 <= i < |s[1..]| ==> s[1..][i] == s[i + 1];
      FilterCongruent(s[1..], p, q);
    }
  }

  /** Filtering twice is filtering once by the conjunction. */
  lemma {:induction false} FilterFilter<T(!new)>(s: seq<T>, p: T -> bool, q: T -> bool, both: T -> bool)
    requires forall x :: both(x) == (p(x) && q(x))
    ensures Filter(Filter(s, p), q) == Filter(s, both)
  {
    if |s| != 0 {
      FilterFilter(s[1..], p, q, both);
      var head := if p(s[0]) then [s[0]] else [];
      FilterConcat(head, Filter(s[1..], p), q);
    }
  }

  /** Applying the same filter a second time changes nothing. */
  lemma FilterIdempotent<T(!new)>(s: seq<T>, p: T -> bool)
    ensures Filter(Filter(s, p), p) == Filter(s, p)
  {
    var r := Filter(s, p);
    FilterKeepsAll(r, p);
  }

  /** The elements a filter keeps and the elements it drops add up to the input. */
  lemma {:induction false} FilterSplitsLength<T(!new)>(s: seq<T>, p: T -> bool)
    ensures |Filter(s, p)| + |Filter(s, x => !p(x))| == |s|
  {
    if |s| != 0 {
      FilterSplitsLength(s[1..], p);
    }
  }

  /** The elements of `s` from index `skip` on, at most `take` of them; what
      a database `OFFSET skip LIMIT take` returns from an ordered result. */
  function Window<T>(s: seq<T>, skip: nat, take: nat): (r: seq<T>)
    ensures |r| <= take
    ensures skip >= |s| ==> r == []
    ensures skip < |s| ==> |r| == if skip + take <= |s| then take else |s| - skip
    ensures forall i :: 0 <= i < |r| ==> r[i] == s[skip + i]
  {
    if skip >= |s| then []
    else if skip + take <= |s| then s[skip..skip + take]
    else s[skip..]
  }
}
