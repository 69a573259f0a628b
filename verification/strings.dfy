/** The JavaScript string operations the source relies on: `includes`,
    `startsWith`-style prefix tests, `toLowerCase`, `split` on one character,
    and the code-point order a database uses for `ORDER BY name`. */
module Strings {

  /** `hay.includes(needle)`: `needle` occurs in `hay` at some index. */
  predicate Contains(hay: string, needle: string)
    decreases |hay|
  {
    needle <= hay || (|hay| > 0 && Contains(hay[1..], needle))
  }

  /** `needle` occurs in `hay` starting at index `i`. */
  predicate OccursAt(hay: string, needle: string, i: int) {
    0 <= i && i + |needle| <= |hay| && hay[i..i + |needle|] == needle
  }

  /** An occurrence at any index makes `Contains` hold. */
  lemma {:induction false} OccursAtContains(hay: string, needle: string, i: int)
    requires OccursAt(hay, needle, i)
    ensures Contains(hay, needle)
    decreases i
  {
    if i == 0 {
      assert needle == hay[..|needle|];
    } else {
      assert hay[i..i + |needle|] == hay[1..][i - 1..i - 1 + |needle|];
      OccursAtContains(hay[1..], needle, i - 1);
    }
  }

  /** `Contains` is exactly "there is an index at which `needle` starts". */
  lemma {:induction false} ContainsAt(hay: string, needle: string)
    ensures Contains(hay, needle) <==> exists i :: OccursAt(hay, needle, i)
    decreases |hay|
  {
    forall i | OccursAt(hay, needle, i) ensures Contains(hay, needle) {
      OccursAtContains(hay, needle, i);
    }
    if Contains(hay, needle) {
      if needle <= hay {
        assert OccursAt(hay, needle, 0);
      } else {
        ContainsAt(hay[1..], needle);
        var i :| OccursAt(hay[1..], needle, i);
        assert hay[i + 1..i + 1 + |needle|] == hay[1..][i..i + |needle|];
        assert OccursAt(hay, needle, i + 1);
      }
    }
  }

  /** A string contains whatever sits in its middle. */
  lemma ContainsMiddle(a: string, b: string, c: string)
    ensures Contains(a + b + c, b)
  {
    assert (a + b + c)[|a|..|a| + |b|] == b;
    OccursAtContains(a + b + c, b, |a|);
  }

  /** A needle with a character the hay lacks does not occur in it. */
  lemma {:induction false} MissingCharNotContained(hay: string, needle: string, c: char)
    requires c in needle && c !in hay
    ensures !Contains(hay, needle)
    decreases |hay|
  {
    var i :| 0 <= i < |needle| && needle[i] == c;
    assert i >= |hay| || hay[i] != c;
    if |hay| > 0 {
      MissingCharNotContained(hay[1..], needle, c);
    }
  }

  /** A string contains every string it starts with and every string it ends with. */
  lemma ContainsSuffixAndPrefix(a: string, b: string)
    ensures Contains(a + b, a) && Contains(a + b, b)
  {
    assert OccursAt(a + b, a, 0);
    assert (a + b)[|a|..|a| + |b|] == b;
    assert OccursAt(a + b, b, |a|);
    ContainsAt(a + b, a);
    ContainsAt(a + b, b);
  }

  /** ASCII lower-casing of one character; every other character is kept. */
  function LowerChar(c: char): (d: char)
    ensures 'A' <= c <= 'Z' ==> 'a' <= d <= 'z'
    ensures !('A' <= c <= 'Z') ==> d == c
  {
    if 'A' <= c <= 'Z' then (c as int - 'A' as int + 'a' as int) as char else c
  }

  /** `s.toLowerCase()` on the ASCII range. */
  function Lower(s: string): (r: string)
    ensures |r| == |s|
    ensures forall i :: 0 <= i < |s| ==> r[i] == LowerChar(s[i])
  {
    if |s| == 0 then [] else [LowerChar(s[0])] + Lower(s[1..])
  }

  /** The pieces of `ps` glued back together with `d` between them. */
  function Join(ps: seq<string>, d: char): string
    requires |ps| >= 1
  {
    if |ps| == 1 then ps[0] else ps[0] + [d] + Join(ps[1..], d)
  }

  /** The first piece starts the joined string; with a second piece, the
      separator and that piece follow it. */
  lemma JoinPrefix(ps: seq<string>, d: char)
    requires |ps| >= 1
    ensures ps[0] <= Join(ps, d)
    ensures |ps| > 1 ==> d in Join(ps, d)
    ensures |ps| > 1 ==> ps[0] + [d] + ps[1] <= Join(ps, d)
  {
    if |ps| > 1 {
      var rest := Join(ps[1..], d);
      assert ps[1..][0] == ps[1];
      assert ps[1] <= rest;
      assert (ps[0] + [d] + rest)[|ps[0]|] == d;
    }
  }

  /** `s.split(d)` for a one-character separator: the maximal `d`-free runs of
      `s`, including empty runs at either end and between adjacent separators. */
  function Split(s: string, d: char): (r: seq<string>)
    ensures |r| >= 1
    ensures forall k :: 0 <= k < |r| ==> d !in r[k]
    ensures Join(r, d) == s
  {
    if |s| == 0 then [""]
    else
      var rest := Split(s[1..], d);
      if s[0] == d then
        assert s == [d] + s[1..];
        [""] + rest
      else
        JoinConsFirst(s[0], rest, d);
        assert s == [s[0]] + s[1..];
        [[s[0]] + rest[0]] + rest[1..]
  }

  /** Prepending a character to the first piece prepends it to the joined string. */
  lemma JoinConsFirst(c: char, ps: seq<string>, d: char)
    requires |ps| >= 1
    ensures Join([[c] + ps[0]] + ps[1..], d) == [c] + Join(ps, d)
  {
    var qs := [[c] + ps[0]] + ps[1..];
    assert qs[1..] == ps[1..];
  }

  /** Splitting text that has no separator before position |a| gives `a` as
      its first piece and the pieces of the rest after it. */
  lemma {:induction false} SplitAfterFirst(a: string, b: string, d: char)
    requires d !in a
    ensures Split(a + [d] + b, d) == [a] + Split(b, d)
  {
    if |a| == 0 {
      assert a + [d] + b == [d] + b;
      assert ([d] + b)[1..] == b;
    } else {
      assert (a + [d] + b)[1..] == a[1..] + [d] + b;
      SplitAfterFirst(a[1..], b, d);
      assert [a[0]] + a[1..] == a;
    }
  }

  /** Text without the separator is one piece. */
  lemma {:induction false} SplitNoSeparator(s: string, d: char)
    requires d !in s
    ensures Split(s, d) == [s]
  {
    if |s| != 0 {
      SplitNoSeparator(s[1..], d);
      assert [s[0]] + s[1..] == s;
    }
  }

  /** A separator-free head followed by nothing or by a separator is the
      first piece. */
  lemma FirstPiece(a: string, rest: string, d: char)
    requires d !in a
    requires rest == [] || rest[0] == d
    ensures Split(a + rest, d)[0] == a
  {
    if rest == [] {
      assert a + rest == a;
      SplitNoSeparator(a, d);
    } else {
      assert a + rest == a + [d] + rest[1..];
      SplitAfterFirst(a, rest[1..], d);
    }
  }

  /** `Split` inverts `Join` for separator-free pieces. */
  lemma {:induction false} SplitJoin(ps: seq<string>, d: char)
    requires |ps| >= 1
    requires forall k :: 0 <= k < |ps| ==> d !in ps[k]
    ensures Split(Join(ps, d), d) == ps
  {
    if |ps| == 1 {
      SplitNoSeparator(ps[0], d);
    } else {
      SplitJoin(ps[1..], d);
      SplitAfterFirst(ps[0], Join(ps[1..], d), d);
      assert [ps[0]] + ps[1..] == ps;
    }
  }

  /** Code-point lexicographic order: `a` sorts no later than `b`. */
  predicate LexLe(a: string, b: string) {
    if |a| == 0 then true
    else if |b| == 0 then false
    else if a[0] != b[0] then a[0] < b[0]
    else LexLe(a[1..], b[1..])
  }

  lemma {:induction false} LexLeReflexive(a: string)
    ensures LexLe(a, a)
  {
    if |a| != 0 {
      LexLeReflexive(a[1..]);
    }
  }

  /** Strings whose first characters differ are ordered by those characters. */
  lemma LexLeFirstChar(a: string, b: string)
    requires |a| > 0 && |b| > 0 && a[0] != b[0]
    ensures LexLe(a, b) <==> a[0] < b[0]
  {
  }

  lemma {:induction false} LexLeTotal(a: string, b: string)
    ensures LexLe(a, b) || LexLe(b, a)
  {
    if |a| != 0 && |b| != 0 && a[0] == b[0] {
      LexLeTotal(a[1..], b[1..]);
    }
  }

  lemma {:induction false} LexLeTransitive(a: string, b: string, c: string)
    requires LexLe(a, b) && LexLe(b, c)
    ensures LexLe(a, c)
  {
    if |a| != 0 && |b| != 0 && |c| != 0 && a[0] == b[0] && b[0] == c[0] {
      LexLeTransitive(a[1..], b[1..], c[1..]);
    }
  }

  lemma {:induction false} LexLeAntisymmetric(a: string, b: string)
    requires LexLe(a, b) && LexLe(b, a)
    ensures a == b
  {
    if |a| != 0 && |b| != 0 {
      LexLeAntisymmetric(a[1..], b[1..]);
      assert a == [a[0]] + a[1..] && b == [b[0]] + b[1..];
    }
  }
}
