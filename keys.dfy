/**
 * Canonical distance keys. The code turns both `"A-B"` strings (`k.split('-')`) and
 * `(from, to)` records into `tuple(sorted(...))`, so a key is a sorted sequence of town
 * names. This module models `str.split`, Python's ordering of strings and `sorted`.
 */
module Keys {

  /** Python's `a <= b` on strings: lexicographic by code point, a prefix sorts first. */
  predicate StrLe(a: string, b: string)
    ensures a <= b ==> StrLe(a, b)
    decreases |a|
  {
    |a| == 0 || (|b| > 0 && (a[0] < b[0] || (a[0] == b[0] && StrLe(a[1..], b[1..]))))
  }

  lemma {:induction false} StrLeTotal(a: string, b: string)
    ensures StrLe(a, b) || StrLe(b, a)
    decreases |a|
  {
    if |a| > 0 && |b| > 0 && a[0] == b[0] {
      StrLeTotal(a[1..], b[1..]);
    }
  }

  lemma {:induction false} StrLeAntisymmetric(a: string, b: string)
    requires StrLe(a, b) && StrLe(b, a)
    ensures a == b
    decreases |a|
  {
    if |a| > 0 {
      StrLeAntisymmetric(a[1..], b[1..]);
      assert a == [a[0]] + a[1..] && b == [b[0]] + b[1..];
    }
  }

  lemma {:induction false} StrLeTransitive(a: string, b: string, c: string)
    requires StrLe(a, b) && StrLe(b, c)
    ensures StrLe(a, c)
    decreases |a|
  {
    if |a| > 0 && a[0] == b[0] && b[0] == c[0] {
      StrLeTransitive(a[1..], b[1..], c[1..]);
    }
  }

  predicate Sorted(s: seq<string>)
  {
    forall i, j :: 0 <= i < j < |s| ==> StrLe(s[i], s[j])
  }

  /** Inserts `x` before the first element it sorts at or below. */
  function Insert(x: string, s: seq<string>): (r: seq<string>)
    ensures multiset(r) == multiset(s) + multiset{x}
    decreases |s|
  {
    if |s| == 0 then [x]
    else if StrLe(x, s[0]) then [x] + s
    else
      assert s == [s[0]] + s[1..];
      [s[0]] + Insert(x, s[1..])
  }

  lemma {:induction false} InsertSorted(x: string, s: seq<string>)
    requires Sorted(s)
    ensures Sorted(Insert(x, s))
    decreases |s|
  {
    if |s| == 0 {
    } else if StrLe(x, s[0]) {
      forall j | 0 <= j < |s| ensures StrLe(x, s[j]) {
        if j > 0 { StrLeTransitive(x, s[0], s[j]); }
      }
    } else {
      StrLeTotal(x, s[0]);
      InsertSorted(x, s[1..]);
      var tail := Insert(x, s[1..]);
      forall j | 0 <= j < |tail| ensures StrLe(s[0], tail[j]) {
        assert tail[j] in multiset(tail);
        if tail[j] != x {
          assert tail[j] in multiset(s[1..]);
          var k :| 0 <= k < |s[1..]| && s[1..][k] == tail[j];
          assert s[k + 1] == tail[j];
        }
      }
    }
  }

  /** Python's `sorted` on a list of strings (an insertion sort; see SortedUnique for why any sort agrees). */
  function SortStrings(s: seq<string>): (r: seq<string>)
    ensures multiset(r) == multiset(s)
    ensures |r| == |s|
    decreases |s|
  {
    if |s| == 0 then []
    else
      assert s == [s[0]] + s[1..];
      Insert(s[0], SortStrings(s[1..]))
  }

  lemma {:induction false} SortStringsSorted(s: seq<string>)
    ensures Sorted(SortStrings(s))
    decreases |s|
  {
    if |s| > 0 {
      SortStringsSorted(s[1..]);
      InsertSorted(s[0], SortStrings(s[1..]));
    }
  }

  lemma SortedTail(s: seq<string>)
    requires Sorted(s) && |s| > 0
    ensures Sorted(s[1..])
  {
    forall i, j | 0 <= i < j < |s| - 1 ensures StrLe(s[1..][i], s[1..][j]) {
      assert s[1..][i] == s[i + 1] && s[1..][j] == s[j + 1];
    }
  }

  /** The head of a sorted sequence sorts at or below each of its elements. */
  lemma HeadIsLeast(s: seq<string>, x: string)
    requires Sorted(s) && x in multiset(s)
    ensures StrLe(s[0], x)
  {
    var i :| 0 <= i < |s| && s[i] == x;
    if i == 0 { StrLeTotal(x, x); }
  }

  /** Two sorted permutations of the same strings are equal, so `sorted` has one possible result. */
  lemma {:induction false} SortedUnique(r1: seq<string>, r2: seq<string>)
    requires Sorted(r1) && Sorted(r2) && multiset(r1) == multiset(r2)
    ensures r1 == r2
    decreases |r1|
  {
    assert |r2| == |r1| by { assert |multiset(r1)| == |multiset(r2)|; }
    if |r1| > 0 {
      HeadIsLeast(r1, r2[0]);
      HeadIsLeast(r2, r1[0]);
      StrLeAntisymmetric(r1[0], r2[0]);
      assert r1 == [r1[0]] + r1[1..] && r2 == [r2[0]] + r2[1..];
      assert multiset(r1[1..]) == multiset(r1) - multiset{r1[0]};
      assert multiset(r2[1..]) == multiset(r2) - multiset{r2[0]};
      SortedTail(r1);
      SortedTail(r2);
      SortedUnique(r1[1..], r2[1..]);
    }
  }

  /** `str.split(sep)`: the maximal pieces between separators; always at least one piece. */
  function Split(s: string, sep: char): (parts: seq<string>)
    ensures |parts| >= 1
    ensures forall i :: 0 <= i < |parts| ==> sep !in parts[i]
    decreases |s|
  {
    if |s| == 0 then [""]
    else
      var rest := Split(s[1..], sep);
      if s[0] == sep then [""] + rest
      else [[s[0]] + rest[0]] + rest[1..]
  }

  /** `sep.join(parts)`. */
  function Join(parts: seq<string>, sep: char): string
    requires |parts| >= 1
    decreases |parts|
  {
    if |parts| == 1 then parts[0] else parts[0] + [sep] + Join(parts[1..], sep)
  }

  /** Number of occurrences of `c` in `s`. */
  function Occurrences(s: string, c: char): nat
    decreases |s|
  {
    if |s| == 0 then 0 else (if s[0] == c then 1 else 0) + Occurrences(s[1..], c)
  }

  lemma {:induction false} JoinSplit(s: string, sep: char)
    ensures Join(Split(s, sep), sep) == s
    decreases |s|
  {
    if |s| > 0 {
      JoinSplit(s[1..], sep);
      var rest := Split(s[1..], sep);
      if s[0] == sep {
        assert Split(s, sep)[1..] == rest;
      } else {
        var parts := Split(s, sep);
        assert parts[1..] == rest[1..];
        if |rest| == 1 {
        } else {
          assert Join(rest, sep) == rest[0] + [sep] + Join(rest[1..], sep);
        }
      }
      assert s == [s[0]] + s[1..];
    }
  }

  lemma {:induction false} SplitCount(s: string, sep: char)
    ensures |Split(s, sep)| == Occurrences(s, sep) + 1
    decreases |s|
  {
    if |s| > 0 { SplitCount(s[1..], sep); }
  }

  /** A separator-free prefix glues onto the first piece of what follows it. */
  lemma {:induction false} SplitPrefix(p: string, t: string, sep: char)
    requires sep !in p
    ensures Split(p + t, sep) == [p + Split(t, sep)[0]] + Split(t, sep)[1..]
    decreases |p|
  {
    if |p| > 0 {
      assert (p + t)[1..] == p[1..] + t;
      assert (p + t)[0] == p[0];
      SplitPrefix(p[1..], t, sep);
      var parts := Split(t, sep);
      var rest := Split(p[1..] + t, sep);
      assert rest[0] == p[1..] + parts[0] && rest[1..] == parts[1..];
      assert p[0] != sep;
      assert Split(p + t, sep) == [[p[0]] + rest[0]] + rest[1..];
      assert [p[0]] + (p[1..] + parts[0]) == p + parts[0];
    } else {
      var parts := Split(t, sep);
      assert p + t == t && p + parts[0] == parts[0];
      assert parts == [parts[0]] + parts[1..];
    }
  }

  lemma {:induction false} SplitJoin(parts: seq<string>, sep: char)
    requires |parts| >= 1
    requires forall i :: 0 <= i < |parts| ==> sep !in parts[i]
    ensures Split(Join(parts, sep), sep) == parts
    decreases |parts|
  {
    if |parts| == 1 {
      SplitPrefix(parts[0], "", sep);
      assert parts[0] + "" == parts[0];
    } else {
      var rest := Join(parts[1..], sep);
      SplitJoin(parts[1..], sep);
      assert parts[0] + [sep] + rest == parts[0] + ([sep] + rest);
      SplitPrefix(parts[0], [sep] + rest, sep);
      assert ([sep] + rest)[1..] == rest;
      assert Split([sep] + rest, sep) == [""] + parts[1..];
      assert parts[0] + "" == parts[0];
      assert parts == [parts[0]] + parts[1..];
    }
  }

  /** The key that `tuple(sorted(k.split('-')))` builds from a string key. */
  function CanonKey(k: string): (r: seq<string>)
    ensures Sorted(r)
    ensures |r| == Occurrences(k, '-') + 1
    ensures forall i :: 0 <= i < |r| ==> '-' !in r[i]
  {
    var parts := Split(k, '-');
    SortStringsSorted(parts);
    SplitCount(k, '-');
    var r := SortStrings(parts);
    assert forall i :: 0 <= i < |r| ==> '-' !in r[i] by {
      forall i | 0 <= i < |r| ensures '-' !in r[i] {
        assert r[i] in multiset(parts);
      }
    }
    r
  }

  /** The key that `tuple(sorted((a, b)))` builds for a pair of towns (see PairKeyIsSorted). */
  function PairKey(a: string, b: string): (r: seq<string>)
    ensures (r == [a, b] || r == [b, a]) && StrLe(r[0], r[1])
  {
    StrLeTotal(a, b);
    if StrLe(a, b) then [a, b] else [b, a]
  }

  /** The pair key is what `sorted` gives for the two names. */
  lemma PairKeyIsSorted(a: string, b: string)
    ensures PairKey(a, b) == SortStrings([a, b])
  {
    assert [a, b][1..] == [b];
    assert [b][1..] == [];
  }

  /** The two directions of a pair give the same key. */
  lemma PairKeySymmetric(a: string, b: string)
    ensures PairKey(a, b) == PairKey(b, a)
  {
    StrLeTotal(a, b);
    if StrLe(a, b) && StrLe(b, a) {
      StrLeAntisymmetric(a, b);
    }
  }

  /** A pair key is the sorted pair, and two pair keys agree exactly when they name the same unordered pair. */
  lemma PairKeyEquality(a: string, b: string, c: string, d: string)
    ensures |PairKey(a, b)| == 2
    ensures PairKey(a, b) == PairKey(c, d) <==> (a == c && b == d) || (a == d && b == c)
  {
    var p, q := PairKey(a, b), PairKey(c, d);
    if p == q {
      assert p[0] == q[0] && p[1] == q[1];
    }
    if a == d && b == c { PairKeySymmetric(a, b); }
  }

  /** `"A-B"` and `"B-A"` give the key of the pair (A, B) when neither name contains `-`. */
  lemma StringKeyDirection(a: string, b: string)
    requires '-' !in a && '-' !in b
    ensures CanonKey(a + "-" + b) == PairKey(a, b)
    ensures CanonKey(b + "-" + a) == PairKey(a, b)
  {
    assert Join([a, b], '-') == a + "-" + b;
    assert Join([b, a], '-') == b + "-" + a;
    SplitJoin([a, b], '-');
    SplitJoin([b, a], '-');
    PairKeyIsSorted(a, b);
    PairKeyIsSorted(b, a);
    PairKeySymmetric(a, b);
  }

  /** A string key that does not split into exactly two names yields a key no pair lookup can produce. */
  lemma MalformedKeyUnmatched(k: string, a: string, b: string)
    requires Occurrences(k, '-') != 1
    ensures CanonKey(k) != PairKey(a, b)
  {
    SplitCount(k, '-');
    PairKeyIsSorted(a, b);
  }
}
