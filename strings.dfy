/**
  The pieces of Go's `strings`, `strconv` and `sort` packages that the translator
  relies on, written out so that their laws can be proved.
 */
module Strings {

  predicate StartsWith(s: string, p: string) {
    |p| <= |s| && s[..|p|] == p
  }

  /** `p` occurs somewhere in `s`. */
  predicate Occurs(s: string, p: string)
    decreases |s|
  {
    StartsWith(s, p) || (|s| > 0 && Occurs(s[1..], p))
  }

  /**
    `strings.ReplaceAll(s, pat, rep)` for a non-empty `pat` (every call site in the
    translator passes a non-empty one): the leftmost occurrence is replaced first and
    the scan resumes after it, so occurrences never overlap.
   */
  function ReplaceAll(s: string, pat: string, rep: string): (r: string)
    requires |pat| > 0
    decreases |s|
  {
    if s == [] then []
    else if StartsWith(s, pat) then rep + ReplaceAll(s[|pat|..], pat, rep)
    else [s[0]] + ReplaceAll(s[1..], pat, rep)
  }

  /** A pattern that does not occur leaves the string as it is. */
  lemma {:induction false} ReplaceAllAbsent(s: string, pat: string, rep: string)
    requires |pat| > 0 && !Occurs(s, pat)
    ensures ReplaceAll(s, pat, rep) == s
    decreases |s|
  {
    if s != [] {
      ReplaceAllAbsent(s[1..], pat, rep);
    }
  }

  /** Replacing one character by another is a character-wise substitution. */
  lemma {:induction false} ReplaceCharAt(s: string, a: char, b: char)
    ensures |ReplaceAll(s, [a], [b])| == |s|
    ensures forall i :: 0 <= i < |s| ==>
              ReplaceAll(s, [a], [b])[i] == if s[i] == a then b else s[i]
    decreases |s|
  {
    if s != [] {
      ReplaceCharAt(s[1..], a, b);
      var r := ReplaceAll(s, [a], [b]);
      var t := ReplaceAll(s[1..], [a], [b]);
      assert r == [if s[0] == a then b else s[0]] + t;
    }
  }

  /** `strings.Split(s, [c])`: the pieces between the occurrences of `c`. */
  function Split(s: string, c: char): (r: seq<string>)
    ensures |r| > 0
    ensures forall k :: 0 <= k < |r| ==> c !in r[k]
    decreases |s|
  {
    if s == [] then [[]]
    else if s[0] == c then [[]] + Split(s[1..], c)
    else
      var rest := Split(s[1..], c);
      [[s[0]] + rest[0]] + rest[1..]
  }

  /** The pieces written one after the other. */
  function Concat(ss: seq<string>): string
    decreases |ss|
  {
    if ss == [] then [] else Concat(ss[..|ss| - 1]) + ss[|ss| - 1]
  }

  lemma ConcatSingle(s: string)
    ensures Concat([s]) == s
  {
    assert [s][..0] == [];
  }

  lemma {:induction false} ConcatAppend(a: seq<string>, b: seq<string>)
    ensures Concat(a + b) == Concat(a) + Concat(b)
    decreases |b|
  {
    if b == [] {
      assert a + b == a;
    } else {
      var init, last := b[..|b| - 1], b[|b| - 1];
      assert (a + b)[..|a + b| - 1] == a + init && (a + b)[|a + b| - 1] == last;
      ConcatAppend(a, init);
      AppendAssoc(Concat(a), Concat(init), last);
    }
  }

  lemma AppendAssoc<T>(x: seq<T>, y: seq<T>, z: seq<T>)
    ensures x + y + z == x + (y + z)
  {
  }

  /** The pieces up to `j` and then piece `j`. */
  lemma ConcatTake(ss: seq<string>, j: nat)
    requires j < |ss|
    ensures Concat(ss[..j + 1]) == Concat(ss[..j]) + ss[j]
  {
    assert ss[..j + 1][..j] == ss[..j];
  }

  /** `strings.Join(parts, sep)`. */
  function Join(parts: seq<string>, sep: string): string
    decreases |parts|
  {
    if |parts| == 0 then []
    else if |parts| == 1 then parts[0]
    else parts[0] + sep + Join(parts[1..], sep)
  }

  /** One more part at the end: the separator and the part follow what was joined. */
  lemma {:induction false} JoinSnoc(parts: seq<string>, x: string, sep: string)
    requires |parts| > 0
    ensures Join(parts + [x], sep) == Join(parts, sep) + sep + x
    decreases |parts|
  {
    if |parts| == 1 {
      assert parts + [x] == [parts[0], x];
      assert [parts[0], x][1..] == [x];
    } else {
      assert (parts + [x])[1..] == parts[1..] + [x];
      JoinSnoc(parts[1..], x, sep);
      var j := Join(parts[1..], sep);
      assert parts[0] + sep + (j + sep + x) == parts[0] + sep + j + sep + x;
    }
  }

  /** Splitting at `c` and joining with `c` gives the text back. */
  lemma {:induction false} JoinSplit(s: string, c: char)
    ensures Join(Split(s, c), [c]) == s
    decreases |s|
  {
    if s != [] {
      JoinSplit(s[1..], c);
      var rest := Split(s[1..], c);
      if s[0] != c {
        var head := [s[0]] + rest[0];
        if |rest| == 1 {
          assert Split(s, c) == [head];
        } else {
          assert Split(s, c) == [head] + rest[1..];
          assert Join(rest, [c]) == rest[0] + [c] + Join(rest[1..], [c]);
          assert ([head] + rest[1..])[1..] == rest[1..];
        }
      } else {
        assert Split(s, c) == [[]] + rest;
        assert ([[]] + rest)[1..] == rest;
      }
    }
  }

  /** A text without `c` splits into itself alone. */
  lemma {:induction false} SplitAbsent(s: string, c: char)
    requires c !in s
    ensures Split(s, c) == [s]
    decreases |s|
  {
    if s != [] {
      assert c !in s[1..];
      SplitAbsent(s[1..], c);
      assert s == [s[0]] + s[1..];
    }
  }

  function Digit(d: nat): char
    requires d < 10
  {
    "0123456789"[d]
  }

  /** `strconv.Itoa` on a non-negative number. */
  function Itoa(n: nat): (r: string)
    ensures |r| > 0
    ensures n >= 10 ==> |r| >= 2
    decreases n
  {
    if n < 10 then [Digit(n)] else Itoa(n / 10) + [Digit(n % 10)]
  }

  lemma DigitInjective(a: nat, b: nat)
    requires a < 10 && b < 10 && Digit(a) == Digit(b)
    ensures a == b
  {
  }

  /** Different numbers have different decimal spellings. */
  lemma {:induction false} ItoaInjective(a: nat, b: nat)
    requires Itoa(a) == Itoa(b)
    ensures a == b
    decreases a
  {
    var ra, rb := Itoa(a), Itoa(b);
    if a < 10 && b < 10 {
      DigitInjective(a, b);
    } else if a >= 10 && b >= 10 {
      assert ra[|ra| - 1] == Digit(a % 10) && rb[|rb| - 1] == Digit(b % 10);
      DigitInjective(a % 10, b % 10);
      assert ra[..|ra| - 1] == Itoa(a / 10);
      assert rb[..|rb| - 1] == Itoa(b / 10);
      ItoaInjective(a / 10, b / 10);
    }
  }

  /** Go's `<` on strings: byte-wise, which for UTF-8 text is code-point order. */
  predicate LexLess(a: string, b: string)
    decreases |a|
  {
    |b| > 0 && (|a| == 0 || a[0] < b[0] || (a[0] == b[0] && LexLess(a[1..], b[1..])))
  }

  lemma {:induction false} LexIrreflexive(a: string)
    ensures !LexLess(a, a)
    decreases |a|
  {
    if |a| > 0 {
      LexIrreflexive(a[1..]);
    }
  }

  lemma {:induction false} LexTransitive(a: string, b: string, c: string)
    requires LexLess(a, b) && LexLess(b, c)
    ensures LexLess(a, c)
    decreases |a|
  {
    if |a| > 0 && a[0] == b[0] && b[0] == c[0] {
      LexTransitive(a[1..], b[1..], c[1..]);
    }
  }

  lemma {:induction false} LexTotal(a: string, b: string)
    requires a != b
    ensures LexLess(a, b) || LexLess(b, a)
    decreases |a|
  {
    if |a| > 0 && |b| > 0 && a[0] == b[0] {
      assert a == [a[0]] + a[1..] && b == [b[0]] + b[1..];
      LexTotal(a[1..], b[1..]);
    }
  }

  lemma {:induction false} LexAsymmetric(a: string, b: string)
    requires LexLess(a, b)
    ensures !LexLess(b, a)
    decreases |a|
  {
    if |a| > 0 && a[0] == b[0] {
      LexAsymmetric(a[1..], b[1..]);
    }
  }

  /** Every element is strictly below every later one. */
  predicate StrictlySorted(s: seq<string>) {
    forall i, j :: 0 <= i < j < |s| ==> LexLess(s[i], s[j])
  }

  predicate Distinct(s: seq<string>) {
    forall i, j :: 0 <= i < j < |s| ==> s[i] != s[j]
  }

  /** Insert `x` into an ordered sequence (one step of an insertion sort). */
  function Insert(x: string, s: seq<string>): (r: seq<string>)
    ensures multiset(r) == multiset(s) + multiset{x}
    ensures |s| > 0 && !LexLess(s[0], x) ==> r[0] == x
    ensures |s| > 0 && LexLess(s[0], x) ==> r[0] == s[0]
    ensures |s| == 0 ==> r == [x]
  {
    if s == [] then [x]
    else if LexLess(s[0], x) then
      assert s == [s[0]] + s[1..];
      [s[0]] + Insert(x, s[1..])
    else
      assert s == [s[0]] + s[1..];
      [x] + s
  }

  /** Neighbours are in order (equal neighbours allowed). */
  predicate Ordered(s: seq<string>) {
    forall i :: 0 <= i < |s| - 1 ==> !LexLess(s[i + 1], s[i])
  }

  lemma {:induction false} InsertOrdered(x: string, s: seq<string>)
    requires Ordered(s)
    ensures Ordered(Insert(x, s))
    decreases |s|
  {
    if s != [] && LexLess(s[0], x) {
      InsertOrdered(x, s[1..]);
      var t := Insert(x, s[1..]);
      var r := [s[0]] + t;
      forall i | 0 <= i < |r| - 1
        ensures !LexLess(r[i + 1], r[i])
      {
        if i == 0 {
          if |s| > 1 && !LexLess(s[1], x) {
            assert r[1] == x;
            LexAsymmetric(s[0], x);
          } else if |s| > 1 {
            assert r[1] == s[1];
          } else {
            assert r[1] == x;
            LexAsymmetric(s[0], x);
          }
        } else {
          assert r[i] == t[i - 1] && r[i + 1] == t[i];
        }
      }
    } else if s != [] {
      var r := [x] + s;
      forall i | 0 <= i < |r| - 1
        ensures !LexLess(r[i + 1], r[i])
      {
        if i > 0 {
          assert r[i] == s[i - 1] && r[i + 1] == s[i];
        }
      }
    }
  }

  /** `sort.Strings`, as an insertion sort: ordered and a permutation of its input. */
  function SortStrings(s: seq<string>): (r: seq<string>)
    ensures multiset(r) == multiset(s)
    ensures Ordered(r)
    decreases |s|
  {
    if s == [] then []
    else
      var t := SortStrings(s[1..]);
      InsertOrdered(s[0], t);
      assert s == [s[0]] + s[1..];
      Insert(s[0], t)
  }

  lemma DistinctMultiset(s: seq<string>, r: seq<string>)
    requires Distinct(s) && multiset(r) == multiset(s)
    ensures Distinct(r)
  {
    forall i, j | 0 <= i < j < |r|
      ensures r[i] != r[j]
    {
      if r[i] == r[j] {
        var x := r[i];
        assert multiset(r)[x] >= 2 by {
          assert r == r[..j] + [r[j]] + r[j + 1..];
          assert r[i] in multiset(r[..j]);
          assert multiset(r) == multiset(r[..j]) + multiset{x} + multiset(r[j + 1..]);
        }
        DistinctCountOne(s, x);
        assert false;
      }
    }
  }

  lemma {:induction false} DistinctCountOne(s: seq<string>, x: string)
    requires Distinct(s)
    ensures multiset(s)[x] <= 1
    decreases |s|
  {
    if s != [] {
      assert s == [s[0]] + s[1..];
      DistinctCountOne(s[1..], x);
      if s[0] == x {
        assert x !in s[1..];
        assert multiset(s[1..])[x] == 0;
      }
    }
  }

  /** Sorting distinct names gives a strictly increasing sequence. */
  lemma SortDistinctStrict(s: seq<string>)
    requires Distinct(s)
    ensures StrictlySorted(SortStrings(s))
  {
    var r := SortStrings(s);
    DistinctMultiset(s, r);
    forall i | 0 <= i < |r| - 1
      ensures LexLess(r[i], r[i + 1])
    {
      LexTotal(r[i], r[i + 1]);
    }
    forall i, j | 0 <= i < j < |r|
      ensures LexLess(r[i], r[j])
    {
      ChainLess(r, i, j);
    }
  }

  lemma {:induction false} ChainLess(r: seq<string>, i: nat, j: nat)
    requires i < j < |r|
    requires forall k :: 0 <= k < |r| - 1 ==> LexLess(r[k], r[k + 1])
    ensures LexLess(r[i], r[j])
    decreases j - i
  {
    if j > i + 1 {
      ChainLess(r, i, j - 1);
      LexTransitive(r[i], r[j - 1], r[j]);
    }
  }

  /** Two strictly increasing sequences of the same names are the same sequence. */
  lemma {:induction false} StrictlySortedUnique(a: seq<string>, b: seq<string>)
    requires StrictlySorted(a) && StrictlySorted(b)
    requires forall x :: x in a <==> x in b
    ensures a == b
    decreases |a|
  {
    if a != [] {
      assert a[0] in a;
    }
    if b != [] {
      assert b[0] in b;
    }
    if a != [] && b != [] {
      if a[0] != b[0] {
        assert b[0] in a && a[0] in b;
        var i :| 0 <= i < |a| && a[i] == b[0];
        var j :| 0 <= j < |b| && b[j] == a[0];
        assert i > 0 && j > 0;
        assert LexLess(a[0], a[i]) && LexLess(b[0], b[j]);
        LexAsymmetric(a[0], b[0]);
        assert false;
      }
      forall x
        ensures x in a[1..] <==> x in b[1..]
      {
        if x in a[1..] {
          var i :| 1 <= i < |a| && a[i] == x;
          assert LexLess(a[0], x);
          LexIrreflexive(x);
          assert x in b && x != b[0];
          var k :| 0 <= k < |b| && b[k] == x;
          assert b[1..][k - 1] == x;
        }
        if x in b[1..] {
          var i :| 1 <= i < |b| && b[i] == x;
          assert LexLess(b[0], x);
          LexIrreflexive(x);
          assert x in a && x != a[0];
          var k :| 0 <= k < |a| && a[k] == x;
          assert a[1..][k - 1] == x;
        }
      }
      StrictlySortedUnique(a[1..], b[1..]);
      assert a == [a[0]] + a[1..] && b == [b[0]] + b[1..];
    }
  }

  /** Some listing of a finite set, each element once. */
  ghost function SetToSeq(s: set<string>): (r: seq<string>)
    ensures Distinct(r) && |r| == |s|
    ensures forall x :: x in r <==> x in s
    decreases |s|
  {
    if s == {} then []
    else
      var x :| x in s;
      [x] + SetToSeq(s - {x})
  }

  /** The names of `s` in increasing order: what `sort.Strings` makes of any listing of `s`. */
  ghost function SortedNames(s: set<string>): (r: seq<string>)
    ensures StrictlySorted(r) && |r| == |s|
    ensures forall x :: x in r <==> x in s
  {
    var l := SetToSeq(s);
    SortDistinctStrict(l);
    var r := SortStrings(l);
    assert forall x :: x in r <==> x in multiset(r);
    assert forall x :: x in l <==> x in multiset(l);
    assert |r| == |multiset(r)| == |multiset(l)| == |l|;
    r
  }

  /** Whatever order a set's names are listed in, sorting them gives `SortedNames`. */
  lemma SortListing(l: seq<string>, s: set<string>)
    requires Distinct(l) && forall x :: x in l <==> x in s
    ensures SortStrings(l) == SortedNames(s)
  {
    SortDistinctStrict(l);
    var r := SortStrings(l);
    assert forall x :: x in r <==> x in multiset(r);
    assert forall x :: x in l <==> x in multiset(l);
    StrictlySortedUnique(r, SortedNames(s));
  }
}
