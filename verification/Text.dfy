/** ASCII string helpers: the few functions of Go's `strings` and `sort` packages the service relies on. */
module Text {

  datatype Option<+T> = None | Some(value: T)

  datatype Result<+T, +E> = Ok(value: T) | Err(error: E)

  predicate IsSpace(c: char) {
    c == ' ' || 9 <= c as int <= 13
  }

  function Lower(c: char): char {
    if 'A' <= c <= 'Z' then (c as int + 32) as char else c
  }

  /** Appending one element to what is done, taken from what is left. */
  lemma AppendOne<T>(done: seq<T>, x: T, rest: seq<T>)
    ensures done + ([x] + rest) == (done + [x]) + rest
  {
  }

  lemma SliceOfSlice<T>(s: seq<T>, from: nat, to: nat, i: nat, j: nat)
    requires i <= j && from <= to <= |s| && from + j <= to
    ensures s[from..to][i..j] == s[from + i..from + j]
  {
    var l, r := s[from..to][i..j], s[from + i..from + j];
    forall k | 0 <= k < j - i ensures l[k] == r[k] {
      assert l[k] == s[from..to][i + k] == s[from + (i + k)];
    }
  }

  function ToLower(s: string): (r: string)
    ensures |r| == |s|
  {
    seq(|s|, i requires 0 <= i < |s| => Lower(s[i]))
  }

  predicate EqualFold(a: string, b: string) {
    ToLower(a) == ToLower(b)
  }

  function TrimLeft(s: string, cut: char -> bool): (r: string)
    ensures |r| <= |s| && (r != "" ==> !cut(r[0]))
  {
    if s != "" && cut(s[0]) then TrimLeft(s[1..], cut) else s
  }

  function TrimRight(s: string, cut: char -> bool): (r: string)
    ensures |r| <= |s| && (r != "" ==> !cut(r[|r| - 1]))
  {
    if s != "" && cut(s[|s| - 1]) then TrimRight(s[..|s| - 1], cut) else s
  }

  function Trim(s: string, cut: char -> bool): string {
    TrimRight(TrimLeft(s, cut), cut)
  }

  function TrimSpace(s: string): string {
    Trim(s, IsSpace)
  }

  lemma {:induction false} TrimLeftCuts(s: string, cut: char -> bool) returns (from: nat)
    ensures from <= |s| && TrimLeft(s, cut) == s[from..]
    ensures forall i :: 0 <= i < from ==> cut(s[i])
    ensures from < |s| ==> !cut(s[from])
  {
    if s != "" && cut(s[0]) {
      var k := TrimLeftCuts(s[1..], cut);
      from := k + 1;
      forall i | 0 <= i < from ensures cut(s[i]) {
        if i > 0 { assert s[i] == s[1..][i - 1]; }
      }
    } else {
      from := 0;
    }
  }

  lemma {:induction false} TrimRightCuts(s: string, cut: char -> bool) returns (to: nat)
    ensures to <= |s| && TrimRight(s, cut) == s[..to]
    ensures forall i :: to <= i < |s| ==> cut(s[i])
    ensures 0 < to ==> !cut(s[to - 1])
  {
    if s != "" && cut(s[|s| - 1]) {
      to := TrimRightCuts(s[..|s| - 1], cut);
      assert s[..|s| - 1][..to] == s[..to];
      forall i | to <= i < |s| ensures cut(s[i]) {
        if i < |s| - 1 { assert s[i] == s[..|s| - 1][i]; }
      }
    } else {
      to := |s|;
    }
  }

  /** A text that starts and ends outside the cutset is left alone. */
  lemma TrimClean(s: string, cut: char -> bool)
    requires s == "" || (!cut(s[0]) && !cut(s[|s| - 1]))
    ensures Trim(s, cut) == s
  {
  }

  /** Trimming keeps a piece of the text, and a shorter one when either end is in the cutset. */
  lemma TrimKeeps(s: string, cut: char -> bool)
    ensures forall c :: c in Trim(s, cut) ==> c in s
    ensures s != "" && (cut(s[0]) || cut(s[|s| - 1])) ==> |Trim(s, cut)| < |s|
  {
    var from := TrimLeftCuts(s, cut);
    var to := TrimRightCuts(s[from..], cut);
  }

  /** Trimming removes a prefix and a suffix made of cutset characters only; whatever sits between two
      characters outside the cutset survives. */
  lemma {:induction false} TrimAround(a: string, m: string, b: string, cut: char -> bool)
    requires m != "" && !cut(m[0]) && !cut(m[|m| - 1])
    ensures Trim(a + (m + b), cut) == TrimLeft(a, cut) + (m + TrimRight(b, cut))
  {
    TrimLeftAppend(a, m + b, cut);
    TrimRightAround(TrimLeft(a, cut), m, b, cut);
  }

  lemma {:induction false} TrimRightAround(a: string, m: string, b: string, cut: char -> bool)
    requires m != "" && !cut(m[|m| - 1])
    ensures TrimRight(a + (m + b), cut) == a + (m + TrimRight(b, cut))
  {
    var am, r := a + m, TrimRight(b, cut);
    assert a + (m + b) == am + b && a + (m + r) == am + r;
    assert am[|am| - 1] == m[|m| - 1];
    TrimRightAppend(am, b, cut);
  }

  lemma {:induction false} TrimLeftAppend(a: string, m: string, cut: char -> bool)
    requires m != "" && !cut(m[0])
    ensures TrimLeft(a + m, cut) == TrimLeft(a, cut) + m
  {
    if a == "" {
      assert a + m == m;
    } else {
      assert (a + m)[1..] == a[1..] + m;
      if cut(a[0]) {
        TrimLeftAppend(a[1..], m, cut);
      }
    }
  }

  lemma {:induction false} TrimRightAppend(m: string, b: string, cut: char -> bool)
    requires m != "" && !cut(m[|m| - 1])
    ensures TrimRight(m + b, cut) == m + TrimRight(b, cut)
  {
    if b == "" {
      assert m + b == m;
    } else {
      assert (m + b)[..|m + b| - 1] == m + b[..|b| - 1];
      if cut(b[|b| - 1]) {
        TrimRightAppend(m, b[..|b| - 1], cut);
      }
    }
  }

  predicate HasSuffix(s: string, suffix: string) {
    |suffix| <= |s| && s[|s| - |suffix|..] == suffix
  }

  /** Number of leading characters that are not separators. */
  function WordLength(s: string, sep: char -> bool): (n: nat)
    ensures n <= |s| && (n < |s| ==> sep(s[n]))
  {
    if s == "" || sep(s[0]) then 0 else 1 + WordLength(s[1..], sep)
  }

  lemma {:induction false} WordLengthIs(s: string, n: nat, sep: char -> bool)
    requires n <= |s| && (forall i :: 0 <= i < n ==> !sep(s[i])) && (n < |s| ==> sep(s[n]))
    ensures WordLength(s, sep) == n
  {
    if n > 0 {
      WordLengthIs(s[1..], n - 1, sep);
    }
  }

  /** The maximal separator-free pieces of s, in order. */
  function FieldsFunc(s: string, sep: char -> bool): seq<string>
    decreases |s|
  {
    if s == "" then []
    else if sep(s[0]) then FieldsFunc(s[1..], sep)
    else
      var n := WordLength(s, sep);
      [s[..n]] + FieldsFunc(s[n..], sep)
  }

  lemma {:induction false} FieldsFuncChars(s: string, sep: char -> bool, f: string, c: char)
    requires f in FieldsFunc(s, sep) && c in f
    ensures c in s && !sep(c)
    decreases |s|
  {
    if sep(s[0]) {
      FieldsFuncChars(s[1..], sep, f, c);
    } else {
      var n := WordLength(s, sep);
      if f == s[..n] {
        WordLengthChars(s, sep, c);
      } else {
        FieldsFuncChars(s[n..], sep, f, c);
      }
    }
  }

  lemma {:induction false} WordLengthChars(s: string, sep: char -> bool, c: char)
    requires c in s[..WordLength(s, sep)]
    ensures !sep(c)
  {
    if c != s[0] {
      assert s[..WordLength(s, sep)] == [s[0]] + s[1..][..WordLength(s[1..], sep)];
      WordLengthChars(s[1..], sep, c);
    }
  }

  function Fields(s: string): seq<string> {
    FieldsFunc(s, IsSpace)
  }

  /** Does sub occur in s at index i? */
  predicate OccursAt(s: string, sub: string, i: int) {
    0 <= i && i + |sub| <= |s| && s[i..i + |sub|] == sub
  }

  /** First index at or after `from` where sub occurs in s. */
  function IndexFrom(s: string, sub: string, from: nat): (r: Option<nat>)
    requires from <= |s|
    ensures r.Some? ==> from <= r.value && r.value + |sub| <= |s|
    decreases |s| - from
  {
    if OccursAt(s, sub, from) then Some(from)
    else if from == |s| then None
    else IndexFrom(s, sub, from + 1)
  }

  function Index(s: string, sub: string): (r: Option<nat>)
    ensures r.Some? ==> r.value + |sub| <= |s|
  {
    IndexFrom(s, sub, 0)
  }

  lemma {:induction false} IndexFromFirst(s: string, sub: string, from: nat)
    requires from <= |s|
    ensures var r := IndexFrom(s, sub, from);
            && (r.Some? ==> OccursAt(s, sub, r.value))
            && forall i :: from <= i && (r.Some? ==> i < r.value) ==> !OccursAt(s, sub, i)
    decreases |s| - from
  {
    if !OccursAt(s, sub, from) && from < |s| {
      IndexFromFirst(s, sub, from + 1);
    }
  }

  /** Index finds the first occurrence, and None means there is none. */
  lemma IndexFirst(s: string, sub: string)
    ensures var r := Index(s, sub);
            && (r.Some? ==> OccursAt(s, sub, r.value))
            && forall i :: 0 <= i && (r.Some? ==> i < r.value) ==> !OccursAt(s, sub, i)
  {
    IndexFromFirst(s, sub, 0);
  }

  predicate Contains(s: string, sub: string) {
    Index(s, sub).Some?
  }

  /** Last index below `below` where sub occurs in s. */
  function LastIndexBelow(s: string, sub: string, below: nat): (r: Option<nat>)
    ensures r.Some? ==> r.value < below && r.value + |sub| <= |s|
  {
    if below == 0 then None
    else if OccursAt(s, sub, below - 1) then Some(below - 1)
    else LastIndexBelow(s, sub, below - 1)
  }

  function LastIndex(s: string, sub: string): (r: Option<nat>)
    ensures r.Some? ==> r.value + |sub| <= |s|
  {
    LastIndexBelow(s, sub, |s| + 1)
  }

  lemma {:induction false} LastIndexBelowLast(s: string, sub: string, below: nat)
    ensures var r := LastIndexBelow(s, sub, below);
            && (r.Some? ==> OccursAt(s, sub, r.value))
            && forall i :: 0 <= i < below && (r.Some? ==> r.value < i) ==> !OccursAt(s, sub, i)
  {
    if below > 0 && !OccursAt(s, sub, below - 1) {
      LastIndexBelowLast(s, sub, below - 1);
    }
  }

  /** LastIndex finds the last occurrence, and None means there is none. */
  lemma LastIndexLast(s: string, sub: string)
    ensures var r := LastIndex(s, sub);
            && (r.Some? ==> OccursAt(s, sub, r.value))
            && forall i :: 0 <= i && (r.Some? ==> r.value < i) ==> !OccursAt(s, sub, i)
  {
    LastIndexBelowLast(s, sub, |s| + 1);
  }

  function Join(parts: seq<string>, sep: string): string {
    if |parts| == 0 then ""
    else if |parts| == 1 then parts[0]
    else parts[0] + sep + Join(parts[1..], sep)
  }

  /** Go's byte-wise string order. */
  predicate Less(a: string, b: string) {
    b != "" && (a == "" || a[0] < b[0] || (a[0] == b[0] && Less(a[1..], b[1..])))
  }

  /** a and b agree up to i; there a ends, or has the smaller character. */
  predicate LessAt(a: string, b: string, i: nat) {
    i <= |a| && i < |b| && a[..i] == b[..i] && (i == |a| || a[i] < b[i])
  }

  lemma {:induction false} LessIff(a: string, b: string)
    ensures Less(a, b) <==> exists i: nat :: LessAt(a, b, i)
  {
    if b == "" {
    } else if a == "" || a[0] < b[0] {
      assert LessAt(a, b, 0);
    } else if a[0] == b[0] {
      LessIff(a[1..], b[1..]);
      if Less(a, b) {
        var i: nat :| LessAt(a[1..], b[1..], i);
        assert a[..i + 1] == [a[0]] + a[1..][..i] == b[..i + 1];
        assert LessAt(a, b, i + 1);
      }
      if i: nat :| LessAt(a, b, i) {
        assert i > 0;
        assert a[1..][..i - 1] == a[..i][1..] == b[..i][1..] == b[1..][..i - 1];
        assert LessAt(a[1..], b[1..], i - 1);
      }
    } else {
      forall i: nat ensures !LessAt(a, b, i) {
        if 0 < i <= |a| && i < |b| {
          assert a[..i][0] == a[0] && b[..i][0] == b[0];
        }
      }
    }
  }

  lemma {:induction false} LessTotal(a: string, b: string)
    ensures Less(a, b) || Less(b, a) || a == b
    ensures !(Less(a, b) && Less(b, a)) && !Less(a, a)
  {
    if a != "" && b != "" {
      LessTotal(a[1..], b[1..]);
      if a[0] == b[0] && a[1..] == b[1..] {
        assert a == [a[0]] + a[1..] && b == [b[0]] + b[1..];
      }
    }
    if a != "" {
      LessTotal(a[1..], a[1..]);
    }
  }

  lemma {:induction false} LessTransitive(a: string, b: string, c: string)
    requires Less(a, b) && Less(b, c)
    ensures Less(a, c)
  {
    if a != "" && a[0] == b[0] && b[0] == c[0] {
      LessTransitive(a[1..], b[1..], c[1..]);
    }
  }

  predicate Sorted(xs: seq<string>) {
    forall i, j :: 0 <= i < j < |xs| ==> Less(xs[i], xs[j])
  }

  function Insert(x: string, xs: seq<string>): seq<string> {
    if xs == [] || Less(x, xs[0]) then [x] + xs else [xs[0]] + Insert(x, xs[1..])
  }

  /** `sort.Strings`. */
  function SortStrings(xs: seq<string>): seq<string> {
    if xs == [] then [] else Insert(xs[0], SortStrings(xs[1..]))
  }

  /** The elements of a sequence. */
  ghost function Elements<T>(xs: seq<T>): set<T> {
    set x | x in xs
  }

  lemma ElementsSnoc<T>(xs: seq<T>, x: T)
    ensures Elements(xs + [x]) == Elements(xs) + {x} && (x in xs <==> x in Elements(xs))
    ensures x in xs ==> Elements(xs + [x]) == Elements(xs)
  {
    assert forall y :: y in xs + [x] <==> y in xs || y == x;
  }

  lemma ElementsCons<T>(x: T, xs: seq<T>)
    ensures Elements([x] + xs) == {x} + Elements(xs)
  {
    assert forall y :: y in [x] + xs <==> y == x || y in xs;
  }

  lemma {:induction false} InsertSorted(x: string, xs: seq<string>)
    requires Sorted(xs) && x !in xs
    ensures Sorted(Insert(x, xs)) && Elements(Insert(x, xs)) == {x} + Elements(xs)
  {
    if xs == [] {
    } else {
      LessTotal(x, xs[0]);
      var r := Insert(x, xs);
      if Less(x, xs[0]) {
        ElementsCons(x, xs);
        forall j | 0 <= j < |xs| ensures Less(x, xs[j]) {
          if j > 0 { LessTransitive(x, xs[0], xs[j]); }
        }
      } else {
        var t := Insert(x, xs[1..]);
        InsertSorted(x, xs[1..]);
        assert xs == [xs[0]] + xs[1..];
        ElementsCons(xs[0], xs[1..]);
        ElementsCons(xs[0], t);
        forall j | 0 <= j < |t| ensures Less(xs[0], t[j]) {
          assert t[j] in Elements(t);
        }
      }
    }
  }

  /** Sorting a sequence without repetitions orders it strictly and keeps its elements. */
  lemma {:induction false} SortStringsSorts(xs: seq<string>)
    requires Distinct(xs)
    ensures Sorted(SortStrings(xs)) && Elements(SortStrings(xs)) == Elements(xs)
  {
    if xs != [] {
      SortStringsSorts(xs[1..]);
      assert xs == [xs[0]] + xs[1..];
      ElementsCons(xs[0], xs[1..]);
      assert xs[0] !in Elements(xs[1..]);
      InsertSorted(xs[0], SortStrings(xs[1..]));
    }
  }

  predicate Distinct<T(==)>(xs: seq<T>) {
    forall i, j :: 0 <= i < j < |xs| ==> xs[i] != xs[j]
  }

  /** Order-preserving removal of repetitions: first occurrences survive. */
  function Dedupe<T(==)>(xs: seq<T>): seq<T> {
    if xs == [] then []
    else
      var init, x := xs[..|xs| - 1], xs[|xs| - 1];
      if x in init then Dedupe(init) else Dedupe(init) + [x]
  }

  lemma DedupeSnoc<T>(xs: seq<T>, x: T)
    ensures Dedupe(xs + [x]) == if x in xs then Dedupe(xs) else Dedupe(xs) + [x]
  {
    assert (xs + [x])[..|xs|] == xs;
  }

  lemma {:induction false} DedupeFacts<T>(xs: seq<T>)
    ensures Distinct(Dedupe(xs)) && Elements(Dedupe(xs)) == Elements(xs) && |Dedupe(xs)| <= |xs|
  {
    if xs != [] {
      var init, x := xs[..|xs| - 1], xs[|xs| - 1];
      DedupeFacts(init);
      assert xs == init + [x];
      assert Elements(xs) == Elements(init) + {x};
      assert forall y :: y in Dedupe(init) <==> y in Elements(Dedupe(init));
      assert Elements(Dedupe(init) + [x]) == Elements(Dedupe(init)) + {x};
    }
  }

  /** A strictly sorted sequence is determined by its elements. */
  lemma {:induction false} SortedUnique(xs: seq<string>, ys: seq<string>)
    requires Sorted(xs) && Sorted(ys) && Elements(xs) == Elements(ys)
    ensures xs == ys
  {
    assert forall y :: y in xs <==> y in Elements(xs);
    assert forall y :: y in ys <==> y in Elements(ys);
    ghost var first := if ys == [] then "" else ys[0];
    assert first in xs <==> first in ys;
    if xs != [] {
      assert xs[0] in ys;
      assert ys[0] in xs;
      LessTotal(xs[0], ys[0]);
      assert xs == [xs[0]] + xs[1..] && ys == [ys[0]] + ys[1..];
      assert xs[0] == ys[0] by {
        var i :| 0 <= i < |ys| && ys[i] == xs[0];
        var j :| 0 <= j < |xs| && xs[j] == ys[0];
      }
      forall y | y in xs[1..] + ys[1..] ensures y != xs[0] {
        LessTotal(y, y);
      }
      forall y ensures y in xs[1..] <==> y in ys[1..] {
        LessTotal(y, y);
        assert xs[0] !in xs[1..] && xs[0] !in ys[1..];
        assert y in xs <==> y == xs[0] || y in xs[1..];
        assert y in ys <==> y == xs[0] || y in ys[1..];
      }
      SortedUnique(xs[1..], ys[1..]);
    }
  }
}
