/** memory/similarity.go: bag-of-content-words Jaccard similarity, shared by the extractor, the verifier and the
    store. Ratios are exact reals. */
module Similarity {
  import opened Text

  predicate IsStopword(w: string) {
    || w in {"a", "an", "and", "are", "as", "at", "be", "by", "for", "from", "has", "in", "is", "it"}
    || w in {"of", "on", "or", "that", "the", "to", "was", "were", "will", "with"}
  }

  predicate IsPunctuation(c: char) {
    c in ".,;:!?\"'()[]{}"
  }

  function Bare(field: string): string {
    Trim(field, IsPunctuation)
  }

  predicate IsContentWord(w: string) {
    w != "" && !IsStopword(w)
  }

  /** The lower-cased, stopword-free, punctuation-stripped tokens of a statement. */
  function ContentWords(s: string): set<string> {
    set f | f in Fields(ToLower(s)) && IsContentWord(Bare(f)) :: Bare(f)
  }

  method CollectContentWords(s: string) returns (out: set<string>)
    ensures out == ContentWords(s)
  {
    var fields := Fields(ToLower(s));
    out := {};
    for i := 0 to |fields|
      invariant out == set f | f in fields[..i] && IsContentWord(Bare(f)) :: Bare(f)
    {
      assert fields[..i + 1] == fields[..i] + [fields[i]];
      var f := Bare(fields[i]);
      if f == "" {
        continue;
      }
      if IsStopword(f) {
        continue;
      }
      out := out + {f};
    }
    assert fields[..|fields|] == fields;
  }

  /** Jaccard similarity of two word sets; 0 when either is empty. */
  function Jaccard(a: set<string>, b: set<string>): real {
    if a == {} || b == {} then 0.0 else |a * b| as real / |a + b| as real
  }

  function StatementSimilarity(a: string, b: string): real {
    Jaccard(ContentWords(a), ContentWords(b))
  }

  /** The denominator, counted without building the union. */
  lemma UnionCount(a: set<string>, b: set<string>)
    ensures |a| + |b| - |a * b| == |a + b|
  {
    assert a + b == a + (b - a) && b == a * b + (b - a);
    assert |a * b + (b - a)| == |a * b| + |b - a|;
  }

  method ComputeSimilarity(a: string, b: string) returns (r: real)
    ensures r == StatementSimilarity(a, b)
  {
    hide ContentWords;
    var at := CollectContentWords(a);
    var bt := CollectContentWords(b);
    if |at| == 0 || |bt| == 0 {
      return 0.0;
    }
    var inter := CountShared(at, bt);
    var union := |at| + |bt| - inter;
    UnionCount(at, bt);
    if union == 0 {
      return 0.0;
    }
    return inter as real / union as real;
  }

  /** How many words of a are also in b. */
  method CountShared(a: set<string>, b: set<string>) returns (n: nat)
    ensures n == |a * b|
  {
    n := 0;
    var rest := a;
    while rest != {}
      invariant rest <= a && n + |rest * b| == |a * b|
      decreases rest
    {
      var w :| w in rest;
      if w in b {
        assert rest * b == (rest - {w}) * b + {w};
        n := n + 1;
      } else {
        assert rest * b == (rest - {w}) * b;
      }
      rest := rest - {w};
    }
    assert rest * b == {};
  }

  /** The share of a's content words that b has too; 0 when a has none. */
  function ContentOverlap(a: string, b: string): real {
    var at := ContentWords(a);
    if at == {} then 0.0 else |at * ContentWords(b)| as real / |at| as real
  }

  method ComputeOverlap(a: string, b: string) returns (r: real)
    ensures r == ContentOverlap(a, b)
  {
    var at := CollectContentWords(a);
    if |at| == 0 {
      return 0.0;
    }
    var bt := CollectContentWords(b);
    var found := CountShared(at, bt);
    return found as real / |at| as real;
  }

  /** The overlap of a with b, counted: at least t of a's content words are b's too. */
  lemma OverlapAtLeast(a: string, b: string, t: real)
    requires t > 0.0
    ensures ContentOverlap(a, b) >= t <==>
            var at := ContentWords(a); at != {} && |at * ContentWords(b)| as real >= t * |at| as real
  {
    hide ContentWords;
    var at := ContentWords(a);
    if at != {} {
      RatioAtLeast(|at * ContentWords(b)| as real, |at| as real, t);
    }
  }

  // ---- Jaccard distance is a metric ----

  function Distance(a: set<string>, b: set<string>): real {
    1.0 - Jaccard(a, b)
  }

  /** Elements of exactly one of the two sets. */
  function Differing(a: set<string>, b: set<string>): set<string> {
    (a - b) + (b - a)
  }

  lemma UnionSplits(a: set<string>, b: set<string>)
    ensures |a + b| == |Differing(a, b)| + |a * b|
  {
    assert a + b == Differing(a, b) + a * b;
  }

  lemma DistanceAsRatio(a: set<string>, b: set<string>)
    requires a != {} && b != {}
    ensures |a + b| > 0 && Distance(a, b) == |Differing(a, b)| as real / |a + b| as real
  {
    UnionSplits(a, b);
    assert a + b != {};
    OneMinus(|a * b| as real, |Differing(a, b)| as real, |a + b| as real);
  }

  lemma OneMinus(i: real, d: real, u: real)
    requires u > 0.0 && i + d == u
    ensures 1.0 - i / u == d / u
  {
    AddFractions(i, d, u);
    assert u / u == 1.0;
  }

  lemma AddFractions(x: real, y: real, w: real)
    requires w > 0.0
    ensures x / w + y / w == (x + y) / w
  {
    var p, q := x / w, y / w;
    assert (p + q) * w == x + y;
  }

  lemma JaccardSymmetric(a: set<string>, b: set<string>)
    ensures Jaccard(a, b) == Jaccard(b, a)
  {
    assert a * b == b * a && a + b == b + a;
  }

  /** Similarity lies in [0, 1], and 1 means the same content words. */
  lemma JaccardRange(a: set<string>, b: set<string>)
    ensures 0.0 <= Jaccard(a, b) <= 1.0
    ensures a != {} ==> (Jaccard(a, b) == 1.0 <==> a == b)
  {
    if a != {} && b != {} {
      var d := |Differing(a, b)|;
      DistanceAsRatio(a, b);
      UnionSplits(a, b);
      ProperFraction(d as real, |a + b| as real);
      assert d == 0 <==> Differing(a, b) == {};
      assert Differing(a, b) == {} <==> a - b == {} && b - a == {};
    }
  }

  lemma ProperFraction(d: real, u: real)
    requires 0.0 <= d <= u && u > 0.0
    ensures 0.0 <= d / u <= 1.0 && (d / u == 0.0 <==> d == 0.0)
  {
    CrossDivide(d, u, 1.0, 1.0);
    CrossDivide(0.0, 1.0, d, u);
    assert (d / u) * u == d;
  }

  lemma SubsetCardinality(a: set<string>, b: set<string>)
    requires a <= b
    ensures |a| <= |b|
  {
    assert b == a + (b - a);
  }

  /** Where a and c differ, one of them differs from b; and words only b has count twice. */
  lemma DifferingChains(a: set<string>, b: set<string>, c: set<string>)
    ensures |Differing(a, b)| + |Differing(b, c)| >= |Differing(a, c)| + 2 * |b - (a + c)|
  {
    var x, y, n := Differing(a, b), Differing(b, c), b - (a + c);
    assert |x| + |y| == |x + y| + |x * y|;
    SubsetCardinality(n, x * y);
    SubsetCardinality(Differing(a, c) + n, x + y);
    assert Differing(a, c) !! n;
  }

  lemma UnionBound(a: set<string>, b: set<string>, c: set<string>)
    ensures |a + b| <= |a + c| + |b - (a + c)|
  {
    SubsetCardinality(a + b, (a + c) + (b - (a + c)));
  }

  /** x/p + y/q >= s/u, from the counting facts above. */
  lemma RatiosChain(x: real, y: real, p: real, q: real, s: real, u: real, n: real)
    requires x >= 0.0 && y >= 0.0 && n >= 0.0 && p > 0.0 && q > 0.0 && u > 0.0
    requires p <= u + n && q <= u + n && 0.0 <= s <= u && x + y >= s + 2.0 * n
    ensures s / u <= x / p + y / q
  {
    var w := u + n;
    DivideByMore(x, p, w);
    DivideByMore(y, q, w);
    AddFractions(x, y, w);
    assert s / u <= (s + 2.0 * n) / w by {
      CrossTerms(s, u, n);
      CrossDivide(s, u, s + 2.0 * n, w);
    }
    DivideMore(s + 2.0 * n, x + y, w);
  }

  lemma CrossTerms(s: real, u: real, n: real)
    requires 0.0 <= s <= u && n >= 0.0
    ensures s * (u + n) <= (s + 2.0 * n) * u
  {
    assert s * n <= u * n;
    assert (s + 2.0 * n) * u == s * u + 2.0 * (u * n);
    assert s * (u + n) == s * u + s * n;
  }

  lemma DivideByMore(x: real, p: real, w: real)
    requires x >= 0.0 && 0.0 < p <= w
    ensures x / w <= x / p
  {
    assert x * p <= x * w;
    CrossDivide(x, w, x, p);
  }

  lemma DivideMore(x: real, y: real, w: real)
    requires x <= y && w > 0.0
    ensures x / w <= y / w
  {
  }

  lemma CrossDivide(a: real, b: real, c: real, d: real)
    requires b > 0.0 && d > 0.0 && a * d <= c * b
    ensures a / b <= c / d
  {
    var l, r := a / b, c / d;
    assert l * b == a && r * d == c;
    assert (l - r) * (b * d) == a * d - c * b;
    assert (l - r) * (b * d) <= 0.0 && b * d > 0.0;
  }

  lemma RatioAtLeast(x: real, y: real, t: real)
    requires y > 0.0
    ensures x / y >= t <==> x >= t * y
  {
    var q := x / y;
    assert q * y == x;
    if q >= t {
      NotNegative(q - t, y);
    } else {
      NotNegative(t - q, y);
    }
  }

  lemma NotNegative(a: real, y: real)
    requires y > 0.0 && a >= 0.0
    ensures a * y >= 0.0 && (a > 0.0 ==> a * y > 0.0)
  {
  }

  /** Similarity, counted: at least t of all content words are shared. */
  lemma JaccardAtLeast(a: set<string>, b: set<string>, t: real)
    requires t > 0.0
    ensures Jaccard(a, b) >= t <==> a != {} && b != {} && |a * b| as real >= t * |a + b| as real
  {
    if a != {} && b != {} {
      assert a + b != {};
      RatioAtLeast(|a * b| as real, |a + b| as real, t);
    }
  }

  /** Jaccard distance obeys the triangle inequality. */
  lemma TriangleInequality(a: set<string>, b: set<string>, c: set<string>)
    requires a != {} && b != {} && c != {}
    ensures Distance(a, c) <= Distance(a, b) + Distance(b, c)
  {
    DistanceAsRatio(a, b);
    DistanceAsRatio(b, c);
    DistanceAsRatio(a, c);
    DifferingChains(a, b, c);
    UnionBound(a, b, c);
    UnionBound(c, b, a);
    assert c + a == a + c && c + b == b + c;
    UnionSplits(a, c);
    RatiosChain(|Differing(a, b)| as real, |Differing(b, c)| as real, |a + b| as real, |b + c| as real,
                |Differing(a, c)| as real, |a + c| as real, |b - (a + c)| as real);
  }

  /** Two word sets that are each 0.85 similar to a third are at least 0.7 similar to each other. */
  lemma CloseToCommon(x: set<string>, y: set<string>, z: set<string>)
    requires Jaccard(z, x) >= 0.85 && Jaccard(z, y) >= 0.85
    ensures Jaccard(x, y) >= 0.7
  {
    JaccardSymmetric(z, x);
    TriangleInequality(x, z, y);
  }
}
