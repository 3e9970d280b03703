/** extract.go: folding the two extraction passes into one candidate list. */
module Merging {
  import opened Text
  import opened Records
  import opened Similarity

  datatype Pass = Broad | Detail | Merged

  datatype Candidate = Candidate(
    kind: Kind,
    topicRaw: string,
    topic: string,
    statement: string,
    attributes: map<string, string>,
    subjects: seq<string>,
    taskStatus: TaskStatus,
    confidence: real,
    quote: string,
    pass: Pass,
    chunkIndex: nat,
    validFrom: int)

  predicate On(c: Candidate, kind: Kind, topic: string) {
    c.kind == kind && c.topic == topic
  }

  predicate SimilarStatement(a: string, b: string) {
    EqualFold(a, b) || StatementSimilarity(a, b) >= 0.85
  }

  /** c says what the earlier candidate o already said on the same key. */
  predicate Repeats(o: Candidate, c: Candidate) {
    On(o, c.kind, c.topic) && SimilarStatement(o.statement, c.statement)
  }

  function Max(a: real, b: real): real {
    if b > a then b else a
  }

  /** What a kept candidate becomes when a repetition of it is dropped: the higher confidence, and every attribute
      it lacked. */
  function Absorb(o: Candidate, c: Candidate): Candidate {
    o.(confidence := Max(o.confidence, c.confidence), attributes := c.attributes + o.attributes)
  }

  /** What a merged candidate becomes when a detail candidate on its key is grafted onto it. */
  function Graft(t: Candidate, d: Candidate): Candidate {
    t.(attributes := d.attributes + t.attributes,
       confidence := Max(t.confidence, d.confidence),
       quote := if |d.quote| > |t.quote| then d.quote else t.quote,
       pass := Merged)
  }

  function FirstRepeated(out: seq<Candidate>, c: Candidate): (i: nat)
    ensures i <= |out| && (i < |out| ==> Repeats(out[i], c))
  {
    if out == [] || Repeats(out[0], c) then 0 else 1 + FirstRepeated(out[1..], c)
  }

  function FirstOn(out: seq<Candidate>, d: Candidate): (i: nat)
    ensures i <= |out| && (i < |out| ==> On(out[i], d.kind, d.topic))
  {
    if out == [] || On(out[0], d.kind, d.topic) then 0 else 1 + FirstOn(out[1..], d)
  }

  function DedupeStep(out: seq<Candidate>, c: Candidate): seq<Candidate> {
    var i := FirstRepeated(out, c);
    if i < |out| then out[i := Absorb(out[i], c)] else out + [c]
  }

  function DedupeAll(cs: seq<Candidate>): seq<Candidate> {
    if cs == [] then [] else DedupeStep(DedupeAll(cs[..|cs| - 1]), cs[|cs| - 1])
  }

  function GraftStep(merged: seq<Candidate>, d: Candidate): seq<Candidate> {
    var i := FirstOn(merged, d);
    if i < |merged| then merged[i := Graft(merged[i], d)] else merged + [d]
  }

  function GraftAll(merged: seq<Candidate>, ds: seq<Candidate>): seq<Candidate> {
    if ds == [] then merged else GraftStep(GraftAll(merged, ds[..|ds| - 1]), ds[|ds| - 1])
  }

  // ---- the sort at the end of Merge ----

  /** Position of the kind's name in alphabetical order. */
  function KindRank(k: Kind): nat {
    match k
    case Decision => 0
    case Event => 1
    case Fact => 2
    case Instruction => 3
    case Task => 4
  }

  predicate Before(a: Candidate, b: Candidate) {
    KindRank(a.kind) < KindRank(b.kind) || (a.kind == b.kind && Less(a.topic, b.topic))
  }

  function InsertStable(x: Candidate, cs: seq<Candidate>): seq<Candidate> {
    if cs == [] || !Before(cs[0], x) then [x] + cs else [cs[0]] + InsertStable(x, cs[1..])
  }

  /** `sort.SliceStable` by kind, then topic. */
  function SortStable(cs: seq<Candidate>): seq<Candidate> {
    if cs == [] then [] else InsertStable(cs[0], SortStable(cs[1..]))
  }

  function Merge(broad: seq<Candidate>, detail: seq<Candidate>): seq<Candidate> {
    SortStable(GraftAll(DedupeAll(broad), DedupeAll(detail)))
  }

  // ---- the loops ----

  /** Copies the entries of `from` that `into` has no key for. */
  method FillMissing(into: map<string, string>, from: map<string, string>) returns (r: map<string, string>)
    ensures r == from + into
  {
    r := into;
    var rest := from.Keys;
    while rest != {}
      invariant rest <= from.Keys
      invariant r == (map k | k in from && k !in rest :: from[k]) + into
      decreases rest
    {
      var k :| k in rest;
      if k !in r {
        r := r[k := from[k]];
      }
      rest := rest - {k};
    }
    assert (map k | k in from && k !in rest :: from[k]) == from;
  }

  method FindRepeated(out: seq<Candidate>, c: Candidate) returns (i: nat)
    ensures i == FirstRepeated(out, c)
  {
    hide Repeats;
    i := 0;
    while i < |out| && !Repeats(out[i], c)
      invariant i <= |out|
      invariant FirstRepeated(out, c) == i + FirstRepeated(out[i..], c)
    {
      i := i + 1;
    }
  }

  method Dedupe(cs: seq<Candidate>) returns (out: seq<Candidate>)
    ensures out == DedupeAll(cs)
  {
    hide FirstRepeated, Repeats;
    out := [];
    for n := 0 to |cs|
      invariant out == DedupeAll(cs[..n])
    {
      var c := cs[n];
      assert cs[..n + 1][..n] == cs[..n];
      var i := FindRepeated(out, c);
      if i < |out| {
        var confidence := out[i].confidence;
        if c.confidence > confidence {
          confidence := c.confidence;
        }
        var attributes := FillMissing(out[i].attributes, c.attributes);
        out := out[i := out[i].(confidence := confidence, attributes := attributes)];
      } else {
        out := out + [c];
      }
    }
    assert cs[..|cs|] == cs;
  }

  method FindOn(merged: seq<Candidate>, d: Candidate) returns (i: nat)
    ensures i == FirstOn(merged, d)
  {
    hide On;
    i := 0;
    while i < |merged| && !On(merged[i], d.kind, d.topic)
      invariant i <= |merged|
      invariant FirstOn(merged, d) == i + FirstOn(merged[i..], d)
    {
      i := i + 1;
    }
  }

  method MergePasses(broad: seq<Candidate>, detail: seq<Candidate>) returns (merged: seq<Candidate>)
    ensures merged == Merge(broad, detail)
  {
    hide DedupeAll, FirstOn, SortStable, On;
    var base := Dedupe(broad);
    var ds := Dedupe(detail);
    merged := base;
    for n := 0 to |ds|
      invariant merged == GraftAll(base, ds[..n])
    {
      var d := ds[n];
      assert ds[..n + 1][..n] == ds[..n];
      var i := FindOn(merged, d);
      if i == |merged| {
        merged := merged + [d];
        continue;
      }
      var target := merged[i];
      var attributes := FillMissing(target.attributes, d.attributes);
      target := target.(attributes := attributes);
      if d.confidence > target.confidence {
        target := target.(confidence := d.confidence);
      }
      if |d.quote| > |target.quote| {
        target := target.(quote := d.quote);
      }
      merged := merged[i := target.(pass := Merged)];
    }
    assert ds[..|ds|] == ds;
    merged := SortStable(merged);
  }

  // ---- what merging conserves ----

  /** Some candidate is on the key. */
  ghost predicate HasKey(cs: seq<Candidate>, kind: Kind, topic: string) {
    exists c :: c in cs && On(c, kind, topic)
  }

  /** Some candidate on the key carries attribute a. */
  ghost predicate HasAttribute(cs: seq<Candidate>, kind: Kind, topic: string, a: string) {
    exists c :: c in cs && On(c, kind, topic) && a in c.attributes
  }

  /** Some candidate on the key carries attribute a with value v. */
  ghost predicate HasValue(cs: seq<Candidate>, kind: Kind, topic: string, a: string, v: string) {
    exists c :: c in cs && On(c, kind, topic) && a in c.attributes && c.attributes[a] == v
  }

  /** m is an upper bound of the confidences on the key. */
  ghost predicate Bounded(cs: seq<Candidate>, kind: Kind, topic: string, m: real) {
    forall c :: c in cs && On(c, kind, topic) ==> c.confidence <= m
  }

  /** What `from` knows, `to` knows too: the same keys, attributes per key and confidence bounds; and `to` has no
      attribute value `from` did not have. */
  ghost predicate Conserves(from: seq<Candidate>, to: seq<Candidate>) {
    && (forall k, t :: HasKey(to, k, t) <==> HasKey(from, k, t))
    && (forall k, t, a :: HasAttribute(to, k, t, a) <==> HasAttribute(from, k, t, a))
    && (forall k, t, a, v :: HasValue(to, k, t, a, v) ==> HasValue(from, k, t, a, v))
    && (forall k, t, m :: Bounded(to, k, t, m) <==> Bounded(from, k, t, m))
  }

  /** o, having taken in c, is r: what dedupe and the grafting loop have in common. */
  ghost predicate TakesIn(o: Candidate, c: Candidate, r: Candidate) {
    && On(o, c.kind, c.topic) && On(r, c.kind, c.topic)
    && r.attributes == c.attributes + o.attributes
    && r.confidence == Max(o.confidence, c.confidence)
  }

  lemma TakingInConserves(out: seq<Candidate>, i: nat, c: Candidate, r: Candidate)
    requires i < |out| && TakesIn(out[i], c, r)
    ensures Conserves(out + [c], out[i := r])
  {
    var from, to := out + [c], out[i := r];
    assert from[i] == out[i] && from[|out|] == c && to[i] == r;
    forall x | x in to ensures x == r || x in from {
    }
    forall x | x in from ensures x == out[i] || x == c || x in to {
      if x != c {
        var j :| 0 <= j < |out| && out[j] == x;
        if j != i { assert to[j] == x; }
      }
    }
    assert r in to && out[i] in from && c in from;
  }

  lemma ConservesTransitive(a: seq<Candidate>, b: seq<Candidate>, c: seq<Candidate>)
    requires Conserves(a, b) && Conserves(b, c)
    ensures Conserves(a, c)
  {
  }

  /** Only membership matters. */
  lemma ConservesSame(a: seq<Candidate>, b: seq<Candidate>)
    requires forall c :: c in a <==> c in b
    ensures Conserves(a, b)
  {
  }

  lemma ConservesAppend(a: seq<Candidate>, b: seq<Candidate>, x: seq<Candidate>)
    requires Conserves(a, b)
    ensures Conserves(a + x, b + x)
  {
    var from, to := a + x, b + x;
    forall k, t ensures HasKey(from, k, t) <==> HasKey(a, k, t) || HasKey(x, k, t) {}
    forall k, t ensures HasKey(to, k, t) <==> HasKey(b, k, t) || HasKey(x, k, t) {}
    forall k, t, n ensures HasAttribute(from, k, t, n) <==> HasAttribute(a, k, t, n) || HasAttribute(x, k, t, n) {}
    forall k, t, n ensures HasAttribute(to, k, t, n) <==> HasAttribute(b, k, t, n) || HasAttribute(x, k, t, n) {}
    forall k, t, n, v ensures HasValue(from, k, t, n, v) <==> HasValue(a, k, t, n, v) || HasValue(x, k, t, n, v) {}
    forall k, t, n, v ensures HasValue(to, k, t, n, v) <==> HasValue(b, k, t, n, v) || HasValue(x, k, t, n, v) {}
    forall k, t, m ensures Bounded(from, k, t, m) <==> Bounded(a, k, t, m) && Bounded(x, k, t, m) {}
    forall k, t, m ensures Bounded(to, k, t, m) <==> Bounded(b, k, t, m) && Bounded(x, k, t, m) {}
  }

  lemma {:induction false} DedupeConserves(cs: seq<Candidate>)
    ensures Conserves(cs, DedupeAll(cs))
  {
    if cs != [] {
      var init, c := cs[..|cs| - 1], cs[|cs| - 1];
      var out := DedupeAll(init);
      DedupeConserves(init);
      ConservesAppend(init, out, [c]);
      assert cs == init + [c];
      var i := FirstRepeated(out, c);
      if i < |out| {
        TakingInConserves(out, i, c, Absorb(out[i], c));
        ConservesTransitive(cs, out + [c], DedupeAll(cs));
      }
    }
  }

  lemma {:induction false} GraftingConserves(base: seq<Candidate>, ds: seq<Candidate>)
    ensures Conserves(base + ds, GraftAll(base, ds))
  {
    if ds == [] {
      assert base + ds == base;
    } else {
      var init, d := ds[..|ds| - 1], ds[|ds| - 1];
      var out := GraftAll(base, init);
      GraftingConserves(base, init);
      ConservesAppend(base + init, out, [d]);
      assert base + ds == (base + init) + [d];
      var i := FirstOn(out, d);
      if i < |out| {
        TakingInConserves(out, i, d, Graft(out[i], d));
        ConservesTransitive(base + ds, out + [d], GraftAll(base, ds));
      }
    }
  }

  lemma {:induction false} InsertKeeps(x: Candidate, cs: seq<Candidate>)
    ensures multiset(InsertStable(x, cs)) == multiset([x]) + multiset(cs)
  {
    if cs != [] && Before(cs[0], x) {
      InsertKeeps(x, cs[1..]);
      assert cs == [cs[0]] + cs[1..];
    }
  }

  lemma {:induction false} SortKeeps(cs: seq<Candidate>)
    ensures multiset(SortStable(cs)) == multiset(cs)
  {
    if cs != [] {
      SortKeeps(cs[1..]);
      InsertKeeps(cs[0], SortStable(cs[1..]));
      assert cs == [cs[0]] + cs[1..];
    }
  }

  /** Merge loses no key, no attribute of a key and no maximum of confidence, and invents no attribute value. */
  lemma MergeConserves(broad: seq<Candidate>, detail: seq<Candidate>)
    ensures Conserves(broad + detail, Merge(broad, detail))
  {
    var base, ds := DedupeAll(broad), DedupeAll(detail);
    var grafted := GraftAll(base, ds);
    DedupeConserves(broad);
    ConservesAppend(broad, base, detail);
    DedupeConserves(detail);
    ConservesPrepend(detail, ds, base);
    GraftingConserves(base, ds);
    SortKeeps(grafted);
    assert forall c :: c in grafted <==> c in multiset(grafted);
    assert forall c :: c in SortStable(grafted) <==> c in multiset(SortStable(grafted));
    ConservesSame(grafted, SortStable(grafted));
    ConservesTransitive(broad + detail, base + detail, base + ds);
    ConservesTransitive(broad + detail, base + ds, grafted);
    ConservesTransitive(broad + detail, grafted, Merge(broad, detail));
  }

  lemma ConservesPrepend(a: seq<Candidate>, b: seq<Candidate>, x: seq<Candidate>)
    requires Conserves(a, b)
    ensures Conserves(x + a, x + b)
  {
    ConservesAppend(a, b, x);
    ConservesSame(x + a, a + x);
    ConservesSame(b + x, x + b);
    ConservesTransitive(x + a, a + x, b + x);
    ConservesTransitive(x + a, b + x, x + b);
  }

  // ---- how many candidates a key ends up with ----

  function CountOn(cs: seq<Candidate>, kind: Kind, topic: string): nat {
    if cs == [] then 0 else CountOn(cs[..|cs| - 1], kind, topic) + (if On(cs[|cs| - 1], kind, topic) then 1 else 0)
  }

  lemma {:induction false} CountAppend(a: seq<Candidate>, b: seq<Candidate>, kind: Kind, topic: string)
    ensures CountOn(a + b, kind, topic) == CountOn(a, kind, topic) + CountOn(b, kind, topic)
  {
    if b == [] {
      assert a + b == a;
    } else {
      assert (a + b)[..|a + b| - 1] == a + b[..|b| - 1];
      CountAppend(a, b[..|b| - 1], kind, topic);
    }
  }

  lemma {:induction false} CountReplace(cs: seq<Candidate>, i: nat, r: Candidate, kind: Kind, topic: string)
    requires i < |cs| && On(r, cs[i].kind, cs[i].topic)
    ensures CountOn(cs[i := r], kind, topic) == CountOn(cs, kind, topic)
  {
    var n := |cs| - 1;
    if i == n {
      assert cs[i := r][..n] == cs[..n];
    } else {
      assert cs[i := r][..n] == cs[..n][i := r];
      CountReplace(cs[..n], i, r, kind, topic);
    }
  }

  lemma {:induction false} CountPositive(cs: seq<Candidate>, i: nat, kind: Kind, topic: string)
    requires i < |cs| && On(cs[i], kind, topic)
    ensures CountOn(cs, kind, topic) > 0
  {
    if i < |cs| - 1 {
      CountPositive(cs[..|cs| - 1], i, kind, topic);
    }
  }

  lemma {:induction false} CountZero(cs: seq<Candidate>, d: Candidate)
    requires FirstOn(cs, d) == |cs|
    ensures CountOn(cs, d.kind, d.topic) == 0
  {
    if cs != [] {
      CountZero(cs[1..], d);
      assert cs == [cs[0]] + cs[1..];
      CountAppend([cs[0]], cs[1..], d.kind, d.topic);
      assert [cs[0]][..0] == [];
    }
  }

  lemma GraftStepCount(out: seq<Candidate>, d: Candidate, kind: Kind, topic: string)
    ensures CountOn(GraftStep(out, d), kind, topic) ==
              if On(d, kind, topic) && CountOn(out, kind, topic) == 0 then 1 else CountOn(out, kind, topic)
  {
    var i := FirstOn(out, d);
    if i < |out| {
      CountReplace(out, i, Graft(out[i], d), kind, topic);
      if On(d, kind, topic) {
        CountPositive(out, i, kind, topic);
      }
    } else {
      CountZero(out, d);
      CountAppend(out, [d], kind, topic);
      assert [d][..0] == [];
    }
  }

  /** Grafting keeps the number of candidates on a key the broad pass found, and leaves exactly one on a key only the
      detail pass found. */
  lemma {:induction false} GraftCount(base: seq<Candidate>, ds: seq<Candidate>, kind: Kind, topic: string)
    ensures CountOn(GraftAll(base, ds), kind, topic) ==
              if CountOn(base, kind, topic) > 0 then CountOn(base, kind, topic)
              else if HasKey(ds, kind, topic) then 1 else 0
  {
    hide GraftStep, CountOn;
    if ds != [] {
      var init, d := ds[..|ds| - 1], ds[|ds| - 1];
      GraftCount(base, init, kind, topic);
      GraftStepCount(GraftAll(base, init), d, kind, topic);
      assert ds == init + [d];
      assert HasKey(ds, kind, topic) <==> HasKey(init, kind, topic) || On(d, kind, topic);
    }
  }

  lemma {:induction false} CountInsert(x: Candidate, cs: seq<Candidate>, kind: Kind, topic: string)
    ensures CountOn(InsertStable(x, cs), kind, topic) == CountOn([x] + cs, kind, topic)
  {
    if cs != [] && Before(cs[0], x) {
      var rest := InsertStable(x, cs[1..]);
      CountInsert(x, cs[1..], kind, topic);
      CountAppend([cs[0]], rest, kind, topic);
      CountAppend([x], cs[1..], kind, topic);
      CountAppend([x], cs, kind, topic);
      assert cs == [cs[0]] + cs[1..];
      CountAppend([cs[0]], cs[1..], kind, topic);
    }
  }

  lemma {:induction false} CountSort(cs: seq<Candidate>, kind: Kind, topic: string)
    ensures CountOn(SortStable(cs), kind, topic) == CountOn(cs, kind, topic)
  {
    if cs != [] {
      CountSort(cs[1..], kind, topic);
      CountInsert(cs[0], SortStable(cs[1..]), kind, topic);
      CountAppend([cs[0]], SortStable(cs[1..]), kind, topic);
      assert cs == [cs[0]] + cs[1..];
      CountAppend([cs[0]], cs[1..], kind, topic);
    }
  }

  /** A key the broad pass found keeps its deduplicated candidates; a key only the detail pass found gets exactly
      one candidate; no other key appears. */
  lemma MergeCount(broad: seq<Candidate>, detail: seq<Candidate>, kind: Kind, topic: string)
    ensures CountOn(Merge(broad, detail), kind, topic) ==
              if HasKey(broad, kind, topic) then CountOn(DedupeAll(broad), kind, topic)
              else if HasKey(detail, kind, topic) then 1 else 0
    ensures HasKey(broad, kind, topic) ==> CountOn(DedupeAll(broad), kind, topic) > 0
  {
    var base, ds := DedupeAll(broad), DedupeAll(detail);
    DedupeConserves(broad);
    DedupeConserves(detail);
    GraftCount(base, ds, kind, topic);
    CountSort(GraftAll(base, ds), kind, topic);
    CountMeans(base, kind, topic);
  }

  lemma {:induction false} CountMeans(cs: seq<Candidate>, kind: Kind, topic: string)
    ensures CountOn(cs, kind, topic) > 0 <==> HasKey(cs, kind, topic)
  {
    if cs != [] {
      CountMeans(cs[..|cs| - 1], kind, topic);
      assert cs == cs[..|cs| - 1] + [cs[|cs| - 1]];
    }
  }

  // ---- the order of the result ----

  ghost predicate InOrder(cs: seq<Candidate>) {
    forall i, j :: 0 <= i < j < |cs| ==> !Before(cs[j], cs[i])
  }

  lemma BeforeTransitive(a: Candidate, b: Candidate, c: Candidate)
    requires !Before(b, a) && !Before(c, b)
    ensures !Before(c, a)
  {
    LessTotal(a.topic, b.topic);
    LessTotal(b.topic, c.topic);
    LessTotal(a.topic, c.topic);
    if Less(a.topic, b.topic) && Less(b.topic, c.topic) {
      LessTransitive(a.topic, b.topic, c.topic);
    }
  }

  lemma {:induction false} InsertInOrder(x: Candidate, cs: seq<Candidate>)
    requires InOrder(cs)
    ensures InOrder(InsertStable(x, cs))
  {
    if cs == [] {
    } else if !Before(cs[0], x) {
      forall j | 0 <= j < |cs| ensures !Before(cs[j], x) {
        if j > 0 { BeforeTransitive(x, cs[0], cs[j]); }
      }
    } else {
      var t := InsertStable(x, cs[1..]);
      InsertInOrder(x, cs[1..]);
      InsertKeeps(x, cs[1..]);
      LessTotal(cs[0].topic, x.topic);
      forall j | 0 <= j < |t| ensures !Before(t[j], cs[0]) {
        assert t[j] in multiset(t);
        assert t[j] == x || t[j] in cs[1..];
      }
    }
  }

  /** The merged list is ordered by kind, then topic. */
  lemma MergeInOrder(broad: seq<Candidate>, detail: seq<Candidate>)
    ensures InOrder(Merge(broad, detail))
  {
    SortInOrder(GraftAll(DedupeAll(broad), DedupeAll(detail)));
  }

  lemma {:induction false} SortInOrder(cs: seq<Candidate>)
    ensures InOrder(SortStable(cs))
  {
    if cs != [] {
      SortInOrder(cs[1..]);
      InsertInOrder(cs[0], SortStable(cs[1..]));
    }
  }

  // ---- dedupe ----

  ghost predicate NoRepeats(cs: seq<Candidate>) {
    forall i, j :: 0 <= i < j < |cs| ==> !Repeats(cs[i], cs[j])
  }

  lemma {:induction false} FirstRepeatedIsFirst(out: seq<Candidate>, c: Candidate)
    ensures forall i :: 0 <= i < FirstRepeated(out, c) ==> !Repeats(out[i], c)
  {
    hide Repeats;
    if out != [] && !Repeats(out[0], c) {
      FirstRepeatedIsFirst(out[1..], c);
      forall i | 0 <= i < FirstRepeated(out, c) ensures !Repeats(out[i], c) {
        if i > 0 { assert out[i] == out[1..][i - 1]; }
      }
    }
  }

  lemma {:induction false} DedupeHasNoRepeats(cs: seq<Candidate>)
    ensures NoRepeats(DedupeAll(cs))
  {
    hide NoRepeats, DedupeStep;
    if cs == [] {
      NothingRepeats();
    } else {
      DedupeHasNoRepeats(cs[..|cs| - 1]);
      StepAddsNoRepeat(DedupeAll(cs[..|cs| - 1]), cs[|cs| - 1]);
    }
  }

  lemma NothingRepeats()
    ensures NoRepeats([])
  {
  }

  lemma StepAddsNoRepeat(out: seq<Candidate>, c: Candidate)
    requires NoRepeats(out)
    ensures NoRepeats(DedupeStep(out, c))
  {
    hide SimilarStatement, FirstRepeated;
    FirstRepeatedIsFirst(out, c);
    var r := DedupeStep(out, c);
    forall i, j | 0 <= i < j < |r| ensures !Repeats(r[i], r[j]) {
      if j < |out| { assert !Repeats(out[i], out[j]); }
    }
  }

  lemma {:induction false} NoRepeatsIsFixed(cs: seq<Candidate>)
    requires NoRepeats(cs)
    ensures DedupeAll(cs) == cs
  {
    hide Repeats, FirstRepeated;
    if cs != [] {
      var init, c := cs[..|cs| - 1], cs[|cs| - 1];
      NoRepeatsIsFixed(init);
      assert !(FirstRepeated(init, c) < |init|) by {
        if FirstRepeated(init, c) < |init| { assert Repeats(init[FirstRepeated(init, c)], c); }
      }
      assert cs == init + [c];
    }
  }

  /** Deduplicating twice is deduplicating once. */
  lemma DedupeIdempotent(cs: seq<Candidate>)
    ensures DedupeAll(DedupeAll(cs)) == DedupeAll(cs)
  {
    hide DedupeAll, NoRepeats;
    DedupeHasNoRepeats(cs);
    NoRepeatsIsFixed(DedupeAll(cs));
  }

  /** Where candidate i ends up in the deduplicated list. */
  function Survivor(cs: seq<Candidate>, i: nat): nat
    requires i < |cs|
  {
    FirstRepeated(DedupeAll(cs[..i]), cs[i])
  }

  ghost predicate SpeaksFor(s: Candidate, c: Candidate) {
    On(s, c.kind, c.topic) && SimilarStatement(s.statement, c.statement)
  }

  lemma StepKeepsStatements(out: seq<Candidate>, c: Candidate, k: nat)
    requires k < |out|
    ensures k < |DedupeStep(out, c)|
    ensures var r := DedupeStep(out, c)[k];
            r.kind == out[k].kind && r.topic == out[k].topic && r.statement == out[k].statement
  {
  }

  lemma {:induction false} SurvivorSpeaksFor(cs: seq<Candidate>, i: nat)
    requires i < |cs|
    ensures Survivor(cs, i) < |DedupeAll(cs)| && SpeaksFor(DedupeAll(cs)[Survivor(cs, i)], cs[i])
  {
    hide SimilarStatement;
    var n := |cs| - 1;
    var out := DedupeAll(cs[..n]);
    if i < n {
      assert cs[..n][..i] == cs[..i];
      SurvivorSpeaksFor(cs[..n], i);
      StepKeepsStatements(out, cs[n], Survivor(cs, i));
    } else {
      LastSpeaksFor(out, cs[n]);
    }
  }

  lemma LastSpeaksFor(out: seq<Candidate>, c: Candidate)
    ensures var k := FirstRepeated(out, c); k < |DedupeStep(out, c)| && SpeaksFor(DedupeStep(out, c)[k], c)
  {
    assert EqualFold(c.statement, c.statement);
  }

  lemma CloseStatements(a: string, b: string)
    requires SimilarStatement(a, b) && ContentWords(b) != {}
    ensures ContentWords(a) != {} && StatementSimilarity(a, b) >= 0.85
  {
    if EqualFold(a, b) {
      JaccardRange(ContentWords(a), ContentWords(b));
    }
  }

  /** Two candidates folded into one survivor are on one key and at least 0.7 similar: the verifier would reject
      either as a restatement of the other. */
  lemma FoldedTogether(cs: seq<Candidate>, i: nat, j: nat)
    requires i < |cs| && j < |cs| && Survivor(cs, i) == Survivor(cs, j)
    ensures On(cs[i], cs[j].kind, cs[j].topic)
    ensures ContentWords(cs[i].statement) != {} && ContentWords(cs[j].statement) != {} ==>
              StatementSimilarity(cs[i].statement, cs[j].statement) >= 0.7
  {
    SurvivorSpeaksFor(cs, i);
    SurvivorSpeaksFor(cs, j);
    var s := DedupeAll(cs)[Survivor(cs, i)].statement;
    var a, b := cs[i].statement, cs[j].statement;
    if ContentWords(a) != {} && ContentWords(b) != {} {
      CloseStatements(s, a);
      CloseStatements(s, b);
      CloseToCommon(ContentWords(a), ContentWords(b), ContentWords(s));
    }
  }
}
