/** What a candidate that comes out of dedupe and Merge (extract.go) is made of: which of the candidates went into it,
    and which of their values it shows. */
module Folding {
  import opened Text
  import opened Records
  import opened Similarity
  import opened Merging

  /** Among the positions js of xs, j is the first with attribute a. */
  ghost predicate FirstWith(xs: seq<Candidate>, js: set<nat>, j: nat, a: string) {
    && j in js && j < |xs| && a in xs[j].attributes
    && forall i :: i in js && i < j ==> a !in xs[i].attributes
  }

  ghost predicate FirstSays(xs: seq<Candidate>, js: set<nat>, a: string, v: string) {
    exists j: nat :: FirstWith(xs, js, j, a) && xs[j].attributes[a] == v
  }

  ghost predicate Within(xs: seq<Candidate>, js: set<nat>) {
    forall j :: j in js ==> j < |xs|
  }

  /** m is the highest confidence at the positions js. */
  ghost predicate Highest(m: real, xs: seq<Candidate>, js: set<nat>)
    requires Within(xs, js)
  {
    (forall j :: j in js ==> xs[j].confidence <= m) && exists j :: j in js && xs[j].confidence == m
  }

  /** shown holds every attribute at the positions js, with the value of the first that has it. */
  ghost predicate Collects(shown: map<string, string>, xs: seq<Candidate>, js: set<nat>)
    requires Within(xs, js)
  {
    && (forall j :: j in js ==> xs[j].attributes.Keys <= shown.Keys)
    && (forall a :: a in shown ==> FirstSays(xs, js, a, shown[a]))
  }

  /** r shows what the candidates at the positions js say together: each of their attributes, with the value of the
      first that has it, and the highest of their confidences. */
  ghost predicate Pools(r: Candidate, xs: seq<Candidate>, js: set<nat>) {
    Within(xs, js) && Highest(r.confidence, xs, js) && Collects(r.attributes, xs, js)
  }

  /** r shows the first of the longest quotes at the positions js. */
  ghost predicate Quotes(r: Candidate, xs: seq<Candidate>, js: set<nat>) {
    exists j :: j in js && j < |xs| && r.quote == xs[j].quote && LongestAt(xs, js, j)
  }

  ghost predicate LongestAt(xs: seq<Candidate>, js: set<nat>, j: nat)
    requires j < |xs|
  {
    forall i :: i in js && i < |xs| ==> |xs[i].quote| <= |xs[j].quote| && (i < j ==> |xs[i].quote| < |xs[j].quote|)
  }

  lemma PoolsOne(xs: seq<Candidate>, j: nat)
    requires j < |xs|
    ensures Pools(xs[j], xs, {j}) && Quotes(xs[j], xs, {j})
  {
    forall a | a in xs[j].attributes ensures FirstSays(xs, {j}, a, xs[j].attributes[a]) {
      assert FirstWith(xs, {j}, j, a);
    }
    assert LongestAt(xs, {j}, j);
  }

  lemma SaysStill(xs: seq<Candidate>, js: set<nat>, c: Candidate, js': set<nat>, a: string, v: string)
    requires FirstSays(xs, js, a, v) && Within(xs, js) && (js' == js || js' == js + {|xs|})
    ensures FirstSays(xs + [c], js', a, v)
  {
    var j: nat :| FirstWith(xs, js, j, a) && xs[j].attributes[a] == v;
    assert (xs + [c])[j] == xs[j];
    assert FirstWith(xs + [c], js', j, a);
  }

  lemma PoolsStill(r: Candidate, xs: seq<Candidate>, js: set<nat>, c: Candidate)
    requires Pools(r, xs, js)
    ensures Pools(r, xs + [c], js)
  {
    hide FirstSays;
    var all := xs + [c];
    assert forall j :: j in js ==> all[j] == xs[j];
    forall a | a in r.attributes ensures FirstSays(all, js, a, r.attributes[a]) {
      SaysStill(xs, js, c, js, a, r.attributes[a]);
    }
  }

  lemma QuotesStill(r: Candidate, xs: seq<Candidate>, js: set<nat>, c: Candidate)
    requires Quotes(r, xs, js) && forall j :: j in js ==> j < |xs|
    ensures Quotes(r, xs + [c], js)
  {
    var j :| j in js && j < |xs| && r.quote == xs[j].quote && LongestAt(xs, js, j);
    assert LongestAt(xs + [c], js, j);
  }

  /** o takes in one more candidate. */
  lemma PoolsSnoc(o: Candidate, xs: seq<Candidate>, js: set<nat>, c: Candidate, r: Candidate)
    requires Pools(o, xs, js)
    requires r.attributes == c.attributes + o.attributes
    requires r.confidence == Max(o.confidence, c.confidence)
    ensures Pools(r, xs + [c], js + {|xs|})
  {
    hide FirstSays;
    var all, ks := xs + [c], js + {|xs|};
    assert all[|xs|] == c && |xs| in ks && forall j :: j in js ==> all[j] == xs[j];
    HighestSnoc(o.confidence, xs, js, c);
    forall a | a in r.attributes ensures FirstSays(all, ks, a, r.attributes[a]) {
      if a in o.attributes {
        SaysStill(xs, js, c, ks, a, o.attributes[a]);
      } else {
        SaysFirst(xs, js, c, a);
      }
    }
  }

  lemma SaysFirst(xs: seq<Candidate>, js: set<nat>, c: Candidate, a: string)
    requires a in c.attributes && Within(xs, js) && forall j :: j in js ==> a !in xs[j].attributes
    ensures FirstSays(xs + [c], js + {|xs|}, a, c.attributes[a])
  {
    assert FirstWith(xs + [c], js + {|xs|}, |xs|, a);
  }

  lemma HighestSnoc(m: real, xs: seq<Candidate>, js: set<nat>, c: Candidate)
    requires Within(xs, js) && Highest(m, xs, js)
    ensures Within(xs + [c], js + {|xs|}) && Highest(Max(m, c.confidence), xs + [c], js + {|xs|})
  {
    var all, ks := xs + [c], js + {|xs|};
    var most :| most in js && xs[most].confidence == m;
    assert most in ks && all[most] == xs[most] && all[|xs|] == c && |xs| in ks;
  }

  lemma QuotesSnoc(o: Candidate, xs: seq<Candidate>, js: set<nat>, c: Candidate, r: Candidate)
    requires Quotes(o, xs, js) && forall j :: j in js ==> j < |xs|
    requires r.quote == if |c.quote| > |o.quote| then c.quote else o.quote
    ensures Quotes(r, xs + [c], js + {|xs|})
  {
    var all, ks := xs + [c], js + {|xs|};
    var j :| j in js && j < |xs| && o.quote == xs[j].quote && LongestAt(xs, js, j);
    if |c.quote| > |o.quote| {
      assert LongestAt(all, ks, |xs|) && all[|xs|] == c && |xs| in ks;
    } else {
      assert LongestAt(all, ks, j) && all[j] == xs[j] && j in ks;
    }
  }

  // ---- dedupe ----

  /** c says again what o said: the same key, and the same words but for case, or at least 85 in 100 of the content
      words shared. */
  ghost predicate SaysAgain(o: Candidate, c: Candidate) {
    && o.kind == c.kind && o.topic == c.topic
    && (ToLower(o.statement) == ToLower(c.statement) ||
        var a, b := ContentWords(o.statement), ContentWords(c.statement);
        a != {} && b != {} && 100 * |a * b| >= 85 * |a + b|)
  }

  lemma RepeatsIff(o: Candidate, c: Candidate)
    ensures Repeats(o, c) <==> SaysAgain(o, c)
  {
    hide ContentWords, ToLower;
    JaccardAtLeast(ContentWords(o.statement), ContentWords(c.statement), 0.85);
  }

  /** Candidate j goes into the k-th survivor: it is where that one comes from, or it comes later, says that again and
      says none of the earlier survivors again. */
  ghost predicate GoesInto(cs: seq<Candidate>, from: seq<nat>, k: nat, j: nat) {
    && k < |from| && j < |cs| && from[k] < |cs|
    && (j == from[k] ||
        (from[k] < j && SaysAgain(cs[from[k]], cs[j]) &&
         forall l :: 0 <= l < k && from[l] < |cs| ==> !SaysAgain(cs[from[l]], cs[j])))
  }

  ghost function Folded(cs: seq<Candidate>, from: seq<nat>, k: nat): set<nat> {
    set j | 0 <= j < |cs| && GoesInto(cs, from, k, j)
  }

  /** The positions in `from` are those of the candidates that say none of the earlier survivors again. */
  ghost predicate Survive(cs: seq<Candidate>, from: seq<nat>) {
    && (forall k :: 0 <= k < |from| ==> from[k] < |cs|)
    && (forall k, l :: 0 <= k < l < |from| ==> from[k] < from[l] && !SaysAgain(cs[from[k]], cs[from[l]]))
    && (forall j :: 0 <= j < |cs| && j !in from ==>
          exists k :: 0 <= k < |from| && from[k] < j && SaysAgain(cs[from[k]], cs[j]))
  }

  ghost predicate FoldedFrom(out: seq<Candidate>, cs: seq<Candidate>, from: seq<nat>) {
    |out| == |from| &&
    forall k :: 0 <= k < |out| ==>
      && from[k] < |cs|
      && out[k] == cs[from[k]].(attributes := out[k].attributes, confidence := out[k].confidence)
      && Pools(out[k], cs, Folded(cs, from, k))
  }

  /** A deduplicated list, in full: who survives, who goes into whom, and what each survivor shows. */
  lemma {:induction false} DedupedInFull(cs: seq<Candidate>) returns (from: seq<nat>)
    ensures Survive(cs, from) && FoldedFrom(DedupeAll(cs), cs, from)
  {
    hide FoldedFrom, Survive, DedupeStep;
    if cs == [] {
      from := [];
      NothingFolded();
    } else {
      var init, c := cs[..|cs| - 1], cs[|cs| - 1];
      var was := DedupedInFull(init);
      assert cs == init + [c];
      from := FoldOne(DedupeAll(init), init, was, c);
    }
  }

  lemma NothingFolded()
    ensures Survive([], []) && FoldedFrom([], [], [])
  {
  }

  lemma FoldOne(out: seq<Candidate>, cs: seq<Candidate>, from: seq<nat>, c: Candidate) returns (from': seq<nat>)
    requires Survive(cs, from) && FoldedFrom(out, cs, from)
    ensures Survive(cs + [c], from') && FoldedFrom(DedupeStep(out, c), cs + [c], from')
  {
    hide SaysAgain, Pools, Folded, FirstRepeated, Survive, Repeats;
    var i := FirstRepeated(out, c);
    FirstRepeatedIsFirst(out, c);
    FoldedRepeats(out, cs, from, c);
    if i < |out| {
      from' := from;
      StillSurvive(cs, from, c, i);
      FoldsIn(out, cs, from, c, i);
    } else {
      from' := from + [|cs|];
      OneMoreSurvives(cs, from, c);
      FoldsApart(out, cs, from, c);
    }
  }

  lemma FoldedRepeats(out: seq<Candidate>, cs: seq<Candidate>, from: seq<nat>, c: Candidate)
    requires FoldedFrom(out, cs, from)
    ensures forall k :: 0 <= k < |out| ==> (Repeats(out[k], c) <==> SaysAgain(cs[from[k]], c))
  {
    hide SaysAgain, Pools;
    forall k | 0 <= k < |out| ensures Repeats(out[k], c) <==> SaysAgain(cs[from[k]], c) {
      RepeatsIff(cs[from[k]], c);
    }
  }

  lemma FoldsIn(out: seq<Candidate>, cs: seq<Candidate>, from: seq<nat>, c: Candidate, i: nat)
    requires FoldedFrom(out, cs, from) && i < |out| && SaysAgain(cs[from[i]], c)
    requires forall k :: 0 <= k < i ==> !SaysAgain(cs[from[k]], c)
    ensures FoldedFrom(out[i := Absorb(out[i], c)], cs + [c], from)
  {
    hide SaysAgain, Pools, Folded;
    var all := cs + [c];
    forall k | 0 <= k < |out|
      ensures Pools(if k == i then Absorb(out[i], c) else out[k], all, Folded(all, from, k))
    {
      TeamGrows(cs, from, from, c, k);
      if k == i {
        PoolsSnoc(out[k], cs, Folded(cs, from, k), c, Absorb(out[k], c));
      } else {
        assert Folded(all, from, k) == Folded(cs, from, k);
        PoolsStill(out[k], cs, Folded(cs, from, k), c);
      }
    }
  }

  lemma FoldsApart(out: seq<Candidate>, cs: seq<Candidate>, from: seq<nat>, c: Candidate)
    requires FoldedFrom(out, cs, from) && forall k :: 0 <= k < |from| ==> !SaysAgain(cs[from[k]], c)
    ensures FoldedFrom(out + [c], cs + [c], from + [|cs|])
  {
    hide SaysAgain, Pools, Folded;
    var all, more, r := cs + [c], from + [|cs|], out + [c];
    NewTeam(cs, from, c);
    PoolsOne(all, |cs|);
    forall k | 0 <= k < |out| ensures Pools(out[k], all, Folded(all, more, k)) {
      TeamGrows(cs, from, more, c, k);
      assert Folded(all, more, k) == Folded(cs, from, k);
      PoolsStill(out[k], cs, Folded(cs, from, k), c);
    }
  }

  lemma StillSurvive(cs: seq<Candidate>, from: seq<nat>, c: Candidate, i: nat)
    requires Survive(cs, from) && i < |from| && SaysAgain(cs[from[i]], c)
    ensures Survive(cs + [c], from)
  {
    hide SaysAgain;
    var all := cs + [c];
    forall j | 0 <= j < |all| && j !in from
      ensures exists k :: 0 <= k < |from| && from[k] < j && SaysAgain(all[from[k]], all[j])
    {
      if j < |cs| {
        var k :| 0 <= k < |from| && from[k] < j && SaysAgain(cs[from[k]], cs[j]);
        assert SaysAgain(all[from[k]], all[j]);
      } else {
        assert SaysAgain(all[from[i]], all[j]);
      }
    }
  }

  lemma OneMoreSurvives(cs: seq<Candidate>, from: seq<nat>, c: Candidate)
    requires Survive(cs, from) && forall k :: 0 <= k < |from| ==> !SaysAgain(cs[from[k]], c)
    ensures Survive(cs + [c], from + [|cs|])
  {
    hide SaysAgain;
    var all, more := cs + [c], from + [|cs|];
    forall j | 0 <= j < |all| && j !in more
      ensures exists k :: 0 <= k < |more| && more[k] < j && SaysAgain(all[more[k]], all[j])
    {
      assert j !in from && j != |cs| by {
        assert more[|from|] == |cs| && forall k :: 0 <= k < |from| ==> more[k] == from[k];
      }
      var k :| 0 <= k < |from| && from[k] < j && SaysAgain(cs[from[k]], cs[j]);
      assert more[k] == from[k];
    }
  }

  lemma NewTeam(cs: seq<Candidate>, from: seq<nat>, c: Candidate)
    ensures Folded(cs + [c], from + [|cs|], |from|) == {|cs|}
  {
    hide SaysAgain;
  }

  /** A team of earlier candidates takes in c when c says it again and none before it. */
  lemma TeamGrows(cs: seq<Candidate>, from: seq<nat>, from': seq<nat>, c: Candidate, k: nat)
    requires k < |from| && from <= from' && forall l :: 0 <= l < |from| ==> from[l] < |cs|
    ensures var in' := SaysAgain(cs[from[k]], c) && forall l :: 0 <= l < k ==> !SaysAgain(cs[from[l]], c);
            Folded(cs + [c], from', k) == Folded(cs, from, k) + (if in' then {|cs|} else {})
  {
    hide SaysAgain;
    var all := cs + [c];
    assert from'[k] == from[k] && forall l :: 0 <= l < k ==> from'[l] == from[l];
    forall j | 0 <= j < |cs| ensures GoesInto(all, from', k, j) <==> GoesInto(cs, from, k, j) {
    }
  }

  // ---- Merge ----

  /** No candidate before position p is on its key. */
  ghost predicate Opens(xs: seq<Candidate>, p: nat) {
    p < |xs| && forall i :: 0 <= i < p ==> !On(xs[i], xs[p].kind, xs[p].topic)
  }

  /** What goes into the candidate at position p, when the first n of xs are the broad ones: itself and, for the first
      on its key, every later detail candidate on that key. */
  ghost function Team(xs: seq<Candidate>, n: nat, p: nat): set<nat>
    requires p < |xs|
  {
    {p} + set j | n <= j < |xs| && p < j && Opens(xs, p) && xs[j].kind == xs[p].kind && xs[j].topic == xs[p].topic
  }

  /** r is the candidate at p with all that went into it: statement, subjects, status and start are its own. */
  ghost predicate Grafted(r: Candidate, xs: seq<Candidate>, n: nat, p: nat) {
    && p < |xs|
    && r == xs[p].(attributes := r.attributes, confidence := r.confidence, quote := r.quote,
                   pass := if Team(xs, n, p) == {p} then xs[p].pass else Merged)
    && Pools(r, xs, Team(xs, n, p)) && Quotes(r, xs, Team(xs, n, p))
  }

  /** The heads are the positions of all broad candidates, and of the detail candidates that open a key. */
  ghost predicate Heads(xs: seq<Candidate>, n: nat, hs: seq<nat>) {
    && n <= |hs| && n <= |xs|
    && (forall i :: 0 <= i < n ==> hs[i] == i)
    && (forall i :: n <= i < |hs| ==> n <= hs[i] && Opens(xs, hs[i]))
    && (forall i, j :: 0 <= i < j < |hs| ==> hs[i] < hs[j])
    && (forall p :: n <= p && Opens(xs, p) ==> p in hs)
  }

  ghost predicate GraftedFrom(out: seq<Candidate>, xs: seq<Candidate>, n: nat, hs: seq<nat>) {
    |out| == |hs| && forall i :: 0 <= i < |out| ==> Grafted(out[i], xs, n, hs[i])
  }

  lemma {:induction false} GraftedInFull(base: seq<Candidate>, ds: seq<Candidate>) returns (hs: seq<nat>)
    ensures Heads(base + ds, |base|, hs) && GraftedFrom(GraftAll(base, ds), base + ds, |base|, hs)
  {
    hide Heads, GraftedFrom, GraftStep;
    if ds == [] {
      hs := BaseOnly(base);
      assert base + ds == base;
    } else {
      var init, d := ds[..|ds| - 1], ds[|ds| - 1];
      var was := GraftedInFull(base, init);
      assert base + ds == (base + init) + [d];
      hs := GraftOne(GraftAll(base, init), base + init, |base|, was, d);
    }
  }

  lemma BaseOnly(base: seq<Candidate>) returns (hs: seq<nat>)
    ensures Heads(base, |base|, hs) && GraftedFrom(base, base, |base|, hs)
  {
    hide Pools, Quotes;
    hs := seq(|base|, i => i);
    forall i | 0 <= i < |base| ensures Grafted(base[i], base, |base|, hs[i]) {
      PoolsOne(base, i);
      assert Team(base, |base|, i) == {i};
    }
  }

  lemma GraftOne(out: seq<Candidate>, xs: seq<Candidate>, n: nat, hs: seq<nat>, d: Candidate) returns (hs': seq<nat>)
    requires Heads(xs, n, hs) && GraftedFrom(out, xs, n, hs)
    ensures Heads(xs + [d], n, hs') && GraftedFrom(GraftStep(out, d), xs + [d], n, hs')
  {
    hide Pools, Quotes, FirstOn, Grafted;
    var all, i := xs + [d], FirstOn(out, d);
    FirstOnIsFirst(out, d);
    KeysKept(out, xs, n, hs);
    if i < |out| {
      hs' := hs;
      HeadOpens(xs, n, hs, d, i);
      HeadsStay(xs, n, hs, d);
      GraftHead(out[i], xs, n, hs[i], d);
    } else {
      hs' := hs + [|xs|];
      NobodyOn(xs, n, hs, d);
      HeadsGrow(xs, n, hs, d);
      Standalone(xs, n, d);
    }
    forall k | 0 <= k < |out| && k != i ensures Grafted(out[k], all, n, hs[k]) {
      if i < |out| { HeadsDiffer(xs, n, hs, k, i); }
      StaysGrafted(out[k], xs, n, hs[k], d);
    }
  }

  lemma {:induction false} FirstOnIsFirst(out: seq<Candidate>, d: Candidate)
    ensures forall i :: 0 <= i < FirstOn(out, d) ==> !On(out[i], d.kind, d.topic)
  {
    hide On;
    if out != [] && !On(out[0], d.kind, d.topic) {
      FirstOnIsFirst(out[1..], d);
      forall i | 0 <= i < FirstOn(out, d) ensures !On(out[i], d.kind, d.topic) {
        if i > 0 { assert out[i] == out[1..][i - 1]; }
      }
    }
  }

  lemma KeysKept(out: seq<Candidate>, xs: seq<Candidate>, n: nat, hs: seq<nat>)
    requires GraftedFrom(out, xs, n, hs)
    ensures forall i :: 0 <= i < |out| ==>
              hs[i] < |xs| && out[i].kind == xs[hs[i]].kind && out[i].topic == xs[hs[i]].topic
  {
    hide Pools, Quotes;
  }

  /** The first head on the key of d is the first of all on that key. */
  lemma HeadOpens(xs: seq<Candidate>, n: nat, hs: seq<nat>, d: Candidate, i: nat)
    requires Heads(xs, n, hs) && i < |hs| && hs[i] < |xs| && On(xs[hs[i]], d.kind, d.topic)
    requires forall k :: 0 <= k < i ==> hs[k] < |xs| && !On(xs[hs[k]], d.kind, d.topic)
    ensures Opens(xs, hs[i])
  {
    if i < n {
      forall k | 0 <= k < hs[i] ensures !On(xs[k], d.kind, d.topic) {
        assert hs[k] == k;
      }
    }
  }

  lemma {:induction false} FirstOfKey(xs: seq<Candidate>, p: nat) returns (q: nat)
    requires p < |xs|
    ensures q <= p && Opens(xs, q) && On(xs[q], xs[p].kind, xs[p].topic)
    decreases p
  {
    q := p;
    if !Opens(xs, p) {
      var i :| 0 <= i < p && On(xs[i], xs[p].kind, xs[p].topic);
      q := FirstOfKey(xs, i);
    }
  }

  lemma NobodyOn(xs: seq<Candidate>, n: nat, hs: seq<nat>, d: Candidate)
    requires Heads(xs, n, hs)
    requires forall k :: 0 <= k < |hs| ==> hs[k] < |xs| && !On(xs[hs[k]], d.kind, d.topic)
    ensures forall p :: 0 <= p < |xs| ==> !On(xs[p], d.kind, d.topic)
  {
    forall p | 0 <= p < |xs| ensures !On(xs[p], d.kind, d.topic) {
      var q := FirstOfKey(xs, p);
      if q < n {
        assert hs[q] == q;
      } else {
        assert q in hs;
      }
    }
  }

  lemma OpensStays(xs: seq<Candidate>, d: Candidate, p: nat)
    ensures p < |xs| ==> (Opens(xs + [d], p) <==> Opens(xs, p))
  {
    if p < |xs| {
      assert (xs + [d])[..p + 1] == xs[..p + 1];
      assert forall i :: 0 <= i <= p ==> (xs + [d])[i] == xs[i];
    }
  }

  lemma HeadsStay(xs: seq<Candidate>, n: nat, hs: seq<nat>, d: Candidate)
    requires Heads(xs, n, hs) && exists p :: 0 <= p < |xs| && On(xs[p], d.kind, d.topic)
    ensures Heads(xs + [d], n, hs)
  {
    var all := xs + [d];
    var q :| 0 <= q < |xs| && On(xs[q], d.kind, d.topic);
    assert all[q] == xs[q] && !Opens(all, |xs|);
    forall p | n <= p && Opens(all, p) ensures p in hs {
      OpensStays(xs, d, p);
    }
    forall i | n <= i < |hs| ensures n <= hs[i] && Opens(all, hs[i]) {
      OpensStays(xs, d, hs[i]);
    }
  }

  lemma HeadsGrow(xs: seq<Candidate>, n: nat, hs: seq<nat>, d: Candidate)
    requires Heads(xs, n, hs) && forall p :: 0 <= p < |xs| ==> !On(xs[p], d.kind, d.topic)
    requires forall k :: 0 <= k < |hs| ==> hs[k] < |xs|
    ensures Heads(xs + [d], n, hs + [|xs|])
  {
    var all, more := xs + [d], hs + [|xs|];
    forall p | n <= p && Opens(all, p) ensures p in more {
      OpensStays(xs, d, p);
      assert more[|hs|] == |xs|;
    }
    forall i | n <= i < |more| ensures n <= more[i] && Opens(all, more[i]) {
      if i < |hs| { OpensStays(xs, d, hs[i]); }
    }
  }

  /** Two heads on one key are not both first on it. */
  lemma HeadsDiffer(xs: seq<Candidate>, n: nat, hs: seq<nat>, k: nat, i: nat)
    requires Heads(xs, n, hs) && k < |hs| && i < |hs| && k != i && hs[k] < |xs| && Opens(xs, hs[i])
    ensures Opens(xs, hs[k]) ==> !On(xs[hs[k]], xs[hs[i]].kind, xs[hs[i]].topic)
  {
    assert hs[k] != hs[i] by {
      if k < i { assert hs[k] < hs[i]; } else { assert hs[i] < hs[k]; }
    }
  }

  lemma GraftHead(o: Candidate, xs: seq<Candidate>, n: nat, p: nat, d: Candidate)
    requires Grafted(o, xs, n, p) && n <= |xs| && Opens(xs, p) && On(xs[p], d.kind, d.topic)
    ensures Grafted(Graft(o, d), xs + [d], n, p)
  {
    hide Pools, Quotes;
    var all, team := xs + [d], Team(xs, n, p);
    OpensStays(xs, d, p);
    assert Team(all, n, p) == team + {|xs|} && |xs| in Team(all, n, p) && |xs| != p;
    PoolsSnoc(o, xs, team, d, Graft(o, d));
    QuotesSnoc(o, xs, team, d, Graft(o, d));
  }

  lemma Standalone(xs: seq<Candidate>, n: nat, d: Candidate)
    ensures Grafted(d, xs + [d], n, |xs|)
  {
    hide Pools, Quotes;
    assert Team(xs + [d], n, |xs|) == {|xs|};
    PoolsOne(xs + [d], |xs|);
  }

  lemma StaysGrafted(o: Candidate, xs: seq<Candidate>, n: nat, p: nat, d: Candidate)
    requires Grafted(o, xs, n, p) && (Opens(xs, p) ==> !On(xs[p], d.kind, d.topic))
    ensures Grafted(o, xs + [d], n, p)
  {
    hide Pools, Quotes;
    OpensStays(xs, d, p);
    var team := Team(xs, n, p);
    assert Team(xs + [d], n, p) == team;
    PoolsStill(o, xs, team, d);
    QuotesStill(o, xs, team, d);
  }

  function Name(k: Kind): string {
    match k
    case Fact => "fact"
    case Event => "event"
    case Instruction => "instruction"
    case Task => "task"
    case Decision => "decision"
  }

  /** The order of the answer: by the kind's name, then by topic. */
  lemma BeforeIff(a: Candidate, b: Candidate)
    ensures Before(a, b) <==> Less(Name(a.kind), Name(b.kind)) || (a.kind == b.kind && Less(a.topic, b.topic))
  {
    hide Less;
    if a.kind == b.kind {
      LessTotal(Name(a.kind), Name(b.kind));
    } else {
      ByFirstLetter(Name(a.kind), Name(b.kind));
    }
  }

  lemma ByFirstLetter(a: string, b: string)
    requires a != "" && b != "" && a[0] != b[0]
    ensures Less(a, b) <==> a[0] < b[0]
  {
  }

  /** The merged list, in full: the deduplicated passes are base and ds, and out, of which the answer is a
      rearrangement in order, has one candidate for each head. */
  lemma MergedInFull(broad: seq<Candidate>, detail: seq<Candidate>)
    returns (from: seq<nat>, from': seq<nat>, base: seq<Candidate>, ds: seq<Candidate>, hs: seq<nat>,
             out: seq<Candidate>)
    ensures Survive(broad, from) && FoldedFrom(base, broad, from)
    ensures Survive(detail, from') && FoldedFrom(ds, detail, from')
    ensures Heads(base + ds, |base|, hs) && GraftedFrom(out, base + ds, |base|, hs)
    ensures multiset(Merge(broad, detail)) == multiset(out) && InOrder(Merge(broad, detail))
  {
    hide DedupeAll, GraftAll, SortStable, Survive, FoldedFrom, Heads, GraftedFrom;
    base, ds := DedupeAll(broad), DedupeAll(detail);
    from := DedupedInFull(broad);
    from' := DedupedInFull(detail);
    hs := GraftedInFull(base, ds);
    out := GraftAll(base, ds);
    SortKeeps(out);
    SortInOrder(out);
  }
}
