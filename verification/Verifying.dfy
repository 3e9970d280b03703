/** verify/verify.go: the screen between extraction and the store. The seven checks that look at one candidate and its
    episode only are a parameter; the redundancy check, the only one with batch state, is modelled in full. */
module Verifying {
  import opened Similarity
  import opened Merging

  /** Outcome of the seven candidate-only checks: whether all passed, and the penalty they charge. */
  datatype Screen = Screen(passed: bool, penalty: real)

  datatype Batch = Batch(accepted: seq<Candidate>, rejected: seq<Candidate>)

  function Clamp01(f: real): real {
    if f < 0.0 then 0.0 else if f > 1.0 then 1.0 else f
  }

  /** c restates p: same key, similarity at least 0.7. */
  predicate Restates(p: Candidate, c: Candidate) {
    On(p, c.kind, c.topic) && StatementSimilarity(p.statement, c.statement) >= 0.7
  }

  predicate Redundant(prior: seq<Candidate>, c: Candidate) {
    exists p :: p in prior && Restates(p, c)
  }

  predicate Accepts(prior: seq<Candidate>, c: Candidate, screen: Candidate -> Screen) {
    screen(c).passed && !Redundant(prior, c)
  }

  /** The candidate as accepted: its confidence lowered by the penalty. */
  function Charged(c: Candidate, screen: Candidate -> Screen): Candidate {
    c.(confidence := Clamp01(c.confidence - screen(c).penalty))
  }

  function Verified(cs: seq<Candidate>, screen: Candidate -> Screen): Batch {
    if cs == [] then Batch([], [])
    else
      var b, c := Verified(cs[..|cs| - 1], screen), cs[|cs| - 1];
      if Accepts(b.accepted, c, screen) then Batch(b.accepted + [Charged(c, screen)], b.rejected)
      else Batch(b.accepted, b.rejected + [c])
  }

  method CheckRedundancy(c: Candidate, prior: seq<Candidate>) returns (passed: bool)
    ensures passed <==> !Redundant(prior, c)
  {
    hide StatementSimilarity;
    for i := 0 to |prior|
      invariant forall j :: 0 <= j < i ==> !Restates(prior[j], c)
    {
      var p := prior[i];
      if p.kind != c.kind || p.topic != c.topic {
        continue;
      }
      var sim := ComputeSimilarity(p.statement, c.statement);
      if sim >= 0.7 {
        assert Restates(p, c);
        return false;
      }
    }
    return true;
  }

  method VerifyAll(cs: seq<Candidate>, screen: Candidate -> Screen) returns (b: Batch)
    ensures b == Verified(cs, screen)
  {
    b := Batch([], []);
    for i := 0 to |cs|
      invariant b == Verified(cs[..i], screen)
    {
      var c := cs[i];
      assert cs[..i + 1][..i] == cs[..i];
      var distinct := CheckRedundancy(c, b.accepted);
      if !screen(c).passed || !distinct {
        b := b.(rejected := b.rejected + [c]);
        continue;
      }
      b := b.(accepted := b.accepted + [c.(confidence := Clamp01(c.confidence - screen(c).penalty))]);
    }
    assert cs[..|cs|] == cs;
  }

  // ---- what the screen guarantees ----

  /** No accepted candidate restates an earlier one. */
  ghost predicate PairwiseDistinct(cs: seq<Candidate>) {
    forall i, j :: 0 <= i < j < |cs| ==> !Restates(cs[i], cs[j])
  }

  lemma {:induction false} AcceptedAreDistinct(cs: seq<Candidate>, screen: Candidate -> Screen)
    ensures PairwiseDistinct(Verified(cs, screen).accepted)
    ensures forall c :: c in Verified(cs, screen).accepted ==> 0.0 <= c.confidence <= 1.0
  {
    hide PairwiseDistinct, Redundant, Charged;
    if cs == [] {
      assert PairwiseDistinct([]) by { NoneRestate(); }
    } else {
      var init, c := cs[..|cs| - 1], cs[|cs| - 1];
      AcceptedAreDistinct(init, screen);
      if Accepts(Verified(init, screen).accepted, c, screen) {
        DistinctSnoc(Verified(init, screen).accepted, c, screen);
      }
    }
  }

  lemma NoneRestate()
    ensures PairwiseDistinct([])
  {
  }

  lemma DistinctSnoc(cs: seq<Candidate>, c: Candidate, screen: Candidate -> Screen)
    requires PairwiseDistinct(cs) && !Redundant(cs, c)
    ensures PairwiseDistinct(cs + [Charged(c, screen)]) && 0.0 <= Charged(c, screen).confidence <= 1.0
  {
    hide StatementSimilarity;
    var all := cs + [Charged(c, screen)];
    forall i, j | 0 <= i < j < |all| ensures !Restates(all[i], all[j]) {
      assert all[i] == cs[i];
      if j == |cs| {
        assert cs[i] in cs && !Restates(cs[i], c);
      }
    }
  }

  ghost predicate Increasing(xs: seq<nat>, n: nat) {
    (forall i :: 0 <= i < |xs| ==> xs[i] < n) && forall i, j :: 0 <= i < j < |xs| ==> xs[i] < xs[j]
  }

  /** On the same key, and at least seven tenths of the content words shared. */
  ghost predicate SaysTheSame(o: Candidate, c: Candidate) {
    && o.kind == c.kind && o.topic == c.topic
    && var a, b := ContentWords(o.statement), ContentWords(c.statement);
       a != {} && b != {} && 10 * |a * b| >= 7 * |a + b|
  }

  lemma RestatesIff(o: Candidate, c: Candidate)
    ensures Restates(o, c) <==> SaysTheSame(o, c)
  {
    hide ContentWords;
    JaccardAtLeast(ContentWords(o.statement), ContentWords(c.statement), 0.7);
  }

  /** a is c with its confidence lowered by the penalty and kept between 0 and 1. */
  ghost predicate Lowered(a: Candidate, c: Candidate, penalty: real) {
    && a == c.(confidence := a.confidence)
    && (c.confidence - penalty < 0.0 ==> a.confidence == 0.0)
    && (c.confidence - penalty > 1.0 ==> a.confidence == 1.0)
    && (0.0 <= c.confidence - penalty <= 1.0 ==> a.confidence == c.confidence - penalty)
  }

  /** The candidates at the positions picked are those that passed their own checks and say nothing that one picked
      before them said. */
  ghost predicate Picks(cs: seq<Candidate>, picked: seq<nat>, screen: Candidate -> Screen) {
    && Increasing(picked, |cs|)
    && forall j :: 0 <= j < |cs| ==>
         (j in picked <==> screen(cs[j]).passed &&
                           forall k :: 0 <= k < |picked| && picked[k] < j ==> !SaysTheSame(cs[picked[k]], cs[j]))
  }

  /** Every candidate is either accepted, in order and unchanged but for its confidence, or rejected, in order and
      unchanged: picked and dropped are the positions of the two kinds. */
  lemma {:induction false} EveryCandidateJudged(cs: seq<Candidate>, screen: Candidate -> Screen)
    returns (picked: seq<nat>, dropped: seq<nat>)
    ensures Picks(cs, picked, screen) && Increasing(dropped, |cs|)
    ensures forall i :: 0 <= i < |cs| ==> (i in picked) != (i in dropped)
    ensures |picked| == |Verified(cs, screen).accepted| && |dropped| == |Verified(cs, screen).rejected|
    ensures forall k :: 0 <= k < |picked| ==>
              Lowered(Verified(cs, screen).accepted[k], cs[picked[k]], screen(cs[picked[k]]).penalty)
    ensures forall k :: 0 <= k < |dropped| ==> Verified(cs, screen).rejected[k] == cs[dropped[k]]
  {
    hide Accepts, Charged, Increasing, Picks, Lowered;
    if cs == [] {
      picked, dropped := [], [];
      Increases([], 0, 0);
      NothingPicked(screen);
    } else {
      var n := |cs| - 1;
      picked, dropped := EveryCandidateJudged(cs[..n], screen);
      var b := Verified(cs[..n], screen);
      WithinBounds(cs[..n], picked, screen);
      Increases(picked, n, n + 1);
      Increases(dropped, n, n + 1);
      assert cs == cs[..n] + [cs[n]];
      AcceptsIff(cs[..n], picked, b.accepted, cs[n], screen);
      PicksNext(cs[..n], picked, cs[n], screen);
      if Accepts(b.accepted, cs[n], screen) {
        ChargedIsLowered(cs[n], screen);
        picked := picked + [n];
      } else {
        dropped := dropped + [n];
      }
    }
  }

  lemma NothingPicked(screen: Candidate -> Screen)
    ensures Picks([], [], screen)
  {
  }

  lemma WithinBounds(cs: seq<Candidate>, picked: seq<nat>, screen: Candidate -> Screen)
    requires Picks(cs, picked, screen)
    ensures Increasing(picked, |cs|) && forall k :: 0 <= k < |picked| ==> picked[k] < |cs|
  {
  }

  lemma ChargedIsLowered(c: Candidate, screen: Candidate -> Screen)
    ensures Lowered(Charged(c, screen), c, screen(c).penalty)
  {
  }

  ghost predicate SaidBefore(cs: seq<Candidate>, picked: seq<nat>, c: Candidate) {
    exists k :: 0 <= k < |picked| && picked[k] < |cs| && SaysTheSame(cs[picked[k]], c)
  }

  lemma AcceptsIff(cs: seq<Candidate>, picked: seq<nat>, accepted: seq<Candidate>, c: Candidate,
                   screen: Candidate -> Screen)
    requires |picked| == |accepted| && forall k :: 0 <= k < |picked| ==> picked[k] < |cs|
    requires forall k :: 0 <= k < |picked| ==> Lowered(accepted[k], cs[picked[k]], screen(cs[picked[k]]).penalty)
    ensures Accepts(accepted, c, screen) <==> screen(c).passed && !SaidBefore(cs, picked, c)
  {
    hide SaysTheSame, Restates;
    forall k | 0 <= k < |picked| ensures Restates(accepted[k], c) <==> SaysTheSame(cs[picked[k]], c) {
      RestatesIff(accepted[k], c);
      SameStatement(accepted[k], cs[picked[k]], c);
    }
    if Redundant(accepted, c) {
      var p :| p in accepted && Restates(p, c);
      var k :| 0 <= k < |accepted| && accepted[k] == p;
      assert SaysTheSame(cs[picked[k]], c);
    }
    if SaidBefore(cs, picked, c) {
      var k :| 0 <= k < |picked| && picked[k] < |cs| && SaysTheSame(cs[picked[k]], c);
      assert accepted[k] in accepted && Restates(accepted[k], c);
    }
  }

  lemma SameStatement(a: Candidate, o: Candidate, c: Candidate)
    requires a == o.(confidence := a.confidence)
    ensures SaysTheSame(a, c) <==> SaysTheSame(o, c)
  {
  }

  lemma PicksNext(cs: seq<Candidate>, picked: seq<nat>, c: Candidate, screen: Candidate -> Screen)
    requires Picks(cs, picked, screen)
    ensures screen(c).passed && !SaidBefore(cs, picked, c) ==> Picks(cs + [c], picked + [|cs|], screen)
    ensures !(screen(c).passed && !SaidBefore(cs, picked, c)) ==> Picks(cs + [c], picked, screen)
  {
    hide SaysTheSame;
    var all, more := cs + [c], picked + [|cs|];
    Increases(picked, |cs|, |all|);
    assert more[|picked|] == |cs| && forall k :: 0 <= k < |picked| ==> more[k] == picked[k];
    forall j | 0 <= j < |cs| ensures j in more <==> j in picked {
    }
    assert forall k :: 0 <= k < |picked| ==> all[picked[k]] == cs[picked[k]];
  }

  lemma Increases(xs: seq<nat>, n: nat, m: nat)
    requires Increasing(xs, n) || xs == []
    requires n <= m
    ensures Increasing(xs, m) && (n < m ==> Increasing(xs + [n], m)) && n !in xs
  {
  }

  /** A rejected candidate failed its own checks or restates one that was accepted. */
  lemma {:induction false} RejectionsHaveACause(cs: seq<Candidate>, screen: Candidate -> Screen, c: Candidate)
    requires c in Verified(cs, screen).rejected
    ensures !screen(c).passed || Redundant(Verified(cs, screen).accepted, c)
  {
    var init, last := cs[..|cs| - 1], cs[|cs| - 1];
    var b := Verified(init, screen);
    if c in b.rejected {
      RejectionsHaveACause(init, screen, c);
    }
    if screen(c).passed {
      var p :| p in b.accepted && Restates(p, c);
      assert p in Verified(cs, screen).accepted;
    }
  }
}
