/** contentevent.go, pipeline.go and consumer.go: what becomes of one delivered message. */
module Delivery {
  import opened Text
  import opened Records
  import opened Merging
  import opened Verifying
  import opened Database
  import opened Committing
  import opened Convergence
  import opened Maintaining
  import opened Store

  // ---- content events ----

  datatype ContentEvent = ContentEvent(
    eventId: string,
    tenant: string,
    document: string,
    hash: string,
    op: string,
    sourceType: string,
    permalink: string,
    title: string,
    body: string,
    acl: seq<string>,
    occurredAt: int,
    ingestedAt: int)

  /** The bytes of a message: decodable or not. */
  datatype Payload = Garbage | Decoded(ev: ContentEvent)

  const MIN_BODY_RUNES := 80

  datatype Defect = NoEventId | NoTenant | NoDocument | NoHash | UnknownOp | NoOccurredAt

  datatype Unusable = Skip | Invalid(defect: Defect)

  /** The first defect, if any. */
  function Validate(e: ContentEvent): Option<Defect> {
    if e.eventId == "" then Some(NoEventId)
    else if e.tenant == "" then Some(NoTenant)
    else if e.document == "" then Some(NoDocument)
    else if e.hash == "" then Some(NoHash)
    else if e.op != "upsert" && e.op != "delete" then Some(UnknownOp)
    else if e.occurredAt == 0 then Some(NoOccurredAt)
    else None
  }

  /** The episode an event carries; its id is made of tenant and content hash, not of the event id. */
  function ToEpisode(e: ContentEvent, now: int): Result<Episode, Unusable> {
    var body := TrimSpace(e.body);
    if Validate(e).Some? then Err(Invalid(Validate(e).value))
    else if e.op == "delete" || |body| < MIN_BODY_RUNES then Err(Skip)
    else Ok(Episode(e.tenant + ":" + e.hash, e.tenant, e.document, e.hash, e.sourceType, e.permalink,
                    TrimSpace(e.title), body, e.acl, e.occurredAt, if e.ingestedAt == 0 then now else e.ingestedAt))
  }

  // ---- the decision on a message ----

  datatype Verdict = Ack | Nak | Term

  /** What a message asks for. */
  datatype Job = Drop(verdict: Verdict) | Forget(tenant: string, document: string, at: int) | Learn(ep: Episode)

  /** Undecodable and invalid messages are terminated, thin ones acknowledged, and a delete is not validated at all. */
  function JobOf(p: Payload, now: int): Job {
    match p
    case Garbage => Drop(Term)
    case Decoded(e) =>
      if e.op == "delete" then Forget(e.tenant, e.document, if e.occurredAt == 0 then now else e.occurredAt)
      else
        var ep := ToEpisode(e, now);
        if ep.Ok? then Learn(ep.value) else if ep.error.Skip? then Drop(Ack) else Drop(Term)
  }

  /** A failed episode is retried until its delivery budget is spent; without metadata it is retried. */
  function OnFailure(delivered: Option<nat>, maxDeliver: nat): Verdict {
    if delivered.Some? && delivered.value >= maxDeliver then Term else Nak
  }

  /** Tenant and content hash of a message worth extracting. */
  function HashOf(p: Payload): Option<(string, string)> {
    match JobOf(p, 0)
    case Learn(ep) => Some((ep.tenant, ep.hash))
    case _ => None
  }

  /** A message is extractable exactly when it is an upsert with every required field and at least 80 runes of body
      after trimming; neither this nor its tenant and hash depend on when it is handled. */
  lemma ExtractableIff(p: Payload, now: int)
    ensures JobOf(p, now).Learn? <==>
            && p.Decoded? && p.ev.op == "upsert" && p.ev.eventId != "" && p.ev.tenant != "" && p.ev.document != ""
            && p.ev.hash != "" && p.ev.occurredAt != 0 && |TrimSpace(p.ev.body)| >= 80
    ensures JobOf(p, now).Learn? ==>
              HashOf(p) == Some((JobOf(p, now).ep.tenant, JobOf(p, now).ep.hash)) == Some((p.ev.tenant, p.ev.hash))
    ensures HashOf(p).Some? <==> JobOf(p, now).Learn?
  {
    hide TrimSpace;
  }

  /** What becomes of everything else: poison and invalid messages are terminated, valid but thin ones acknowledged,
      and whatever says delete is a deletion, dated when it occurred or, failing that, now. */
  lemma OtherwiseIff(p: Payload, now: int)
    ensures JobOf(p, now) == Drop(Term) <==>
            p.Garbage? || (p.ev.op != "delete" &&
                           (p.ev.op != "upsert" || p.ev.eventId == "" || p.ev.tenant == "" || p.ev.document == "" ||
                            p.ev.hash == "" || p.ev.occurredAt == 0))
    ensures JobOf(p, now) == Drop(Ack) <==>
            p.Decoded? && p.ev.op == "upsert" && p.ev.eventId != "" && p.ev.tenant != "" && p.ev.document != "" &&
            p.ev.hash != "" && p.ev.occurredAt != 0 && |TrimSpace(p.ev.body)| < 80
    ensures JobOf(p, now).Forget? <==> p.Decoded? && p.ev.op == "delete"
    ensures JobOf(p, now).Forget? ==>
              JobOf(p, now) ==
              Forget(p.ev.tenant, p.ev.document, if p.ev.occurredAt != 0 then p.ev.occurredAt else now)
  {
    hide TrimSpace;
  }

  /** The episode of an extractable message, field by field: known by tenant and content hash, trimmed, in the groups of
      the source, dated when it was said. */
  lemma EpisodeInFull(p: Payload, now: int)
    requires JobOf(p, now).Learn?
    ensures var ep, e := JobOf(p, now).ep, p.ev;
            && ep.id == e.tenant + ":" + e.hash && ep.tenant == e.tenant && ep.document == e.document
            && ep.hash == e.hash && ep.sourceType == e.sourceType && ep.permalink == e.permalink
            && ep.title == TrimSpace(e.title) && ep.body == TrimSpace(e.body) && ep.acl == e.acl
            && ep.occurredAt == e.occurredAt
            && (if e.ingestedAt == 0 then ep.ingestedAt == now else ep.ingestedAt == e.ingestedAt)
  {
    hide TrimSpace;
  }

  // ---- the pipeline ----

  /** What the extractor returned for the episode. */
  datatype Extraction = Extraction(candidates: seq<Candidate>, errors: nat)
  {
    /** Every chunk failed: a broken dependency, not a thin document. */
    predicate Barren() {
      candidates == [] && errors > 0
    }
  }

  datatype Report = Report(
    skipped: bool,
    candidates: nat,
    accepted: nat,
    rejected: nat,
    committed: Option<CommitResult>,
    partialErrors: nat)

  datatype ProcessError = CheckFailed | NothingExtracted | CommitFailed(why: Failure)

  class Pipeline {
    const store: Store
    const screens: Episode -> (Candidate -> Screen)

    constructor (store: Store, screens: Episode -> (Candidate -> Screen))
      ensures this.store == store && this.screens == screens
    {
      this.store, this.screens := store, screens;
    }

    /** Process: the idempotency check, extraction, verification, one atomic commit. */
    method Process(ep: Episode, x: Extraction, now: int) returns (r: Result<Report, ProcessError>)
      modifies store
      ensures r.Err? ==> store.State() == old(store.State())
      ensures r.Ok? ==> (ep.tenant, ep.hash) in store.ingest
      ensures r.Ok? && r.value.skipped <==> r.Ok? && (ep.tenant, ep.hash) in old(store.ingest)
      ensures r.Ok? && r.value.skipped ==> store.State() == old(store.State())
      ensures r.Ok? && !r.value.skipped ==>
                var b := Verified(x.candidates, screens(ep));
                && (x.candidates != [] || x.errors == 0)
                && store.State() ==
                     Committing.Commit(old(store.State()), ep, ProposalsOf(b.accepted, ep, now), |b.rejected|)
                && r.value.accepted == |b.accepted| && r.value.rejected == |b.rejected|
                && r.value.candidates == |x.candidates| == |b.accepted| + |b.rejected|
                && r.value.partialErrors == x.errors
                && r.value.committed == Some(ReportOf(Plans(Apply(old(store.State()), SaveEpisode(ep)), ep,
                                                            ProposalsOf(b.accepted, ep, now))))
    {
      hide Verified, Committing.CommitAll, ReportOf, Plans;
      var before := store.AlreadyProcessed(ep.tenant, ep.hash);
      if before.None? {
        return Err(CheckFailed);
      }
      if before.value {
        return Ok(Report(true, 0, 0, 0, None, 0));
      }
      if |x.candidates| == 0 && x.errors > 0 {
        return Err(NothingExtracted);
      }
      var batch := VerifyAll(x.candidates, screens(ep));
      var proposals: seq<Proposal> := [];
      for i := 0 to |batch.accepted|
        invariant proposals == ProposalsOf(batch.accepted[..i], ep, now)
      {
        proposals := proposals + [ProposalOf(batch.accepted[i], ep, now)];
      }
      assert batch.accepted[..|batch.accepted|] == batch.accepted;
      var done := store.Commit(ep, proposals, |batch.rejected|);
      if done.Err? {
        return Err(CommitFailed(done.error));
      }
      JudgedCount(x.candidates, screens(ep));
      return Ok(Report(false, |x.candidates|, |batch.accepted|, |batch.rejected|, Some(done.value), x.errors));
    }
  }

  lemma {:induction false} JudgedCount(cs: seq<Candidate>, screen: Candidate -> Screen)
    ensures |cs| == |Verified(cs, screen).accepted| + |Verified(cs, screen).rejected|
  {
    if cs != [] {
      JudgedCount(cs[..|cs| - 1], screen);
    }
  }

  /** A report on n proposals adds up: one id for each, each counted under one outcome, and one replaced row for each
      supersession, older than the row that replaced it. */
  ghost predicate Balanced(r: CommitResult, n: nat) {
    && |r.ids| == n
    && CountOf(r.outcomes, Created) + CountOf(r.outcomes, Reinforced) + CountOf(r.outcomes, Superseding) +
       CountOf(r.outcomes, Backfill) == n
    && |r.superseded| == CountOf(r.outcomes, Superseding)
    && forall s :: s in r.superseded ==> s.newId in r.ids && s.oldId < s.newId
  }

  /** What Commit reports adds up. */
  lemma {:induction false} ReportBalances(db: Db, ep: Episode, ps: seq<Proposal>)
    ensures Balanced(ReportOf(Plans(db, ep, ps)), |ps|)
    decreases |ps|
  {
    hide PlanFor, CommitOne, CommitAll, Plans, ReportOf, Noted, Balanced;
    if ps == [] {
      NothingReported(db, ep);
    } else {
      var init, p := ps[..|ps| - 1], ps[|ps| - 1];
      assert ps == init + [p];
      ReportBalances(db, ep, init);
      StepsAppend(db, ep, init, p);
      ReplacedIsOlder(CommitAll(db, ep, init), ep, p);
      BalancedNext(ReportOf(Plans(db, ep, init)), PlanFor(CommitAll(db, ep, init), ep, p), |init|);
    }
  }

  lemma BalancedNext(r: CommitResult, plan: Plan, n: nat)
    requires Balanced(r, n) && (plan.replaced.Some? <==> plan.outcome == Superseding)
    requires plan.replaced.Some? ==> plan.replaced.value < plan.id
    ensures Balanced(Noted(r, plan), n + 1)
  {
  }

  /** The proposals that followed a plan with the given outcome. */
  ghost function With(plans: seq<Plan>, o: Outcome): set<int> {
    set k | 0 <= k < |plans| && plans[k].outcome == o
  }

  /** s names the row that the plan replaced and the one it put there. */
  ghost predicate Replaces(plan: Plan, s: Supersession) {
    plan.replaced == Some(s.oldId) && s.newId == plan.id
  }

  lemma {:induction false} NotedInOrder(plans: seq<Plan>)
    ensures var r := ReportOf(plans);
            && |r.ids| == |plans| && (forall k :: 0 <= k < |plans| ==> r.ids[k] == plans[k].id)
            && (forall o :: CountOf(r.outcomes, o) == |With(plans, o)|)
  {
    if plans != [] {
      var n := |plans| - 1;
      NotedInOrder(plans[..n]);
      forall o ensures CountOf(ReportOf(plans).outcomes, o) == |With(plans, o)| {
        assert With(plans, o) == With(plans[..n], o) + (if plans[n].outcome == o then {n} else {});
      }
    } else {
      assert forall o :: With(plans, o) == {};
    }
  }

  lemma {:induction false} NotedReplacements(plans: seq<Plan>)
    ensures forall s :: s in ReportOf(plans).superseded <==> exists k :: 0 <= k < |plans| && Replaces(plans[k], s)
  {
    if plans != [] {
      var n := |plans| - 1;
      NotedReplacements(plans[..n]);
      var before, after := ReportOf(plans[..n]).superseded, ReportOf(plans).superseded;
      forall s ensures s in after <==> s in before || Replaces(plans[n], s) {
      }
      assert forall k :: 0 <= k < n ==> plans[..n][k] == plans[k];
    }
  }

  lemma {:induction false} PlansInOrder(db: Db, ep: Episode, ps: seq<Proposal>)
    ensures |Plans(db, ep, ps)| == |ps|
    ensures forall k :: 0 <= k < |ps| ==> Plans(db, ep, ps)[k] == PlanFor(CommitAll(db, ep, ps[..k]), ep, ps[k])
    decreases |ps|
  {
    hide PlanFor, CommitOne;
    if ps != [] {
      PlansInOrder(CommitOne(db, ep, ps[0]), ep, ps[1..]);
      forall k | 0 <= k < |ps| ensures Plans(db, ep, ps)[k] == PlanFor(CommitAll(db, ep, ps[..k]), ep, ps[k]) {
        if k == 0 {
          assert ps[..0] == [];
        } else {
          assert ps[..k][1..] == ps[1..][..k - 1] && ps[..k][0] == ps[0] && ps[1..][k - 1] == ps[k];
        }
      }
    }
  }

  /** The report lists, in order, the id each proposal came to, counts exactly the proposals with each outcome, and
      names exactly the replaced rows with their successors. */
  lemma ReportExact(db: Db, ep: Episode, ps: seq<Proposal>)
    ensures var r, plans := ReportOf(Plans(db, ep, ps)), Plans(db, ep, ps);
            && |r.ids| == |ps| == |plans|
            && (forall k :: 0 <= k < |ps| ==>
                  plans[k] == PlanFor(CommitAll(db, ep, ps[..k]), ep, ps[k]) && r.ids[k] == plans[k].id)
            && (forall o :: CountOf(r.outcomes, o) == |With(plans, o)|)
            && (forall s :: s in r.superseded <==> exists k :: 0 <= k < |plans| && Replaces(plans[k], s))
  {
    hide PlanFor, CommitAll, Plans, ReportOf;
    PlansInOrder(db, ep, ps);
    NotedInOrder(Plans(db, ep, ps));
    NotedReplacements(Plans(db, ep, ps));
  }

  lemma NothingReported(db: Db, ep: Episode)
    ensures Balanced(ReportOf(Plans(db, ep, [])), 0)
  {
  }

  /** Only a supersession replaces a row, and the row it inserts comes after the one it replaces. */
  lemma ReplacedIsOlder(db: Db, ep: Episode, p: Proposal)
    ensures var plan := PlanFor(db, ep, p);
            && (plan.replaced.Some? <==> plan.outcome == Superseding)
            && (plan.replaced.Some? ==> plan.replaced.value < plan.id)
  {
    hide IsRestatement, MergeStrings, MergeAttrs, Stored;
  }

  // ---- the consumer ----

  class Consumer {
    const pipeline: Pipeline
    const maxDeliver: nat

    constructor (pipeline: Pipeline, maxDeliver: int)
      ensures this.pipeline == pipeline
      ensures this.maxDeliver == if maxDeliver <= 0 then 5 else maxDeliver
    {
      this.pipeline := pipeline;
      this.maxDeliver := if maxDeliver <= 0 then 5 else maxDeliver;
    }

    /** One delivery. delivered is the message's metadata, x what the extractor would return. */
    method Handle(p: Payload, delivered: Option<nat>, x: Extraction, now: int) returns (v: Verdict)
      modifies pipeline.store
      ensures match JobOf(p, now)
              case Drop(verdict) => v == verdict && pipeline.store.State() == old(pipeline.store.State())
              case Forget(tenant, document, at) =>
                var db := old(pipeline.store.State());
                (v == Ack && pipeline.store.State() == Run(db, InvalidatePlan(db, tenant, document, at))) ||
                (v == Nak && pipeline.store.State() == db)
              case Learn(ep) =>
                var key, b := (ep.tenant, ep.hash), Verified(x.candidates, pipeline.screens(ep));
                if v == Ack then
                  && key in pipeline.store.ingest
                  && (key in old(pipeline.store.ingest) ==> pipeline.store.State() == old(pipeline.store.State()))
                  && (key !in old(pipeline.store.ingest) ==>
                        && (x.candidates != [] || x.errors == 0)
                        && pipeline.store.State() ==
                             Committing.Commit(old(pipeline.store.State()), ep, ProposalsOf(b.accepted, ep, now),
                                               |b.rejected|))
                else
                  && v == (if delivered.Some? && delivered.value >= maxDeliver then Term else Nak)
                  && pipeline.store.State() == old(pipeline.store.State())
    {
      hide TrimSpace, Run, InvalidatePlan, Verified, Committing.Commit;
      if p.Garbage? {
        return Term;
      }
      var e := p.ev;
      if e.op == "delete" {
        var at := e.occurredAt;
        if at == 0 {
          at := now;
        }
        var n := pipeline.store.InvalidateByDocument(e.tenant, e.document, at);
        return if n.Err? then Nak else Ack;
      }
      var ep := ToEpisode(e, now);
      if ep.Err? {
        return if ep.error == Skip then Ack else Term;
      }
      var report := pipeline.Process(ep.value, x, now);
      if report.Err? {
        if delivered.Some? && delivered.value >= maxDeliver {
          return Term;
        }
        return Nak;
      }
      return Ack;
    }
  }

  /** The store after an episode that went through: untouched when its content was already processed. */
  function Ingested(db: Db, ep: Episode, x: Extraction, screens: Episode -> (Candidate -> Screen), now: int): Db {
    if (ep.tenant, ep.hash) in db.ingest then db
    else
      var b := Verified(x.candidates, screens(ep));
      Committing.Commit(db, ep, ProposalsOf(b.accepted, ep, now), |b.rejected|)
  }
}
