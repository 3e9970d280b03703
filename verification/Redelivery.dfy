/** At-least-once delivery end to end: any number of deliveries and API requests in flight at once, each stopping
    anywhere, acknowledgements lost, messages delivered again while an earlier delivery is still being processed. */
module Redelivery {
  import opened Text
  import opened Records
  import opened Merging
  import opened Verifying
  import opened Database
  import opened Committing
  import opened Convergence
  import opened Maintaining
  import opened Delivery
  import opened History
  import opened Transactions
  import opened Refusals

  datatype Config = Config(maxDeliver: nat, screens: Episode -> (Candidate -> Screen))

  /** Where a job came from: the given delivery of a message, or an API request. */
  datatype Source = Bus(message: nat, delivery: nat) | Api

  /** How far a job has come: received; found not processed; ready to commit; ended. */
  datatype Phase = Received | Unseen | Ready(ps: seq<Proposal>, rejected: nat) | Ended(ok: bool)

  datatype Worker = Worker(source: Source, job: Job, phase: Phase)
  {
    /** Between the idempotency check and the commit of an episode. */
    predicate Midway() {
      job.Learn? && (phase.Unseen? || phase.Ready?)
    }

    function Key(): (string, string)
      requires job.Learn?
    {
      (job.ep.tenant, job.ep.hash)
    }
  }

  datatype State = State(
    db: Db,
    stream: seq<Payload>,
    delivered: seq<nat>,  // how often each message has been delivered
    settled: seq<Option<Verdict>>,  // acknowledged or terminated
    workers: map<nat, Worker>)

  const START := State(EMPTY, [], [], [], map[])

  datatype Step =
    | Publish(payload: Payload)
    | Deliver(message: nat, w: nat, now: int)
    | Request(w: nat, ep: Episode)
    | Check(w: nat, up: bool)
    | Extract(w: nat, x: Extraction, now: int)
    | Commit(w: nat, up: bool)
    | Delete(w: nat, up: bool)
    | Settle(w: nat, metadata: bool, arrives: bool)
    | Stop(w: nat)  // the job is lost: a crash, or a lost connection
    | Maintain(todo: seq<Stmt>)  // what other sessions write

  predicate At(w: State, id: nat, phase: Phase) {
    id in w.workers && w.workers[id].phase == phase
  }

  function Moved(w: State, id: nat, phase: Phase): State
    requires id in w.workers
  {
    w.(workers := w.workers[id := w.workers[id].(phase := phase)])
  }

  /** The verdict a job that ended sends. */
  function VerdictOf(worker: Worker, ok: bool, metadata: bool, maxDeliver: nat): Verdict {
    match worker.job
    case Drop(verdict) => verdict
    case Forget(_, _, _) => if ok then Ack else Nak
    case Learn(_) =>
      if ok then Ack
      else OnFailure(if metadata && worker.source.Bus? then Some(worker.source.delivery) else None, maxDeliver)
  }

  function WithoutWorker(w: State, id: nat): State {
    w.(workers := map k | k in w.workers && k != id :: w.workers[k])
  }

  /** One step. A step that is not enabled leaves the state alone; what the schema refuses is rolled back. */
  ghost function Next(cfg: Config, w: State, s: Step): State {
    match s
    case Publish(p) => w.(stream := w.stream + [p], delivered := w.delivered + [0], settled := w.settled + [None])
    case Deliver(m, id, now) =>
      if m >= |w.stream| || m >= |w.delivered| || m >= |w.settled| || w.settled[m].Some? ||
         w.delivered[m] >= cfg.maxDeliver || id in w.workers then w
      else
        var job := JobOf(w.stream[m], now);
        w.(delivered := w.delivered[m := w.delivered[m] + 1],
           workers := w.workers[id := Worker(Bus(m, w.delivered[m] + 1), job,
                                             if job.Drop? then Ended(true) else Received)])
    case Request(id, ep) =>
      if id in w.workers then w else w.(workers := w.workers[id := Worker(Api, Learn(ep), Received)])
    case Check(id, up) =>
      if !At(w, id, Received) || !w.workers[id].job.Learn? then w
      else if !up then Moved(w, id, Ended(false))
      else if w.workers[id].Key() in w.db.ingest then Moved(w, id, Ended(true))
      else Moved(w, id, Unseen)
    case Extract(id, x, now) =>
      if !At(w, id, Unseen) || !w.workers[id].job.Learn? then w
      else if x.Barren() then Moved(w, id, Ended(false))
      else
        var ep := w.workers[id].job.ep;
        var b := Verified(x.candidates, cfg.screens(ep));
        Moved(w, id, Ready(ProposalsOf(b.accepted, ep, now), |b.rejected|))
    case Commit(id, up) =>
      if !CommitReady(w, id) then w
      else if !up || !CommitLands(w, id) then Moved(w, id, Ended(false))
      else
        var t := w.workers[id];
        Moved(w, id, Ended(true)).(db := Committing.Commit(w.db, t.job.ep, t.phase.ps, t.phase.rejected))
    case Delete(id, up) =>
      if !DeleteReady(w, id) then w
      else if !up || !DeleteLands(w, id) then Moved(w, id, Ended(false))
      else
        var t := w.workers[id].job;
        Moved(w, id, Ended(true)).(db := Run(w.db, InvalidatePlan(w.db, t.tenant, t.document, t.at)))
    case Settle(id, metadata, arrives) =>
      if id !in w.workers || !w.workers[id].phase.Ended? then w
      else
        var t := w.workers[id];
        var verdict := VerdictOf(t, t.phase.ok, metadata, cfg.maxDeliver);
        var w' := WithoutWorker(w, id);
        if arrives && verdict != Nak && t.source.Bus? && t.source.message < |w.settled| &&
           w.settled[t.source.message].None? then
          w'.(settled := w.settled[t.source.message := Some(verdict)])
        else w'
    case Stop(id) => WithoutWorker(w, id)
    case Maintain(todo) => if KeepsIngest(todo) && Accepted(w.db, todo) then w.(db := Run(w.db, todo)) else w
  }

  predicate CommitReady(w: State, id: nat) {
    id in w.workers && w.workers[id].phase.Ready? && w.workers[id].job.Learn?
  }

  /** Ready to commit, and no constraint refuses it. */
  ghost predicate CommitLands(w: State, id: nat) {
    CommitReady(w, id) &&
    var t := w.workers[id];
    Accepted(w.db, CommitStmts(w.db, t.job.ep, t.phase.ps, t.phase.rejected))
  }

  predicate DeleteReady(w: State, id: nat) {
    At(w, id, Received) && w.workers[id].job.Forget?
  }

  ghost predicate DeleteLands(w: State, id: nat) {
    DeleteReady(w, id) &&
    var t := w.workers[id].job;
    Accepted(w.db, InvalidatePlan(w.db, t.tenant, t.document, t.at))
  }

  /** Other sessions leave the ingest log alone. */
  predicate KeepsIngest(todo: seq<Stmt>) {
    forall s :: s in todo ==> !s.LogIngest?
  }

  ghost function Reached(cfg: Config, steps: seq<Step>): State {
    if steps == [] then START else Next(cfg, Reached(cfg, steps[..|steps| - 1]), steps[|steps| - 1])
  }

  // ---- what happened at a step ----

  /** Step i of the run commits the given content. */
  ghost predicate Commits(cfg: Config, steps: seq<Step>, i: nat, key: (string, string)) {
    i < |steps| && steps[i].Commit? && steps[i].up &&
    var w := Reached(cfg, steps[..i]);
    CommitLands(w, steps[i].w) && w.workers[steps[i].w].Key() == key
  }

  /** Step i of the run invalidates what came from the given document. */
  ghost predicate Deletes(cfg: Config, steps: seq<Step>, i: nat, tenant: string, document: string) {
    i < |steps| && steps[i].Delete? && steps[i].up &&
    var w := Reached(cfg, steps[..i]);
    DeleteLands(w, steps[i].w) && w.workers[steps[i].w].job.tenant == tenant &&
    w.workers[steps[i].w].job.document == document
  }

  ghost predicate Committed(cfg: Config, steps: seq<Step>, key: (string, string)) {
    exists i :: 0 <= i < |steps| && Commits(cfg, steps, i, key)
  }

  ghost predicate Deleted(cfg: Config, steps: seq<Step>, tenant: string, document: string) {
    exists i :: 0 <= i < |steps| && Deletes(cfg, steps, i, tenant, document)
  }

  lemma Earlier(cfg: Config, steps: seq<Step>, s: Step)
    ensures Reached(cfg, steps + [s]) == Next(cfg, Reached(cfg, steps), s)
    ensures forall i, key :: Commits(cfg, steps, i, key) ==> Commits(cfg, steps + [s], i, key)
    ensures forall i, tenant, document :: Deletes(cfg, steps, i, tenant, document) ==>
              Deletes(cfg, steps + [s], i, tenant, document)
    ensures forall key :: Committed(cfg, steps, key) ==> Committed(cfg, steps + [s], key)
    ensures forall tenant, document :: Deleted(cfg, steps, tenant, document) ==>
              Deleted(cfg, steps + [s], tenant, document)
  {
    hide Reached, Next, CommitLands, DeleteLands;
    assert (steps + [s])[..|steps|] == steps;
    assert Reached(cfg, steps + [s]) == Next(cfg, Reached(cfg, steps), s) by { ReachedSnoc(cfg, steps, s); }
    forall i | 0 <= i < |steps| ensures (steps + [s])[..i] == steps[..i] && (steps + [s])[i] == steps[i] {
    }
  }

  lemma ReachedSnoc(cfg: Config, steps: seq<Step>, s: Step)
    ensures Reached(cfg, steps + [s]) == Next(cfg, Reached(cfg, steps), s)
  {
    assert (steps + [s])[..|steps|] == steps;
  }

  // ---- the ingest log ----

  lemma {:induction false} RunKeepsIngest(db: Db, todo: seq<Stmt>)
    requires KeepsIngest(todo)
    ensures Run(db, todo).ingest == db.ingest
    decreases |todo|
  {
    if todo != [] {
      assert todo[0] in todo && forall s :: s in todo[1..] ==> s in todo;
      RunKeepsIngest(Apply(db, todo[0]), todo[1..]);
    }
  }

  lemma PlanKeepsIngest(db: Db, ep: Episode, p: Proposal)
    ensures KeepsIngest(PlanFor(db, ep, p).stmts)
  {
    hide IsRestatement, FindLive, MergeStrings, MergeAttrs, Stored;
  }

  lemma {:induction false} CommitAllKeepsIngest(db: Db, ep: Episode, ps: seq<Proposal>)
    ensures CommitAll(db, ep, ps).ingest == db.ingest
    decreases |ps|
  {
    hide PlanFor, Run;
    if ps != [] {
      PlanKeepsIngest(db, ep, ps[0]);
      RunKeepsIngest(db, PlanFor(db, ep, ps[0]).stmts);
      CommitAllKeepsIngest(CommitOne(db, ep, ps[0]), ep, ps[1..]);
    }
  }

  /** A commit enters exactly its own content into the ingest log. */
  lemma CommitLogs(db: Db, ep: Episode, ps: seq<Proposal>, rejected: nat)
    ensures Committing.Commit(db, ep, ps, rejected).ingest.Keys == db.ingest.Keys + {(ep.tenant, ep.hash)}
  {
    hide CommitAll;
    CommitAllKeepsIngest(Apply(db, SaveEpisode(ep)), ep, ps);
  }

  lemma DeletionKeepsIngest(db: Db, tenant: string, document: string, at: int)
    ensures Run(db, InvalidatePlan(db, tenant, document, at)).ingest == db.ingest
  {
    hide Run, InvalidatePlan;
    var plan := InvalidatePlan(db, tenant, document, at);
    forall s | s in plan ensures !s.LogIngest? {
      DeletionStmts(db, tenant, document, at, s);
    }
    RunKeepsIngest(db, plan);
  }

  /** What each step adds to the ingest log. */
  lemma IngestAfter(cfg: Config, w: State, s: Step)
    ensures var w' := Next(cfg, w, s);
            w'.db.ingest.Keys ==
            if s.Commit? && s.up && CommitLands(w, s.w) then w.db.ingest.Keys + {w.workers[s.w].Key()}
            else w.db.ingest.Keys
  {
    hide Verified, ProposalsOf, JobOf, Committing.Commit, Run, InvalidatePlan, VerdictOf, Accepted, CommitStmts;
    match s {
      case Commit(id, up) =>
        if CommitLands(w, id) {
          var t := w.workers[id];
          CommitLogs(w.db, t.job.ep, t.phase.ps, t.phase.rejected);
        }
      case Delete(id, up) =>
        if DeleteLands(w, id) {
          var t := w.workers[id].job;
          DeletionKeepsIngest(w.db, t.tenant, t.document, t.at);
        }
      case Maintain(todo) => if KeepsIngest(todo) { RunKeepsIngest(w.db, todo); }
      case _ =>
    }
  }

  /** The ingest log lists exactly the content that some step of the run committed. */
  lemma {:induction false} LoggedIffCommitted(cfg: Config, steps: seq<Step>, key: (string, string))
    ensures key in Reached(cfg, steps).db.ingest <==> Committed(cfg, steps, key)
    decreases |steps|
  {
    hide Next, Accepted, CommitStmts;
    if steps != [] {
      var n := |steps| - 1;
      var init, s := steps[..n], steps[n];
      assert steps == init + [s];
      Earlier(cfg, init, s);
      LoggedIffCommitted(cfg, init, key);
      IngestAfter(cfg, Reached(cfg, init), s);
      if i :| 0 <= i < |steps| && Commits(cfg, steps, i, key) {
        if i < n {
          assert steps[..i] == init[..i];
          assert Commits(cfg, init, i, key);
        }
      }
      if key in Reached(cfg, steps).db.ingest && key !in Reached(cfg, init).db.ingest {
        assert Commits(cfg, steps, n, key);
      }
    }
  }

  // ---- the invariant of every run ----

  predicate IsDelete(p: Payload) {
    p.Decoded? && p.ev.op == "delete"
  }

  /** The job is what the payload asks for. */
  predicate Fits(p: Payload, job: Job) {
    match job
    case Drop(_) => HashOf(p).None? && !IsDelete(p)
    case Forget(tenant, document, _) =>
      HashOf(p).None? && IsDelete(p) && p.ev.tenant == tenant && p.ev.document == document
    case Learn(ep) => HashOf(p) == Some((ep.tenant, ep.hash)) && !IsDelete(p)
  }

  lemma JobFits(p: Payload, now: int)
    ensures Fits(p, JobOf(p, now))
  {
    hide TrimSpace;
    ExtractableIff(p, now);
  }

  ghost predicate WorkerOk(cfg: Config, steps: seq<Step>, w: State, t: Worker) {
    && (t.source.Bus? ==>
          var m := t.source.message;
          m < |w.stream| && m < |w.delivered| && 1 <= t.source.delivery <= w.delivered[m] && Fits(w.stream[m], t.job))
    && (t.phase == Ended(true) && t.job.Learn? ==> Committed(cfg, steps, t.Key()))
    && (t.phase == Ended(true) && t.job.Forget? ==> Deleted(cfg, steps, t.job.tenant, t.job.document))
  }

  ghost predicate MessageOk(cfg: Config, steps: seq<Step>, w: State, m: nat)
    requires m < |w.stream| && m < |w.delivered| && m < |w.settled|
  {
    var p := w.stream[m];
    && w.delivered[m] <= cfg.maxDeliver
    && w.settled[m] != Some(Nak)
    && (w.settled[m] == Some(Ack) && HashOf(p).Some? ==> Committed(cfg, steps, HashOf(p).value))
    && (w.settled[m] == Some(Ack) && IsDelete(p) ==> Deleted(cfg, steps, p.ev.tenant, p.ev.document))
    && (w.settled[m] == Some(Term) ==> !IsDelete(p))
    && (w.settled[m] == Some(Term) && HashOf(p).Some? ==> w.delivered[m] == cfg.maxDeliver)
  }

  ghost predicate RunInv(cfg: Config, steps: seq<Step>, w: State) {
    && |w.delivered| == |w.settled| == |w.stream|
    && (forall id :: id in w.workers ==> WorkerOk(cfg, steps, w, w.workers[id]))
    && (forall m :: 0 <= m < |w.stream| ==> MessageOk(cfg, steps, w, m))
  }

  /** What is true of a run stays true of a longer one. */
  lemma RunInvLater(cfg: Config, steps: seq<Step>, w: State, s: Step)
    requires RunInv(cfg, steps, w)
    ensures RunInv(cfg, steps + [s], w)
  {
    hide Reached, Next, Committed, Deleted, HashOf, Fits;
    Earlier(cfg, steps, s);
    forall id | id in w.workers ensures WorkerOk(cfg, steps + [s], w, w.workers[id]) {
      assert WorkerOk(cfg, steps, w, w.workers[id]);
    }
    forall m | 0 <= m < |w.stream| ensures MessageOk(cfg, steps + [s], w, m) {
      assert MessageOk(cfg, steps, w, m);
    }
  }

  /** A worker's phase, and the database, may change as long as the ends it reaches are backed by a commit or a
      deletion. */
  lemma MoveOk(cfg: Config, steps: seq<Step>, w: State, w': State, id: nat)
    requires RunInv(cfg, steps, w) && id in w'.workers && WorkerOk(cfg, steps, w', w'.workers[id])
    requires w'.workers.Keys <= w.workers.Keys + {id}
    requires forall k :: k in w'.workers && k != id ==> w'.workers[k] == w.workers[k]
    requires w'.stream == w.stream && w'.settled == w.settled && |w'.delivered| == |w.delivered|
    requires forall m :: 0 <= m < |w.delivered| ==> w.delivered[m] <= w'.delivered[m] <= cfg.maxDeliver
    ensures RunInv(cfg, steps, w')
  {
    hide Committed, Deleted, HashOf, Fits, IsDelete;
    forall k | k in w'.workers ensures WorkerOk(cfg, steps, w', w'.workers[k]) {
      if k != id {
        assert WorkerOk(cfg, steps, w, w.workers[k]);
      }
    }
    forall m | 0 <= m < |w'.stream| ensures MessageOk(cfg, steps, w', m) {
      assert MessageOk(cfg, steps, w, m);
    }
  }

  lemma PublishOk(cfg: Config, steps: seq<Step>, w: State, p: Payload)
    requires RunInv(cfg, steps, w)
    ensures RunInv(cfg, steps, Next(cfg, w, Publish(p)))
  {
    hide Committed, Deleted, HashOf, Fits, IsDelete, Accepted, CommitStmts;
    var w' := Next(cfg, w, Publish(p));
    forall k | k in w'.workers ensures WorkerOk(cfg, steps, w', w'.workers[k]) {
      assert WorkerOk(cfg, steps, w, w.workers[k]);
    }
    forall m | 0 <= m < |w'.stream| ensures MessageOk(cfg, steps, w', m) {
      if m < |w.stream| { assert MessageOk(cfg, steps, w, m); }
    }
  }

  lemma SettleOk(cfg: Config, steps: seq<Step>, w: State, id: nat, metadata: bool, arrives: bool)
    requires RunInv(cfg, steps, w)
    ensures RunInv(cfg, steps, Next(cfg, w, Settle(id, metadata, arrives)))
  {
    hide Committed, Deleted, HashOf, Accepted, CommitStmts;
    var w' := Next(cfg, w, Settle(id, metadata, arrives));
    forall k | k in w'.workers ensures WorkerOk(cfg, steps, w', w'.workers[k]) {
      assert WorkerOk(cfg, steps, w, w.workers[k]);
    }
    forall m | 0 <= m < |w'.stream| ensures MessageOk(cfg, steps, w', m) {
      assert MessageOk(cfg, steps, w, m);
      if w'.settled[m] != w.settled[m] {
        assert WorkerOk(cfg, steps, w, w.workers[id]);
      }
    }
  }

  lemma StopOk(cfg: Config, steps: seq<Step>, w: State, id: nat)
    requires RunInv(cfg, steps, w)
    ensures RunInv(cfg, steps, WithoutWorker(w, id))
  {
    hide Committed, Deleted, HashOf, Fits, IsDelete;
    var w' := WithoutWorker(w, id);
    forall k | k in w'.workers ensures WorkerOk(cfg, steps, w', w'.workers[k]) {
      assert WorkerOk(cfg, steps, w, w.workers[k]);
    }
    forall m | 0 <= m < |w'.stream| ensures MessageOk(cfg, steps, w', m) {
      assert MessageOk(cfg, steps, w, m);
    }
  }

  /** Steps of a worker that has the job in hand. */
  lemma WorkOk(cfg: Config, steps: seq<Step>, s: Step)
    requires s.Check? || s.Extract? || s.Commit? || s.Delete?
    requires RunInv(cfg, steps + [s], Reached(cfg, steps))
    ensures RunInv(cfg, steps + [s], Next(cfg, Reached(cfg, steps), s))
  {
    hide Reached, HashOf, Fits, IsDelete, Verified, ProposalsOf, Committing.Commit, Run, InvalidatePlan, MessageOk,
         Commits, Deletes, Accepted, CommitStmts;
    var w := Reached(cfg, steps);
    var w' := Next(cfg, w, s);
    Earlier(cfg, steps, s);
    if s.w in w.workers && w' != w {
      var t := w.workers[s.w];
      assert WorkerOk(cfg, steps + [s], w, t);
      if s.Check? && w'.workers[s.w].phase == Ended(true) {
        LoggedIffCommitted(cfg, steps, t.Key());
      }
      EndsAreBacked(cfg, steps, s);
      RunInvDelivered(cfg, steps + [s], w);
      MoveOk(cfg, steps + [s], w, w', s.w);
    }
  }

  lemma RunInvDelivered(cfg: Config, steps: seq<Step>, w: State)
    requires RunInv(cfg, steps, w)
    ensures forall m :: 0 <= m < |w.delivered| ==> w.delivered[m] <= cfg.maxDeliver
  {
    forall m | 0 <= m < |w.delivered| ensures w.delivered[m] <= cfg.maxDeliver {
      assert MessageOk(cfg, steps, w, m);
    }
  }

  lemma EndsAreBacked(cfg: Config, steps: seq<Step>, s: Step)
    ensures var w := Reached(cfg, steps);
            && (s.Commit? && s.up && CommitLands(w, s.w) ==> Committed(cfg, steps + [s], w.workers[s.w].Key()))
            && (s.Delete? && s.up && DeleteLands(w, s.w) ==>
                  var t := w.workers[s.w].job; Deleted(cfg, steps + [s], t.tenant, t.document))
  {
    hide Reached, Accepted, CommitStmts;
    var w := Reached(cfg, steps);
    assert (steps + [s])[..|steps|] == steps;
    if s.Commit? && s.up && CommitLands(w, s.w) {
      assert Commits(cfg, steps + [s], |steps|, w.workers[s.w].Key());
    }
    if s.Delete? && s.up && DeleteLands(w, s.w) {
      assert Deletes(cfg, steps + [s], |steps|, w.workers[s.w].job.tenant, w.workers[s.w].job.document);
    }
  }

  lemma ReceiveOk(cfg: Config, steps: seq<Step>, w: State, s: Step)
    requires s.Deliver? || s.Request?
    requires RunInv(cfg, steps, w)
    ensures RunInv(cfg, steps, Next(cfg, w, s))
  {
    hide Committed, Deleted, HashOf, Fits, IsDelete, JobOf, MessageOk, Accepted, CommitStmts;
    var w' := Next(cfg, w, s);
    if w' != w {
      RunInvDelivered(cfg, steps, w);
      if s.Deliver? {
        JobFits(w.stream[s.message], s.now);
      }
      MoveOk(cfg, steps, w, w', s.w);
    }
  }

  lemma MaintainOk(cfg: Config, steps: seq<Step>, w: State, db: Db)
    requires RunInv(cfg, steps, w)
    ensures RunInv(cfg, steps, w.(db := db))
  {
    hide Committed, Deleted, HashOf, Fits, IsDelete, Accepted, CommitStmts;
    var w' := w.(db := db);
    forall k | k in w'.workers ensures WorkerOk(cfg, steps, w', w'.workers[k]) {
      assert WorkerOk(cfg, steps, w, w.workers[k]);
    }
    forall m | 0 <= m < |w'.stream| ensures MessageOk(cfg, steps, w', m) {
      assert MessageOk(cfg, steps, w, m);
    }
  }

  lemma {:induction false} RunOk(cfg: Config, steps: seq<Step>)
    ensures RunInv(cfg, steps, Reached(cfg, steps))
    decreases |steps|
  {
    hide RunInv, Next;
    if steps == [] {
      StartOk(cfg);
    } else {
      var init, s := steps[..|steps| - 1], steps[|steps| - 1];
      var w := Reached(cfg, init);
      assert steps == init + [s];
      RunOk(cfg, init);
      RunInvLater(cfg, init, w, s);
      match s {
        case Publish(p) => PublishOk(cfg, steps, w, p);
        case Deliver(_, _, _) => ReceiveOk(cfg, steps, w, s);
        case Request(_, _) => ReceiveOk(cfg, steps, w, s);
        case Settle(id, metadata, arrives) => SettleOk(cfg, steps, w, id, metadata, arrives);
        case Stop(id) => StopOk(cfg, steps, w, id); QuietNext(cfg, w, s);
        case Maintain(todo) => MaintainOk(cfg, steps, w, Run(w.db, todo)); QuietNext(cfg, w, s);
        case _ => WorkOk(cfg, init, s);
      }
    }
  }

  lemma QuietNext(cfg: Config, w: State, s: Step)
    ensures s.Stop? ==> Next(cfg, w, s) == WithoutWorker(w, s.w)
    ensures s.Maintain? ==> Next(cfg, w, s) == w || Next(cfg, w, s) == w.(db := Run(w.db, s.todo))
  {
    hide Run, WithoutWorker, Accepted, CommitStmts;
  }

  lemma StartOk(cfg: Config)
    ensures RunInv(cfg, [], Reached(cfg, []))
  {
  }

  // ---- what holds in every run ----

  /** Step e of the run extracted and verified, for the worker, what it is now ready to commit. */
  ghost predicate Prepared(cfg: Config, steps: seq<Step>, e: nat, id: nat, ep: Episode, ready: Phase) {
    && e < |steps| && steps[e].Extract? && steps[e].w == id && (steps[e].x.candidates != [] || steps[e].x.errors == 0)
    && At(Reached(cfg, steps[..e]), id, Unseen) && Reached(cfg, steps[..e]).workers[id].job == Learn(ep)
    && ready == Batched(cfg, ep, steps[e].x, steps[e].now)
  }

  /** What verifying an extraction makes ready: its accepted candidates as proposals, and how many it rejected. */
  function Batched(cfg: Config, ep: Episode, x: Extraction, now: int): (r: Phase)
    ensures r.Ready?
  {
    var b := Verified(x.candidates, cfg.screens(ep));
    Ready(ProposalsOf(b.accepted, ep, now), |b.rejected|)
  }

  /** A worker that is ready was so before, or has just extracted. */
  lemma ReadyBefore(cfg: Config, w: State, s: Step, id: nat)
    requires var w' := Next(cfg, w, s); id in w'.workers && w'.workers[id].phase.Ready?
    ensures id in w.workers
    ensures w.workers[id] == Next(cfg, w, s).workers[id] ||
            (s.Extract? && s.w == id && !s.x.Barren() && At(w, id, Unseen) && w.workers[id].job.Learn? &&
             Next(cfg, w, s).workers[id].job == w.workers[id].job &&
             Next(cfg, w, s).workers[id].phase == Batched(cfg, w.workers[id].job.ep, s.x, s.now))
  {
    hide Verified, ProposalsOf, JobOf, Committing.Commit, Run, InvalidatePlan, VerdictOf, KeepsIngest, Accepted;
    hide CommitStmts;
  }

  lemma {:induction false} ReadyIsPrepared(cfg: Config, steps: seq<Step>, id: nat) returns (e: nat)
    requires id in Reached(cfg, steps).workers && Reached(cfg, steps).workers[id].phase.Ready?
    ensures var t := Reached(cfg, steps).workers[id]; t.job.Learn? && Prepared(cfg, steps, e, id, t.job.ep, t.phase)
    decreases |steps|
  {
    hide Next, Batched;
    var init, s := steps[..|steps| - 1], steps[|steps| - 1];
    assert steps == init + [s];
    ReadyBefore(cfg, Reached(cfg, init), s, id);
    if Reached(cfg, init).workers[id] == Reached(cfg, steps).workers[id] {
      e := ReadyIsPrepared(cfg, init, id);
      assert steps[..e] == init[..e] && steps[e] == init[e];
    } else {
      e := |init|;
      assert steps[e] == s && steps[..e] == init;
    }
  }

  /** What a commit step writes: the verified candidates of an earlier extraction by the same worker. */
  lemma CommitIsPrepared(cfg: Config, steps: seq<Step>, i: nat, key: (string, string))
    returns (e: nat, ep: Episode, ready: Phase)
    requires Commits(cfg, steps, i, key)
    ensures e < i < |steps| && (ep.tenant, ep.hash) == key && ready.Ready?
    ensures Prepared(cfg, steps, e, steps[i].w, ep, ready)
    ensures Reached(cfg, steps[..i + 1]).db ==
            Committing.Commit(Reached(cfg, steps[..i]).db, ep, ready.ps, ready.rejected)
  {
    hide Reached, Next, Committing.Commit, Accepted, CommitStmts, Batched;
    var t := Reached(cfg, steps[..i]).workers[steps[i].w];
    ep, ready := t.job.ep, t.phase;
    e := ReadyIsPrepared(cfg, steps[..i], steps[i].w);
    assert steps[..i][..e] == steps[..e] && steps[..i][e] == steps[e];
    assert steps[..i + 1] == steps[..i] + [steps[i]];
    ReachedSnoc(cfg, steps[..i], steps[i]);
    CommitStep(cfg, Reached(cfg, steps[..i]), steps[i]);
  }

  /** However often messages are delivered, and whatever is lost on the way: an acknowledged extractable message has
      its tenant and hash in the ingest log, and what was committed under them, at step i of the run, is exactly what
      the verifier accepted of what step e had extracted for that episode. */
  lemma AckedIsCommitted(cfg: Config, steps: seq<Step>, m: nat) returns (i: nat, e: nat, ep: Episode)
    requires var w := Reached(cfg, steps);
             m < |w.stream| && m < |w.settled| && w.settled[m] == Some(Ack) && HashOf(w.stream[m]).Some?
    ensures var key := HashOf(Reached(cfg, steps).stream[m]).value;
            && key in Reached(cfg, steps).db.ingest && (ep.tenant, ep.hash) == key
            && Commits(cfg, steps, i, key)
    ensures e < i && steps[e].Extract? && steps[e].w == steps[i].w
    ensures steps[e].x.candidates != [] || steps[e].x.errors == 0
    ensures var b := Verified(steps[e].x.candidates, cfg.screens(ep));
            Reached(cfg, steps[..i + 1]).db ==
            Committing.Commit(Reached(cfg, steps[..i]).db, ep, ProposalsOf(b.accepted, ep, steps[e].now), |b.rejected|)
  {
    hide Reached, Next, HashOf, Committing.Commit, Accepted, CommitStmts, Verified, ProposalsOf;
    RunOk(cfg, steps);
    var w := Reached(cfg, steps);
    assert MessageOk(cfg, steps, w, m);
    var key := HashOf(w.stream[m]).value;
    LoggedIffCommitted(cfg, steps, key);
    i :| 0 <= i < |steps| && Commits(cfg, steps, i, key);
    var ready;
    e, ep, ready := CommitIsPrepared(cfg, steps, i, key);
  }

  /** No commit of any run reinforces a row of its own. */
  lemma RunNeverReinforcesItself(cfg: Config, steps: seq<Step>, i: nat, key: (string, string))
    returns (ep: Episode, ps: seq<Proposal>, rejected: nat)
    requires Commits(cfg, steps, i, key)
    ensures var db := Reached(cfg, steps[..i]).db;
            && Reached(cfg, steps[..i + 1]).db == Committing.Commit(db, ep, ps, rejected)
            && forall k :: 0 <= k < |ps| ==>
                 var plan := PlanFor(CommitAll(Apply(db, SaveEpisode(ep)), ep, ps[..k]), ep, ps[k]);
                 plan.outcome == Reinforced ==> plan.id < |db.rows|
  {
    hide Reached, Committing.Commit, Commits, CommitAll, PlanFor, Verified, ProposalsOf;
    var e, p, ready := CommitIsPrepared(cfg, steps, i, key);
    ep, ps, rejected := p, ready.ps, ready.rejected;
    var db := Apply(Reached(cfg, steps[..i]).db, SaveEpisode(ep));
    var cs, screen := steps[e].x.candidates, cfg.screens(ep);
    VerifiedCount(cs, screen, ep, steps[e].now);
    forall k | 0 <= k < |ps|
      ensures var plan := PlanFor(CommitAll(db, ep, ps[..k]), ep, ps[k]);
              plan.outcome == Reinforced ==> plan.id < |db.rows|
    {
      NeverReinforcesItself(db, ep, cs, screen, steps[e].now, k);
    }
  }

  lemma VerifiedCount(cs: seq<Candidate>, screen: Candidate -> Screen, ep: Episode, now: int)
    ensures |ProposalsOf(Verified(cs, screen).accepted, ep, now)| == |Verified(cs, screen).accepted|
  {
    hide Verified;
  }

  lemma CommitStep(cfg: Config, w: State, s: Step)
    requires s.Commit? && s.up && CommitLands(w, s.w)
    ensures var t := w.workers[s.w];
            Next(cfg, w, s).db == Committing.Commit(w.db, t.job.ep, t.phase.ps, t.phase.rejected)
  {
    hide Committing.Commit, Accepted, CommitStmts;
  }

  /** No message is delivered more than MaxDeliver times, and an extractable one is terminated only when all its
      deliveries are spent. */
  lemma TermedIsExhausted(cfg: Config, steps: seq<Step>, m: nat)
    requires m < |Reached(cfg, steps).stream|
    ensures var w := Reached(cfg, steps);
            && |w.delivered| == |w.settled| == |w.stream|
            && w.delivered[m] <= cfg.maxDeliver
            && (w.settled[m] == Some(Term) && HashOf(w.stream[m]).Some? ==> w.delivered[m] == cfg.maxDeliver)
  {
    hide Reached, HashOf, WorkerOk;
    RunOk(cfg, steps);
    assert MessageOk(cfg, steps, Reached(cfg, steps), m);
  }

  /** What settling does to a message not settled yet: a job that went well is acknowledged, a dropped message gets the
      verdict it was dropped with, a failed episode is terminated exactly when the metadata shows its last delivery, and
      anything else leaves the message to be delivered again. */
  lemma SettleExact(cfg: Config, w: State, id: nat, metadata: bool, arrives: bool, m: nat)
    requires id in w.workers && w.workers[id].phase.Ended? && w.workers[id].source.Bus?
    requires m == w.workers[id].source.message && m < |w.settled| && w.settled[m].None?
    ensures var t, w' := w.workers[id], Next(cfg, w, Settle(id, metadata, arrives));
            && |w'.settled| == |w.settled| && id !in w'.workers
            && (forall l :: 0 <= l < |w.settled| && l != m ==> w'.settled[l] == w.settled[l])
            && (w'.settled[m] == Some(Ack) <==>
                  arrives && if t.job.Drop? then t.job.verdict == Ack else t.phase.ok)
            && (w'.settled[m] == Some(Term) <==>
                  arrives &&
                  if t.job.Drop? then t.job.verdict == Term
                  else t.job.Learn? && !t.phase.ok && metadata && t.source.delivery >= cfg.maxDeliver)
            && w'.settled[m] != Some(Nak)
  {
    hide Verified, ProposalsOf, JobOf, Committing.Commit, Run, InvalidatePlan, KeepsIngest, Accepted, CommitStmts;
  }

  /** In every run: when the last delivery of an extractable message has failed, and its verdict arrives with metadata,
      the message is terminated; a failure before that leaves it unsettled. */
  lemma ExhaustedIsTermed(cfg: Config, steps: seq<Step>, id: nat, arrives: bool, metadata: bool)
    requires var w := Reached(cfg, steps);
             && id in w.workers && w.workers[id].phase == Ended(false) && w.workers[id].job.Learn?
             && w.workers[id].source.Bus?
    requires var w := Reached(cfg, steps);
             w.workers[id].source.message < |w.settled| ==> w.settled[w.workers[id].source.message].None?
    ensures var w := Reached(cfg, steps);
            var w', m := Reached(cfg, steps + [Settle(id, metadata, arrives)]), w.workers[id].source.message;
            && m < |w'.settled| == |w'.stream| && HashOf(w'.stream[m]).Some?
            && w.workers[id].source.delivery <= cfg.maxDeliver
            && (arrives && metadata && w.workers[id].source.delivery == cfg.maxDeliver ==> w'.settled[m] == Some(Term))
            && (!(arrives && metadata && w.workers[id].source.delivery == cfg.maxDeliver) ==> w'.settled[m].None?)
  {
    hide Reached, Next, HashOf, Committed, Deleted;
    RunOk(cfg, steps);
    RunOk(cfg, steps + [Settle(id, metadata, arrives)]);
    ReachedSnoc(cfg, steps, Settle(id, metadata, arrives));
    var w := Reached(cfg, steps);
    var m := w.workers[id].source.message;
    assert WorkerOk(cfg, steps, w, w.workers[id]);
    assert MessageOk(cfg, steps, w, m);
    SettleExact(cfg, w, id, metadata, arrives, m);
    SettleKeepsStream(cfg, w, id, metadata, arrives);
    var v := Reached(cfg, steps + [Settle(id, metadata, arrives)]).settled[m];
    match v {
      case None =>
      case Some(verdict) =>
        match verdict {
          case Ack =>
          case Nak =>
          case Term =>
        }
    }
  }

  lemma SettleKeepsStream(cfg: Config, w: State, id: nat, metadata: bool, arrives: bool)
    ensures Next(cfg, w, Settle(id, metadata, arrives)).stream == w.stream
  {
    hide VerdictOf;
  }

  /** A delete is never terminated, and once it is acknowledged some step of the run has invalidated the document. */
  lemma AckedDeleteRan(cfg: Config, steps: seq<Step>, m: nat)
    requires m < |Reached(cfg, steps).stream| && IsDelete(Reached(cfg, steps).stream[m])
    ensures var w := Reached(cfg, steps);
            && |w.settled| == |w.stream| && w.settled[m] != Some(Term)
            && (w.settled[m] == Some(Ack) ==> Deleted(cfg, steps, w.stream[m].ev.tenant, w.stream[m].ev.document))
  {
    hide Reached, HashOf, WorkerOk, Deleted;
    RunOk(cfg, steps);
    assert MessageOk(cfg, steps, Reached(cfg, steps), m);
  }

  /** A job that runs through without interruption does to the database exactly what Process does: nothing when its
      content was already processed or the extraction was barren, one commit of the verified candidates otherwise. */
  lemma UninterruptedIsProcess(cfg: Config, w: State, id: nat, x: Extraction, now: int)
    requires At(w, id, Received) && w.workers[id].job.Learn? && Inv(w.db) && Checked(w.db.rows)
    ensures var ep := w.workers[id].job.ep;
            Next(cfg, Next(cfg, Next(cfg, w, Check(id, true)), Extract(id, x, now)), Commit(id, true)).db ==
            if x.candidates == [] && x.errors > 0 then w.db else Ingested(w.db, ep, x, cfg.screens, now)
  {
    hide Verified, ProposalsOf, Committing.Commit, Inv, Checked, Accepted;
    hide CommitStmts;
    var b := Verified(x.candidates, cfg.screens(w.workers[id].job.ep));
    VerifiedNeverRefused(w.db, w.workers[id].job.ep, x.candidates, cfg.screens(w.workers[id].job.ep), now,
                         |b.rejected|);
  }

  // ---- failures leave no trace ----

  /** The worker whose step this is. */
  function ActorOf(s: Step): Option<nat> {
    match s
    case Publish(_) => None
    case Deliver(_, id, _) => Some(id)
    case Request(id, _) => Some(id)
    case Check(id, _) => Some(id)
    case Extract(id, _, _) => Some(id)
    case Commit(id, _) => Some(id)
    case Delete(id, _) => Some(id)
    case Settle(id, _, _) => Some(id)
    case Stop(id) => Some(id)
    case Maintain(_) => None
  }

  /** From step `from` on, no step of the worker changes the database. */
  ghost predicate Traceless(cfg: Config, steps: seq<Step>, id: nat, from: nat) {
    forall i :: from <= i < |steps| && ActorOf(steps[i]) == Some(id) ==>
      Reached(cfg, steps[..i + 1]).db == Reached(cfg, steps[..i]).db
  }

  lemma TracelessSnoc(cfg: Config, steps: seq<Step>, s: Step, id: nat, from: nat)
    requires Traceless(cfg, steps, id, from)
    requires ActorOf(s) == Some(id) ==> Next(cfg, Reached(cfg, steps), s).db == Reached(cfg, steps).db
    ensures Traceless(cfg, steps + [s], id, from)
  {
    hide Reached, Next, ActorOf;
    ReachedSnoc(cfg, steps, s);
    forall i | from <= i < |steps + [s]| && ActorOf((steps + [s])[i]) == Some(id)
      ensures Reached(cfg, (steps + [s])[..i + 1]).db == Reached(cfg, (steps + [s])[..i]).db
    {
      if i < |steps| {
        assert (steps + [s])[..i + 1] == steps[..i + 1] && (steps + [s])[..i] == steps[..i];
      } else {
        assert (steps + [s])[..i + 1] == steps + [s] && (steps + [s])[..i] == steps;
      }
    }
  }

  /** The worker did not end well at this step: it was there before and did not end well then, or it has just come. */
  lemma UnsuccessfulStep(cfg: Config, w: State, s: Step, id: nat)
    requires var w' := Next(cfg, w, s); id in w'.workers && w'.workers[id].phase != Ended(true)
    ensures (ActorOf(s) == Some(id) ==> Next(cfg, w, s).db == w.db)
    ensures if id in w.workers then w.workers[id].phase != Ended(true)
            else (s.Deliver? || s.Request?) && ActorOf(s) == Some(id)
  {
    hide Verified, ProposalsOf, JobOf, Committing.Commit, Run, InvalidatePlan, VerdictOf, KeepsIngest, Accepted;
    hide CommitStmts;
  }

  /** A job that failed, or has not come to its end, has left no trace in the database since it arrived. */
  lemma {:induction false} FailureLeavesNoTrace(cfg: Config, steps: seq<Step>, id: nat) returns (from: nat)
    requires id in Reached(cfg, steps).workers && Reached(cfg, steps).workers[id].phase != Ended(true)
    ensures from < |steps| && (steps[from].Deliver? || steps[from].Request?) && ActorOf(steps[from]) == Some(id)
    ensures id !in Reached(cfg, steps[..from]).workers && Traceless(cfg, steps, id, from)
    decreases |steps|
  {
    hide Next, Traceless, ActorOf;
    var init, s := steps[..|steps| - 1], steps[|steps| - 1];
    assert steps == init + [s];
    var w := Reached(cfg, init);
    UnsuccessfulStep(cfg, w, s, id);
    if id in w.workers {
      from := FailureLeavesNoTrace(cfg, init, id);
      TracelessSnoc(cfg, init, s, id, from);
      assert steps[..from] == init[..from];
    } else {
      from := |init|;
      TracelessNow(cfg, init, id);
      TracelessSnoc(cfg, init, s, id, from);
    }
  }

  lemma TracelessNow(cfg: Config, steps: seq<Step>, id: nat)
    ensures Traceless(cfg, steps, id, |steps|)
  {
  }

  // ---- when content is committed twice ----

  lemma MidwayBefore(cfg: Config, w: State, s: Step, id: nat)
    requires var w' := Next(cfg, w, s); id in w'.workers && w'.workers[id].Midway()
    ensures id in w.workers && w.workers[id].job == Next(cfg, w, s).workers[id].job
    ensures w.workers[id].Midway() || (s == Check(id, true) && w.workers[id].Key() !in w.db.ingest)
  {
    hide Verified, ProposalsOf, JobOf, Committing.Commit, Run, InvalidatePlan, VerdictOf, KeepsIngest, Accepted;
    hide CommitStmts;
  }

  /** From just after step c on, the worker is between check and commit with the same job. */
  ghost predicate MidwaySince(cfg: Config, steps: seq<Step>, id: nat, c: nat, job: Job) {
    forall k :: c < k <= |steps| ==>
      var w := Reached(cfg, steps[..k]);
      id in w.workers && w.workers[id].Midway() && w.workers[id].job == job
  }

  /** The check that let a worker pass. */
  lemma {:induction false} LastCheck(cfg: Config, steps: seq<Step>, id: nat) returns (c: nat)
    requires id in Reached(cfg, steps).workers && Reached(cfg, steps).workers[id].Midway()
    ensures c < |steps| && steps[c] == Check(id, true)
    ensures Reached(cfg, steps).workers[id].Key() !in Reached(cfg, steps[..c]).db.ingest
    ensures MidwaySince(cfg, steps, id, c, Reached(cfg, steps).workers[id].job)
    decreases |steps|
  {
    hide Next;
    var init, s := steps[..|steps| - 1], steps[|steps| - 1];
    assert steps == init + [s] && steps[..|steps|] == steps;
    var w := Reached(cfg, init);
    MidwayBefore(cfg, w, s, id);
    if w.workers[id].Midway() {
      c := LastCheck(cfg, init, id);
      assert steps[..c] == init[..c];
      forall k | c < k <= |steps|
        ensures var w := Reached(cfg, steps[..k]);
                id in w.workers && w.workers[id].Midway() && w.workers[id].job == Reached(cfg, steps).workers[id].job
      {
        if k <= |init| { assert steps[..k] == init[..k]; }
      }
    } else {
      c := |init|;
    }
  }

  /** A commit repeats earlier content exactly when another commit of that content came between this call's check and
      its commit; all that time the call is under way. */
  lemma RepeatIff(cfg: Config, steps: seq<Step>, j: nat, key: (string, string)) returns (c: nat)
    requires Commits(cfg, steps, j, key)
    ensures c < j && steps[c] == Check(steps[j].w, true)
    ensures (exists i :: 0 <= i < j && Commits(cfg, steps, i, key)) <==>
            (exists i :: c < i < j && Commits(cfg, steps, i, key))
    ensures forall k :: c < k <= j ==>
              var w := Reached(cfg, steps[..k]);
              steps[j].w in w.workers && w.workers[steps[j].w].Midway() && w.workers[steps[j].w].Key() == key
  {
    hide Reached, Accepted, CommitStmts;
    var before := steps[..j];
    c := LastCheck(cfg, before, steps[j].w);
    assert before[..c] == steps[..c];
    forall k | c < k <= j ensures before[..k] == steps[..k] {
    }
    NotLoggedNotCommitted(cfg, steps, c, key);
  }

  lemma NotLoggedNotCommitted(cfg: Config, steps: seq<Step>, c: nat, key: (string, string))
    requires c <= |steps| && key !in Reached(cfg, steps[..c]).db.ingest
    ensures forall i :: 0 <= i < c ==> !Commits(cfg, steps, i, key)
  {
    hide Reached, Commits;
    forall i | 0 <= i < c ensures !Commits(cfg, steps, i, key) {
      if Commits(cfg, steps, i, key) {
        CommittedIsLogged(cfg, steps, i, c, key);
        assert false;
      }
    }
  }

  lemma CommittedIsLogged(cfg: Config, steps: seq<Step>, i: nat, c: nat, key: (string, string))
    requires i < c <= |steps| && Commits(cfg, steps, i, key)
    ensures key in Reached(cfg, steps[..c]).db.ingest
  {
    hide Reached;
    assert steps[..c][..i] == steps[..i];
    assert Commits(cfg, steps[..c], i, key);
    LoggedIffCommitted(cfg, steps[..c], key);
  }

  /** No two jobs on the same content are between check and commit at once. */
  predicate Exclusive(w: State) {
    forall a, b :: a in w.workers && b in w.workers && a != b && w.workers[a].Midway() && w.workers[b].Midway() ==>
      w.workers[a].Key() != w.workers[b].Key()
  }

  /** Without overlap no content is ever committed twice, however often it is delivered. */
  lemma CommittedOnce(cfg: Config, steps: seq<Step>, i: nat, j: nat, key: (string, string))
    requires forall n :: 0 <= n <= |steps| ==> Exclusive(Reached(cfg, steps[..n]))
    requires i < j && Commits(cfg, steps, i, key)
    ensures !Commits(cfg, steps, j, key)
  {
    hide Reached, Next, Accepted, CommitStmts;
    if Commits(cfg, steps, j, key) {
      var c := RepeatIff(cfg, steps, j, key);
      var k :| c < k < j && Commits(cfg, steps, k, key);
      assert Exclusive(Reached(cfg, steps[..k]));
      assert steps[k].w == steps[j].w;
      assert steps[..k + 1] == steps[..k] + [steps[k]];
      ReachedSnoc(cfg, steps[..k], steps[k]);
      CommitEnds(cfg, Reached(cfg, steps[..k]), steps[k]);
      assert false;
    }
  }

  lemma CommitEnds(cfg: Config, w: State, s: Step)
    requires s.Commit? && s.up && CommitLands(w, s.w)
    ensures var w' := Next(cfg, w, s); s.w in w'.workers && !w'.workers[s.w].Midway()
  {
    hide Committing.Commit, Accepted, CommitStmts;
  }

  /** A redelivery that overtakes a slow first delivery: both pass the check before either commits. */
  function Overlapping(p: Payload, x: Extraction, now: int): seq<Step> {
    [Publish(p), Deliver(0, 0, now), Deliver(0, 1, now), Check(0, true), Check(1, true), Extract(0, x, now),
     Extract(1, x, now), Commit(0, true), Commit(1, true)]
  }

  /** Two deliveries of the one message, under way. */
  function Both(db: Db, p: Payload, ep: Episode, a: Phase, b: Phase): State {
    State(db, [p], [2], [None], map[0 := Worker(Bus(0, 1), Learn(ep), a), 1 := Worker(Bus(0, 2), Learn(ep), b)])
  }

  /** Then one content is committed twice: any extractable message, given a second delivery. */
  lemma OverlapCommitsTwice(cfg: Config, p: Payload, x: Extraction, now: int)
    requires HashOf(p).Some? && !x.Barren() && cfg.maxDeliver >= 2
    ensures var steps := Overlapping(p, x, now);
            Commits(cfg, steps, 7, HashOf(p).value) && Commits(cfg, steps, 8, HashOf(p).value)
  {
    hide Reached, Next, Commits, Verified, ProposalsOf, JobOf, HashOf, Committing.Commit, Inv, Checked, Accepted;
    hide CommitStmts;
    ExtractableIff(p, now);
    var steps, ep := Overlapping(p, x, now), JobOf(p, now).ep;
    var b := Verified(x.candidates, cfg.screens(ep));
    var ready := Ready(ProposalsOf(b.accepted, ep, now), |b.rejected|);
    BothArrive(cfg, steps, p, x, now);
    assert EMPTY.ingest == map[];
    BothCheck(cfg, p, ep);
    NextReached(cfg, steps, 3, Both(EMPTY, p, ep, Received, Received), Both(EMPTY, p, ep, Unseen, Received));
    NextReached(cfg, steps, 4, Both(EMPTY, p, ep, Unseen, Received), Both(EMPTY, p, ep, Unseen, Unseen));
    BothExtract(cfg, p, ep, x, now);
    NextReached(cfg, steps, 5, Both(EMPTY, p, ep, Unseen, Unseen), Both(EMPTY, p, ep, ready, Unseen));
    NextReached(cfg, steps, 6, Both(EMPTY, p, ep, ready, Unseen), Both(EMPTY, p, ep, ready, ready));
    var db := Committing.Commit(EMPTY, ep, ready.ps, ready.rejected);
    EmptyInv(EMPTY);
    NothingChecked();
    VerifiedNeverRefused(EMPTY, ep, x.candidates, cfg.screens(ep), now, |b.rejected|);
    VerifiedNeverRefused(db, ep, x.candidates, cfg.screens(ep), now, |b.rejected|);
    CommitsNow(cfg, steps, 7, Both(EMPTY, p, ep, ready, ready));
    FirstCommits(cfg, p, ep, ready);
    NextReached(cfg, steps, 7, Both(EMPTY, p, ep, ready, ready), Both(db, p, ep, Ended(true), ready));
    CommitsNow(cfg, steps, 8, Both(db, p, ep, Ended(true), ready));
  }

  lemma NothingChecked()
    ensures Checked(EMPTY.rows)
  {
  }

  lemma BothArrive(cfg: Config, steps: seq<Step>, p: Payload, x: Extraction, now: int)
    requires HashOf(p).Some? && JobOf(p, now).Learn? && cfg.maxDeliver >= 2 && steps == Overlapping(p, x, now)
    ensures Reached(cfg, steps[..3]) == Both(EMPTY, p, JobOf(p, now).ep, Received, Received)
  {
    hide Reached, JobOf, HashOf, Accepted, CommitStmts;
    var first := Worker(Bus(0, 1), JobOf(p, now), Received);
    StartsEmpty(cfg);
    assert steps[..0] == [];
    var w1 := State(EMPTY, [p], [0], [None], map[]);
    NextReached(cfg, steps, 0, START, w1);
    var w2 := w1.(delivered := [1], workers := map[0 := first]);
    NextReached(cfg, steps, 1, w1, w2);
    NextReached(cfg, steps, 2, w2, Both(EMPTY, p, JobOf(p, now).ep, Received, Received));
  }

  lemma MovedBoth(db: Db, p: Payload, ep: Episode, a: Phase, b: Phase, c: Phase)
    ensures Moved(Both(db, p, ep, a, b), 0, c) == Both(db, p, ep, c, b)
    ensures Moved(Both(db, p, ep, a, b), 1, c) == Both(db, p, ep, a, c)
  {
    assert Moved(Both(db, p, ep, a, b), 0, c).workers == Both(db, p, ep, c, b).workers;
    assert Moved(Both(db, p, ep, a, b), 1, c).workers == Both(db, p, ep, a, c).workers;
  }

  lemma BothCheck(cfg: Config, p: Payload, ep: Episode)
    ensures Next(cfg, Both(EMPTY, p, ep, Received, Received), Check(0, true)) == Both(EMPTY, p, ep, Unseen, Received)
    ensures Next(cfg, Both(EMPTY, p, ep, Unseen, Received), Check(1, true)) == Both(EMPTY, p, ep, Unseen, Unseen)
  {
    MovedBoth(EMPTY, p, ep, Received, Received, Unseen);
    MovedBoth(EMPTY, p, ep, Unseen, Received, Unseen);
    hide Moved, Accepted, CommitStmts;
  }

  lemma BothExtract(cfg: Config, p: Payload, ep: Episode, x: Extraction, now: int)
    requires !x.Barren()
    ensures var b := Verified(x.candidates, cfg.screens(ep));
            var ready := Ready(ProposalsOf(b.accepted, ep, now), |b.rejected|);
            && Next(cfg, Both(EMPTY, p, ep, Unseen, Unseen), Extract(0, x, now)) == Both(EMPTY, p, ep, ready, Unseen)
            && Next(cfg, Both(EMPTY, p, ep, ready, Unseen), Extract(1, x, now)) == Both(EMPTY, p, ep, ready, ready)
  {
    hide Verified, ProposalsOf, Accepted, CommitStmts;
    var b := Verified(x.candidates, cfg.screens(ep));
    var ready := Ready(ProposalsOf(b.accepted, ep, now), |b.rejected|);
    MovedBoth(EMPTY, p, ep, Unseen, Unseen, ready);
    MovedBoth(EMPTY, p, ep, ready, Unseen, ready);
    hide Moved;
  }

  lemma FirstCommits(cfg: Config, p: Payload, ep: Episode, ready: Phase)
    requires ready.Ready? && Accepted(EMPTY, CommitStmts(EMPTY, ep, ready.ps, ready.rejected))
    ensures Next(cfg, Both(EMPTY, p, ep, ready, ready), Commit(0, true)) ==
            Both(Committing.Commit(EMPTY, ep, ready.ps, ready.rejected), p, ep, Ended(true), ready)
  {
    hide Committing.Commit, Accepted, CommitStmts;
    MovedBoth(EMPTY, p, ep, ready, ready, Ended(true));
    hide Moved;
  }

  lemma StartsEmpty(cfg: Config)
    ensures Reached(cfg, []) == START
  {
  }

  lemma CommitsNow(cfg: Config, steps: seq<Step>, i: nat, w: State)
    requires i < |steps| && Reached(cfg, steps[..i]) == w
    requires steps[i].Commit? && steps[i].up && CommitLands(w, steps[i].w)
    ensures Commits(cfg, steps, i, w.workers[steps[i].w].Key())
  {
    hide Accepted, CommitStmts;
  }

  lemma NextReached(cfg: Config, steps: seq<Step>, i: nat, w: State, w': State)
    requires i < |steps| && Reached(cfg, steps[..i]) == w && Next(cfg, w, steps[i]) == w'
    ensures Reached(cfg, steps[..i + 1]) == w'
  {
    hide Next;
    assert steps[..i + 1] == steps[..i] + [steps[i]];
    ReachedSnoc(cfg, steps[..i], steps[i]);
  }
}
