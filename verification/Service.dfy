/** The service as it is run: deliveries and API requests as in Redelivery, while the other sessions are decay sweeps,
    consolidations and further deletions, each decided on a state the store has been in. */
module Service {
  import opened Text
  import opened Records
  import opened Verifying
  import opened Database
  import opened Committing
  import opened Convergence
  import opened Maintaining
  import opened Delivery
  import opened History
  import opened Transactions
  import opened Refusals
  import opened Redelivery
  import World

  /** What a maintenance step carries out: nothing; the k-th write of the sweep that scanned the store before step
      `seen`; the folding of a group read there, whose key was listed before step `listed`; a deletion. */
  datatype Upkeep =
    | Idle
    | Decays(seen: nat, tenant: string, now: int, floor: real, factor: (Kind, int) -> real, k: nat)
    | Folds(listed: nat, seen: nat, minSize: int, now: int, g: Group, s: Summary, closedAt: int)
    | Forgets(tenant: string, document: string, at: int)

  ghost function DbAt(cfg: Config, steps: seq<Step>, n: nat): Db
    requires n <= |steps|
  {
    Reached(cfg, steps[..n]).db
  }

  /** The statements are what the upkeep issues in step i. */
  ghost predicate Issues(cfg: Config, steps: seq<Step>, i: nat, u: Upkeep, todo: seq<Stmt>)
    requires i <= |steps|
  {
    var db := DbAt(cfg, steps, i);
    match u
    case Idle => todo == []
    case Decays(seen, tenant, now, floor, factor, k) =>
      seen <= i && Fades(factor) &&
      var rows := DbAt(cfg, steps, seen).rows;
      var updates := Sweep(rows, tenant, now, Floor(floor), factor, |rows|);
      k < |updates| && todo == [AsStmt(updates[k])]
    case Folds(listed, seen, minSize, now, g, s, closedAt) =>
      listed <= i && seen <= i && Finds(DbAt(cfg, steps, listed).rows, DbAt(cfg, steps, seen).rows, minSize, now, g) &&
      ConsolidatePlan(|db.rows|, g, s, closedAt).Ok? && todo == ConsolidatePlan(|db.rows|, g, s, closedAt).value
    case Forgets(tenant, document, at) => todo == InvalidatePlan(db, tenant, document, at)
  }

  /** Every maintenance step of the run is one of the service's own. */
  ghost predicate Own(cfg: Config, steps: seq<Step>, upkeep: seq<Upkeep>) {
    && |upkeep| == |steps|
    && forall i :: 0 <= i < |steps| && steps[i].Maintain? ==> Issues(cfg, steps, i, upkeep[i], steps[i].todo)
  }

  /** The store is sound, and every earlier state is part of its history. */
  ghost predicate SoundAt(cfg: Config, steps: seq<Step>, n: nat)
    requires n <= |steps|
  {
    && Inv(DbAt(cfg, steps, n)) && Checked(DbAt(cfg, steps, n).rows)
    && forall k :: 0 <= k <= n ==> Grows(DbAt(cfg, steps, k), DbAt(cfg, steps, n))
  }

  // ---- each step keeps the store sound ----

  lemma {:induction false} AcceptedChecks(db: Db, todo: seq<Stmt>)
    requires Checked(db.rows) && Accepted(db, todo)
    ensures Checked(Run(db, todo).rows)
    decreases |todo|
  {
    hide Apply;
    if todo != [] {
      AcceptedChecks(Apply(db, todo[0]), todo[1..]);
    }
  }

  lemma {:induction false} CommitAllGrows(db: Db, ep: Episode, ps: seq<Proposal>)
    requires Inv(db)
    ensures Inv(CommitAll(db, ep, ps)) && Grows(db, CommitAll(db, ep, ps))
    decreases |ps|
  {
    hide Inv, Grows, CommitOne;
    if ps == [] {
      GrowsReflexive(db);
    } else {
      CommitOneKeepsInv(db, ep, ps[0]);
      CommitAllGrows(CommitOne(db, ep, ps[0]), ep, ps[1..]);
      GrowsTransitive(db, CommitOne(db, ep, ps[0]), CommitAll(db, ep, ps));
    }
  }

  lemma CommitGrows(db: Db, ep: Episode, ps: seq<Proposal>, rejected: nat)
    requires Inv(db)
    ensures Grows(db, Committing.Commit(db, ep, ps, rejected))
  {
    hide Inv, Grows, Apply, CommitAll;
    var saved := Apply(db, SaveEpisode(ep));
    BookkeepingKeepsInv(db, SaveEpisode(ep));
    CommitAllGrows(saved, ep, ps);
    BookkeepingKeepsInv(CommitAll(saved, ep, ps), LogIngest(ep.tenant, ep.hash, ep.id, |ps|, rejected));
    GrowsTransitive(db, saved, CommitAll(saved, ep, ps));
    GrowsTransitive(db, CommitAll(saved, ep, ps), Committing.Commit(db, ep, ps, rejected));
  }

  /** A decay write the schema accepts, whatever has happened since its sweep scanned the store. */
  lemma LateDecayOk(db0: Db, db: Db, tenant: string, now: int, floor: real, factor: (Kind, int) -> real, k: nat)
    requires Checked(db0.rows) && Fades(factor) && Inv(db) && Checked(db.rows) && Grows(db0, db)
    requires k < |Sweep(db0.rows, tenant, now, floor, factor, |db0.rows|)|
    requires Accepted(db, [AsStmt(Sweep(db0.rows, tenant, now, floor, factor, |db0.rows|)[k])])
    ensures var db' := Run(db, [AsStmt(Sweep(db0.rows, tenant, now, floor, factor, |db0.rows|)[k])]);
            Inv(db') && Checked(db'.rows) && Grows(db, db')
  {
    hide Inv, Checked, Grows, Sweep, Apply, Constraints, AsStmt, Fades;
    var u := Sweep(db0.rows, tenant, now, floor, factor, |db0.rows|)[k];
    World.SweepIsOk(db0.rows, tenant, now, floor, factor, |db0.rows|);
    World.GrownKeys(db0, db);
    var s := AsStmt(u);
    assert [s][1..] == [];
    assert Run(db, [s]) == Run(Apply(db, s), []) == Apply(db, s);
    World.AllowedDecay(db, u);
    World.DecayKeepsInv(db, u);
    World.ConstraintsAreChecks(Apply(db, s).rows);
  }

  /** A consolidation of a group found in an earlier state. */
  lemma LateFoldOk(listed: Db, db0: Db, db: Db, minSize: int, now: int, g: Group, s: Summary, closedAt: int)
    requires Inv(listed) && Finds(listed.rows, db0.rows, minSize, now, g) && Grows(db0, db)
    requires Inv(db) && Checked(db.rows) && ConsolidatePlan(|db.rows|, g, s, closedAt).Ok?
    requires Accepted(db, ConsolidatePlan(|db.rows|, g, s, closedAt).value)
    ensures var db' := Run(db, ConsolidatePlan(|db.rows|, g, s, closedAt).value);
            Inv(db') && Checked(db'.rows) && Grows(db, db')
  {
    hide Checked, Grows, Run, ConsolidatePlan, Counted, SearchMatches, Accepted;
    GroupsAreEvents(listed.rows, db0.rows, minSize, now, g);
    assert GroupOk(db0.rows, g);
    hide Inv, Finds;
    GroupStaysOk(db0, db, g);
    ConsolidateKeepsInv(db, g, s, closedAt);
    AcceptedChecks(db, ConsolidatePlan(|db.rows|, g, s, closedAt).value);
  }

  lemma DeletionOk(db: Db, tenant: string, document: string, at: int)
    requires Inv(db) && Checked(db.rows) && Accepted(db, InvalidatePlan(db, tenant, document, at))
    ensures var db' := Run(db, InvalidatePlan(db, tenant, document, at));
            Inv(db') && Checked(db'.rows) && Grows(db, db')
  {
    hide Inv, Checked, Grows, Run, InvalidatePlan, Accepted;
    InvalidateKeepsInv(db, tenant, document, at);
    AcceptedChecks(db, InvalidatePlan(db, tenant, document, at));
  }

  lemma MaintainSound(cfg: Config, steps: seq<Step>, i: nat, u: Upkeep)
    requires i < |steps| && steps[i].Maintain? && Issues(cfg, steps, i, u, steps[i].todo)
    requires forall k :: 0 <= k <= i ==> SoundAt(cfg, steps, k)
    requires Accepted(DbAt(cfg, steps, i), steps[i].todo)
    ensures var db, db' := DbAt(cfg, steps, i), Run(DbAt(cfg, steps, i), steps[i].todo);
            Inv(db') && Checked(db'.rows) && Grows(db, db')
  {
    hide Inv, Checked, Grows, Run, InvalidatePlan, Accepted, Reached, Sweep, ConsolidatePlan, Finds, DbAt;
    var db := DbAt(cfg, steps, i);
    assert SoundAt(cfg, steps, i);
    match u {
      case Idle => GrowsReflexive(db); NothingRuns(db);
      case Decays(seen, tenant, now, floor, factor, k) =>
        assert SoundAt(cfg, steps, seen);
        LateDecayOk(DbAt(cfg, steps, seen), db, tenant, now, Floor(floor), factor, k);
      case Folds(listed, seen, minSize, now, g, s, closedAt) =>
        assert SoundAt(cfg, steps, listed) && SoundAt(cfg, steps, seen);
        LateFoldOk(DbAt(cfg, steps, listed), DbAt(cfg, steps, seen), db, minSize, now, g, s, closedAt);
      case Forgets(tenant, document, at) => DeletionOk(db, tenant, document, at);
    }
  }

  lemma NothingRuns(db: Db)
    ensures Run(db, []) == db
  {
  }

  /** What a step writes, if anything. */
  lemma WrittenBy(cfg: Config, w: State, s: Step)
    ensures var db' := Next(cfg, w, s).db;
            || db' == w.db
            || (s.Commit? && CommitLands(w, s.w) && s.up)
            || (s.Delete? && DeleteLands(w, s.w) &&
                var t := w.workers[s.w].job; db' == Run(w.db, InvalidatePlan(w.db, t.tenant, t.document, t.at)))
            || (s.Maintain? && Accepted(w.db, s.todo) && db' == Run(w.db, s.todo))
  {
    hide Verified, ProposalsOf, JobOf, Committing.Commit, Run, InvalidatePlan, VerdictOf, KeepsIngest, Accepted;
    hide CommitStmts;
  }

  lemma CommitSound(cfg: Config, steps: seq<Step>, i: nat)
    requires i < |steps| && steps[i].Commit? && steps[i].up && CommitLands(Reached(cfg, steps[..i]), steps[i].w)
    requires Inv(DbAt(cfg, steps, i)) && Checked(DbAt(cfg, steps, i).rows)
    ensures var db, db' := DbAt(cfg, steps, i), DbAt(cfg, steps, i + 1);
            Inv(db') && Checked(db'.rows) && Grows(db, db')
  {
    hide Inv, Checked, Grows, Reached, Committing.Commit, Accepted, CommitStmts, Verified, ProposalsOf;
    var key := Reached(cfg, steps[..i]).workers[steps[i].w].Key();
    var e, ep, ready := CommitIsPrepared(cfg, steps, i, key);
    var db, x := DbAt(cfg, steps, i), steps[e].x;
    VerifiedNeverRefused(db, ep, x.candidates, cfg.screens(ep), steps[e].now, ready.rejected);
    CommitGrows(db, ep, ready.ps, ready.rejected);
  }

  lemma StepSound(cfg: Config, steps: seq<Step>, upkeep: seq<Upkeep>, i: nat)
    requires Own(cfg, steps, upkeep) && i < |steps|
    requires forall k :: 0 <= k <= i ==> SoundAt(cfg, steps, k)
    ensures var db, db' := DbAt(cfg, steps, i), DbAt(cfg, steps, i + 1);
            Inv(db') && Checked(db'.rows) && Grows(db, db')
  {
    hide Inv, Checked, Grows, Reached, Next, Accepted, Issues, CommitLands, DeleteLands, Run, InvalidatePlan;
    var w, s := Reached(cfg, steps[..i]), steps[i];
    assert SoundAt(cfg, steps, i);
    assert steps[..i + 1] == steps[..i] + [s];
    ReachedSnoc(cfg, steps[..i], s);
    WrittenBy(cfg, w, s);
    if DbAt(cfg, steps, i + 1) == w.db {
      GrowsReflexive(w.db);
    } else if s.Commit? {
      CommitSound(cfg, steps, i);
    } else if s.Delete? {
      LandingIsAccepted(w, s.w);
      var t := w.workers[s.w].job;
      DeletionOk(w.db, t.tenant, t.document, t.at);
    } else {
      MaintainSound(cfg, steps, i, upkeep[i]);
    }
  }

  lemma LandingIsAccepted(w: State, id: nat)
    requires DeleteLands(w, id)
    ensures id in w.workers && w.workers[id].job.Forget?
    ensures var t := w.workers[id].job; Accepted(w.db, InvalidatePlan(w.db, t.tenant, t.document, t.at))
  {
  }

  // ---- what holds in every run of the service ----

  /** Whatever is delivered, redelivered, lost and interleaved, every state of the store satisfies the invariant of the
      history and the constraints of the schema, and contains every earlier state. */
  lemma {:induction false} StaysSound(cfg: Config, steps: seq<Step>, upkeep: seq<Upkeep>, n: nat)
    requires Own(cfg, steps, upkeep) && n <= |steps|
    ensures forall k :: 0 <= k <= n ==> SoundAt(cfg, steps, k)
  {
    hide Inv, Checked, Grows, Reached, Own, DbAt;
    if n == 0 {
      StartSound(cfg, steps);
    } else {
      StaysSound(cfg, steps, upkeep, n - 1);
      StepSound(cfg, steps, upkeep, n - 1);
      var db, db' := DbAt(cfg, steps, n - 1), DbAt(cfg, steps, n);
      assert SoundAt(cfg, steps, n - 1);
      forall k | 0 <= k <= n ensures Grows(DbAt(cfg, steps, k), db') {
        if k == n {
          GrowsReflexive(db');
        } else {
          GrowsTransitive(DbAt(cfg, steps, k), db, db');
        }
      }
    }
  }

  lemma StartSound(cfg: Config, steps: seq<Step>)
    ensures SoundAt(cfg, steps, 0)
  {
    hide Inv, Grows;
    assert steps[..0] == [];
    EmptyInv(EMPTY);
    GrowsReflexive(EMPTY);
  }

  /** A commit that is ready goes through whenever the store is up. */
  lemma ReadyCommitsLand(cfg: Config, steps: seq<Step>, upkeep: seq<Upkeep>, id: nat)
    requires Own(cfg, steps, upkeep) && CommitReady(Reached(cfg, steps), id)
    ensures CommitLands(Reached(cfg, steps), id)
  {
    hide Inv, Checked, Grows, Reached, Own, Accepted, CommitStmts, Verified, ProposalsOf;
    StaysSound(cfg, steps, upkeep, |steps|);
    assert SoundAt(cfg, steps, |steps|) && steps[..|steps|] == steps;
    var w := Reached(cfg, steps);
    var t := w.workers[id];
    var e := ReadyIsPrepared(cfg, steps, id);
    VerifiedNeverRefused(w.db, t.job.ep, steps[e].x.candidates, cfg.screens(t.job.ep), steps[e].now, t.phase.rejected);
  }

  /** Some memory whose only source is the document starts after the given time. */
  ghost predicate StartsLate(db: Db, tenant: string, document: string, at: int) {
    exists r :: r in Orphans(db, tenant, document) && at < db.rows[r].validFrom
  }

  /** A deletion goes through, with the store up, exactly when no memory it would close starts after its date. */
  lemma DeletionLandsIff(cfg: Config, steps: seq<Step>, upkeep: seq<Upkeep>, id: nat)
    requires Own(cfg, steps, upkeep) && DeleteReady(Reached(cfg, steps), id)
    ensures var w := Reached(cfg, steps);
            var t := w.workers[id].job;
            DeleteLands(w, id) <==> !StartsLate(w.db, t.tenant, t.document, t.at)
  {
    hide Inv, Checked, Grows, Reached, Own, Accepted, Orphans, InvalidatePlan;
    StaysSound(cfg, steps, upkeep, |steps|);
    assert SoundAt(cfg, steps, |steps|) && steps[..|steps|] == steps;
    var w := Reached(cfg, steps);
    var t := w.workers[id].job;
    DeletionRefusedIff(w.db, t.tenant, t.document, t.at);
  }

  // ---- a refused deletion ----

  /** Step i tries to carry out the given delete message. */
  ghost predicate Tries(cfg: Config, steps: seq<Step>, i: nat, m: nat) {
    i < |steps| && steps[i].Delete? && steps[i].up &&
    var w := Reached(cfg, steps[..i]);
    DeleteReady(w, steps[i].w) && w.workers[steps[i].w].source.Bus? && w.workers[steps[i].w].source.message == m
  }

  ghost predicate CarriesOut(cfg: Config, steps: seq<Step>, i: nat, m: nat) {
    Tries(cfg, steps, i, m) && DeleteLands(Reached(cfg, steps[..i]), steps[i].w)
  }

  ghost predicate CarriedOut(cfg: Config, steps: seq<Step>, m: nat) {
    exists i :: 0 <= i < |steps| && CarriesOut(cfg, steps, i, m)
  }

  lemma CarriedLater(cfg: Config, steps: seq<Step>, s: Step, m: nat)
    ensures CarriedOut(cfg, steps, m) ==> CarriedOut(cfg, steps + [s], m)
  {
    hide Reached, DeleteReady, DeleteLands;
    if i :| 0 <= i < |steps| && CarriesOut(cfg, steps, i, m) {
      assert (steps + [s])[..i] == steps[..i] && (steps + [s])[i] == steps[i];
      assert CarriesOut(cfg, steps + [s], i, m);
    }
  }

  /** The delete message p asks for, dated when it occurred. */
  function Dated(p: Payload): Job
    requires IsDelete(p)
  {
    Forget(p.ev.tenant, p.ev.document, p.ev.occurredAt)
  }

  /** Workers on message m have its job, and one ended well only if the message was carried out; likewise its
      acknowledgement. */
  ghost predicate DeleteOk(cfg: Config, steps: seq<Step>, w: State, m: nat, p: Payload)
    requires IsDelete(p)
  {
    && (forall id :: id in w.workers && w.workers[id].source.Bus? && w.workers[id].source.message == m ==>
          w.workers[id].job == Dated(p) && (w.workers[id].phase == Ended(true) ==> CarriedOut(cfg, steps, m)))
    && (m < |w.settled| && w.settled[m] == Some(Ack) ==> CarriedOut(cfg, steps, m))
  }

  lemma StepOnDelete(cfg: Config, w: State, s: Step, m: nat, p: Payload)
    requires IsDelete(p) && p.ev.occurredAt != 0 && (m < |w.stream| ==> w.stream[m] == p)
    ensures var w' := Next(cfg, w, s);
            forall id :: id in w'.workers && w'.workers[id].source.Bus? && w'.workers[id].source.message == m ==>
              || (w'.workers[id].job == Dated(p) && w'.workers[id].phase == Received)
              || (id in w.workers && w.workers[id].source == w'.workers[id].source &&
                  w.workers[id].job == w'.workers[id].job &&
                  (w'.workers[id].phase == Ended(true) && w.workers[id].job.Forget? ==>
                     w.workers[id].phase == Ended(true) || (s == Delete(id, true) && DeleteLands(w, id))))
  {
    hide Verified, ProposalsOf, Committing.Commit, Run, InvalidatePlan, VerdictOf, KeepsIngest, Accepted, CommitStmts;
    hide ToEpisode;
  }

  lemma StepOnSettled(cfg: Config, w: State, s: Step, m: nat)
    ensures var w' := Next(cfg, w, s);
            m < |w'.settled| && w'.settled[m] == Some(Ack) ==>
              || (m < |w.settled| && w.settled[m] == Some(Ack))
              || exists id :: id in w.workers && w.workers[id].source.Bus? && w.workers[id].source.message == m &&
                   (w.workers[id].job.Forget? ==> w.workers[id].phase == Ended(true))
  {
    hide Verified, ProposalsOf, Committing.Commit, Run, InvalidatePlan, KeepsIngest, Accepted, CommitStmts, JobOf;
  }

  lemma StreamStays(cfg: Config, w: State, s: Step, m: nat)
    requires m < |w.stream|
    ensures m < |Next(cfg, w, s).stream| && Next(cfg, w, s).stream[m] == w.stream[m]
  {
    hide Verified, ProposalsOf, Committing.Commit, Run, InvalidatePlan, KeepsIngest, Accepted, CommitStmts, JobOf;
    hide VerdictOf;
  }

  lemma {:induction false} DeleteRunOk(cfg: Config, steps: seq<Step>, m: nat, p: Payload)
    requires m < |Reached(cfg, steps).stream| ==> Reached(cfg, steps).stream[m] == p
    requires IsDelete(p) && p.ev.occurredAt != 0
    ensures DeleteOk(cfg, steps, Reached(cfg, steps), m, p)
    decreases |steps|
  {
    hide Next, CarriedOut, DeleteLands, IsDelete, Dated;
    if steps != [] {
      var init, s := steps[..|steps| - 1], steps[|steps| - 1];
      var w, w' := Reached(cfg, init), Reached(cfg, steps);
      assert steps == init + [s];
      if m < |w.stream| {
        StreamStays(cfg, w, s, m);
      }
      DeleteRunOk(cfg, init, m, p);
      CarriedLater(cfg, init, s, m);
      StepOnDelete(cfg, w, s, m, p);
      StepOnSettled(cfg, w, s, m);
      JobsAreDeletions(p);
      if s.Delete? && s.up && DeleteLands(w, s.w) {
        LandingIsAccepted(w, s.w);
        if w.workers[s.w].source.Bus? && w.workers[s.w].source.message == m {
          CarriedNow(cfg, init, s, m);
        }
      }
    }
  }

  lemma JobsAreDeletions(p: Payload)
    requires IsDelete(p)
    ensures Dated(p).Forget?
  {
  }

  lemma CarriedNow(cfg: Config, steps: seq<Step>, s: Step, m: nat)
    requires s.Delete? && s.up && DeleteLands(Reached(cfg, steps), s.w)
    requires var t := Reached(cfg, steps).workers[s.w]; t.source.Bus? && t.source.message == m
    ensures CarriedOut(cfg, steps + [s], m)
  {
    hide Reached, Accepted;
    assert (steps + [s])[..|steps|] == steps && (steps + [s])[|steps|] == s;
    assert CarriesOut(cfg, steps + [s], |steps|, m);
  }

  /** The date of a delete message is fixed: it is acknowledged only if, at one of its deliveries, no memory it would
      close started after that date. */
  lemma AckedDeleteFits(cfg: Config, steps: seq<Step>, upkeep: seq<Upkeep>, m: nat) returns (i: nat)
    requires Own(cfg, steps, upkeep) && m < |Reached(cfg, steps).stream|
    requires IsDelete(Reached(cfg, steps).stream[m]) && Reached(cfg, steps).stream[m].ev.occurredAt != 0
    requires m < |Reached(cfg, steps).settled| && Reached(cfg, steps).settled[m] == Some(Ack)
    ensures var e := Reached(cfg, steps).stream[m].ev;
            CarriesOut(cfg, steps, i, m) && !StartsLate(DbAt(cfg, steps, i), e.tenant, e.document, e.occurredAt)
  {
    hide Reached, Own, DeleteReady, DeleteLands, StartsLate;
    DeleteRunOk(cfg, steps, m, Reached(cfg, steps).stream[m]);
    i :| 0 <= i < |steps| && CarriesOut(cfg, steps, i, m);
    AttemptDated(cfg, steps, i, m);
    OwnPrefix(cfg, steps, upkeep, i);
    DeletionLandsIff(cfg, steps[..i], upkeep[..i], steps[i].w);
  }

  /** The job of an attempt is the one its message asks for. */
  lemma AttemptDated(cfg: Config, steps: seq<Step>, i: nat, m: nat)
    requires Tries(cfg, steps, i, m) && m < |Reached(cfg, steps).stream|
    requires IsDelete(Reached(cfg, steps).stream[m]) && Reached(cfg, steps).stream[m].ev.occurredAt != 0
    ensures Reached(cfg, steps[..i]).workers[steps[i].w].job == Dated(Reached(cfg, steps).stream[m])
  {
    hide Reached;
    RunOk(cfg, steps[..i]);
    assert WorkerOk(cfg, steps[..i], Reached(cfg, steps[..i]), Reached(cfg, steps[..i]).workers[steps[i].w]);
    StreamLater(cfg, steps, i, m);
    DeleteRunOk(cfg, steps[..i], m, Reached(cfg, steps).stream[m]);
  }

  lemma {:induction false} StreamLater(cfg: Config, steps: seq<Step>, i: nat, m: nat)
    requires i <= |steps| && m < |Reached(cfg, steps[..i]).stream|
    ensures m < |Reached(cfg, steps).stream|
    ensures Reached(cfg, steps).stream[m] == Reached(cfg, steps[..i]).stream[m]
    decreases |steps|
  {
    hide Next;
    if i < |steps| {
      var init := steps[..|steps| - 1];
      assert init[..i] == steps[..i];
      StreamLater(cfg, init, i, m);
      StreamStays(cfg, Reached(cfg, init), steps[|steps| - 1], m);
    } else {
      assert steps[..i] == steps;
    }
  }

  lemma OwnPrefix(cfg: Config, steps: seq<Step>, upkeep: seq<Upkeep>, i: nat)
    requires Own(cfg, steps, upkeep) && i <= |steps|
    ensures |upkeep| == |steps| && Own(cfg, steps[..i], upkeep[..i])
  {
    hide Reached, Finds, Sweep, ConsolidatePlan, InvalidatePlan;
    forall j: nat | j <= i ensures DbAt(cfg, steps[..i], j) == DbAt(cfg, steps, j) {
      assert steps[..i][..j] == steps[..j];
    }
    forall j | 0 <= j < i && steps[j].Maintain?
      ensures Issues(cfg, steps[..i], j, upkeep[..i][j], steps[..i][j].todo)
    {
      assert Issues(cfg, steps, j, upkeep[j], steps[j].todo);
    }
  }

  lemma Settlements(v: Option<Verdict>)
    ensures v.None? || v == Some(Ack) || v == Some(Nak) || v == Some(Term)
  {
    match v {
      case None =>
      case Some(verdict) =>
        match verdict {
          case Ack =>
          case Nak =>
          case Term =>
        }
    }
  }

  /** A deletion that finds such a memory at each of its deliveries changes nothing, is never acknowledged and never
      terminated: when its deliveries are spent, it is lost. */
  lemma RefusedDeletionIsLost(cfg: Config, steps: seq<Step>, upkeep: seq<Upkeep>, m: nat)
    requires Own(cfg, steps, upkeep) && m < |Reached(cfg, steps).stream|
    requires IsDelete(Reached(cfg, steps).stream[m]) && Reached(cfg, steps).stream[m].ev.occurredAt != 0
    requires var e := Reached(cfg, steps).stream[m].ev;
             forall i :: 0 <= i < |steps| && Tries(cfg, steps, i, m) ==>
               StartsLate(DbAt(cfg, steps, i), e.tenant, e.document, e.occurredAt)
    ensures m < |Reached(cfg, steps).settled| && Reached(cfg, steps).settled[m].None?
    ensures forall i :: 0 <= i < |steps| && Tries(cfg, steps, i, m) ==> DbAt(cfg, steps, i + 1) == DbAt(cfg, steps, i)
  {
    hide Reached, Own, StartsLate, Next, DeleteLands, DeleteReady;
    var w := Reached(cfg, steps);
    RunOk(cfg, steps);
    assert MessageOk(cfg, steps, w, m);
    if w.settled[m] == Some(Ack) {
      var i := AckedDeleteFits(cfg, steps, upkeep, m);
      assert false;
    }
    Settlements(w.settled[m]);
    forall i | 0 <= i < |steps| && Tries(cfg, steps, i, m)
      ensures DbAt(cfg, steps, i + 1) == DbAt(cfg, steps, i)
    {
      AttemptDated(cfg, steps, i, m);
      OwnPrefix(cfg, steps, upkeep, i);
      DeletionLandsIff(cfg, steps[..i], upkeep[..i], steps[i].w);
      assert steps[..i + 1] == steps[..i] + [steps[i]];
      ReachedSnoc(cfg, steps[..i], steps[i]);
      WrittenBy(cfg, Reached(cfg, steps[..i]), steps[i]);
    }
  }

  // ---- such a deletion can be reached ----

  /** One message is learned from, then a delete message for its document is delivered. */
  function LateDelete(p: Payload, del: Payload, x: Extraction, now: int): seq<Step> {
    [Publish(p), Deliver(0, 0, now), Check(0, true), Extract(0, x, now), Step.Commit(0, true), Publish(del),
     Deliver(1, 1, now), Delete(1, true)]
  }

  function Learning(db: Db, p: Payload, ep: Episode, phase: Phase): State {
    State(db, [p], [1], [None], map[0 := Worker(Bus(0, 1), Learn(ep), phase)])
  }

  function Deleting(db: Db, p: Payload, ep: Episode, del: Payload, phase: Phase): State
    requires IsDelete(del)
  {
    State(db, [p, del], [1, 1], [None, None],
          map[0 := Worker(Bus(0, 1), Learn(ep), Ended(true)), 1 := Worker(Bus(1, 1), Dated(del), phase)])
  }

  /** Any message from which one memory is extracted, followed by any deletion of its document that is dated before
      that memory starts: the deletion fails, and the memory stays. */
  lemma DeletionCanBeLost(cfg: Config, p: Payload, del: Payload, x: Extraction, now: int)
    requires JobOf(p, now).Learn? && HashOf(p).Some? && cfg.maxDeliver >= 1 && !x.Barren()
    requires IsDelete(del) && del.ev.occurredAt != 0
    requires var ep := JobOf(p, now).ep;
             var accepted := Verified(x.candidates, cfg.screens(ep)).accepted;
             && del.ev.tenant == ep.tenant && del.ev.document == ep.document
             && |accepted| == 1 && del.ev.occurredAt < accepted[0].validFrom
    ensures var steps := LateDelete(p, del, x, now);
            var w, w' := Reached(cfg, steps[..7]), Reached(cfg, steps);
            && DeleteReady(w, 1) && w.workers[1].source == Bus(1, 1)
            && At(w', 1, Ended(false)) && w'.db == w.db && |w.db.rows| == 1 && w.db.rows[0].Live()
  {
    hide Reached, Next, JobOf, HashOf, Verified, Committing.Commit, Accepted, CommitStmts, Batched, Inv, Checked;
    var steps, ep := LateDelete(p, del, x, now), JobOf(p, now).ep;
    var ready := Batched(cfg, ep, x, now);
    var db := Committing.Commit(EMPTY, ep, ready.ps, ready.rejected);
    LearnedOne(cfg, p, ep, x, now);
    LearnFirst(cfg, steps, p, del, x, now);
    NextReached(cfg, steps, 5, Learning(db, p, ep, Ended(true)),
                Learning(db, p, ep, Ended(true)).(stream := [p, del], delivered := [1, 0], settled := [None, None]))
      by { PublishSecond(cfg, db, p, ep, del); }
    NextReached(cfg, steps, 6,
                Learning(db, p, ep, Ended(true)).(stream := [p, del], delivered := [1, 0], settled := [None, None]),
                Deleting(db, p, ep, del, Received))
      by { DeliverSecond(cfg, db, p, ep, del, now); }
    NextReached(cfg, steps, 7, Deleting(db, p, ep, del, Received), Deleting(db, p, ep, del, Ended(false)))
      by { DeleteFails(cfg, db, p, ep, del); }
    assert steps[..8] == steps;
  }

  /** The store after the message: the one memory, which the deletion may not close. */
  lemma LearnedOne(cfg: Config, p: Payload, ep: Episode, x: Extraction, now: int)
    requires |Verified(x.candidates, cfg.screens(ep)).accepted| == 1
    ensures var ready := Batched(cfg, ep, x, now);
            var db := Committing.Commit(EMPTY, ep, ready.ps, ready.rejected);
            && |db.rows| == 1 && db.rows[0].Live()
            && Accepted(EMPTY, CommitStmts(EMPTY, ep, ready.ps, ready.rejected))
            && forall at :: at < Verified(x.candidates, cfg.screens(ep)).accepted[0].validFrom ==>
                 !Accepted(db, InvalidatePlan(db, ep.tenant, ep.document, at))
  {
    hide Verified, Committing.Commit, Accepted, CommitStmts, Inv, Checked, InvalidatePlan;
    var ready := Batched(cfg, ep, x, now);
    var cs, screen := x.candidates, cfg.screens(ep);
    var accepted := Verified(cs, screen).accepted;
    EmptyInv(EMPTY);
    NothingChecked();
    VerifiedNeverRefused(EMPTY, ep, cs, screen, now, ready.rejected);
    AcceptedAreDistinct(cs, screen);
    assert accepted[0] in accepted;
    var pr := ready.ps[0];
    assert ready.ps == [pr];
    OneMemory(ep, pr, ready.rejected);
    forall at | at < accepted[0].validFrom
      ensures var db := Committing.Commit(EMPTY, ep, ready.ps, ready.rejected);
              !Accepted(db, InvalidatePlan(db, ep.tenant, ep.document, at))
    {
      LateStartRefusesDeletion(ep, pr, ready.rejected, at);
    }
  }

  lemma LearnFirst(cfg: Config, steps: seq<Step>, p: Payload, del: Payload, x: Extraction, now: int)
    requires JobOf(p, now).Learn? && cfg.maxDeliver >= 1 && !x.Barren() && steps == LateDelete(p, del, x, now)
    requires var ready := Batched(cfg, JobOf(p, now).ep, x, now);
             Accepted(EMPTY, CommitStmts(EMPTY, JobOf(p, now).ep, ready.ps, ready.rejected))
    ensures var ep, ready := JobOf(p, now).ep, Batched(cfg, JobOf(p, now).ep, x, now);
            Reached(cfg, steps[..5]) ==
            Learning(Committing.Commit(EMPTY, ep, ready.ps, ready.rejected), p, ep, Ended(true))
  {
    hide Reached, Next, JobOf, Committing.Commit, Accepted, CommitStmts, Batched;
    var ep, ready := JobOf(p, now).ep, Batched(cfg, JobOf(p, now).ep, x, now);
    StartsEmpty(cfg);
    assert steps[..0] == [];
    FirstArrives(cfg, p, now);
    NextReached(cfg, steps, 0, START, State(EMPTY, [p], [0], [None], map[]));
    NextReached(cfg, steps, 1, State(EMPTY, [p], [0], [None], map[]), Learning(EMPTY, p, ep, Received));
    FirstWorks(cfg, p, ep, x, now);
    NextReached(cfg, steps, 2, Learning(EMPTY, p, ep, Received), Learning(EMPTY, p, ep, Unseen));
    NextReached(cfg, steps, 3, Learning(EMPTY, p, ep, Unseen), Learning(EMPTY, p, ep, ready));
    NextReached(cfg, steps, 4, Learning(EMPTY, p, ep, ready),
                Learning(Committing.Commit(EMPTY, ep, ready.ps, ready.rejected), p, ep, Ended(true)));
  }

  lemma FirstArrives(cfg: Config, p: Payload, now: int)
    requires JobOf(p, now).Learn? && cfg.maxDeliver >= 1
    ensures Next(cfg, START, Publish(p)) == State(EMPTY, [p], [0], [None], map[])
    ensures Next(cfg, State(EMPTY, [p], [0], [None], map[]), Deliver(0, 0, now)) ==
            Learning(EMPTY, p, JobOf(p, now).ep, Received)
  {
    hide JobOf;
  }

  lemma FirstWorks(cfg: Config, p: Payload, ep: Episode, x: Extraction, now: int)
    requires !x.Barren()
    requires var ready := Batched(cfg, ep, x, now); Accepted(EMPTY, CommitStmts(EMPTY, ep, ready.ps, ready.rejected))
    ensures var ready := Batched(cfg, ep, x, now);
            var db := Committing.Commit(EMPTY, ep, ready.ps, ready.rejected);
            && Next(cfg, Learning(EMPTY, p, ep, Received), Check(0, true)) == Learning(EMPTY, p, ep, Unseen)
            && Next(cfg, Learning(EMPTY, p, ep, Unseen), Extract(0, x, now)) == Learning(EMPTY, p, ep, ready)
            && Next(cfg, Learning(EMPTY, p, ep, ready), Step.Commit(0, true)) == Learning(db, p, ep, Ended(true))
  {
    hide Verified, Committing.Commit, Accepted, CommitStmts, ProposalsOf;
    assert EMPTY.ingest == map[];
    MovedOne(EMPTY, p, ep, Received, Unseen);
    MovedOne(EMPTY, p, ep, Unseen, Batched(cfg, ep, x, now));
    MovedOne(EMPTY, p, ep, Batched(cfg, ep, x, now), Ended(true));
    hide Moved;
  }

  lemma MovedOne(db: Db, p: Payload, ep: Episode, a: Phase, b: Phase)
    ensures Moved(Learning(db, p, ep, a), 0, b) == Learning(db, p, ep, b)
  {
    assert Moved(Learning(db, p, ep, a), 0, b).workers == Learning(db, p, ep, b).workers;
  }

  lemma PublishSecond(cfg: Config, db: Db, p: Payload, ep: Episode, del: Payload)
    ensures Next(cfg, Learning(db, p, ep, Ended(true)), Publish(del)) ==
            Learning(db, p, ep, Ended(true)).(stream := [p, del], delivered := [1, 0], settled := [None, None])
  {
  }

  lemma DeliverSecond(cfg: Config, db: Db, p: Payload, ep: Episode, del: Payload, now: int)
    requires IsDelete(del) && del.ev.occurredAt != 0 && cfg.maxDeliver >= 1
    ensures var w := Learning(db, p, ep, Ended(true));
            Next(cfg, w.(stream := [p, del], delivered := [1, 0], settled := [None, None]), Deliver(1, 1, now)) ==
            Deleting(db, p, ep, del, Received)
  {
    hide ToEpisode;
  }

  lemma DeleteFails(cfg: Config, db: Db, p: Payload, ep: Episode, del: Payload)
    requires IsDelete(del)
    requires !Accepted(db, InvalidatePlan(db, del.ev.tenant, del.ev.document, del.ev.occurredAt))
    ensures Next(cfg, Deleting(db, p, ep, del, Received), Delete(1, true)) == Deleting(db, p, ep, del, Ended(false))
  {
    hide Accepted, InvalidatePlan;
  }
}
