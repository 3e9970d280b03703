/** Document deletions among everything else: which memories a deletion closes in the end, and why a memory that has two
    sources survives the deletion of both. */
module Deletions {
  import opened Text
  import opened Database
  import opened Maintaining
  import opened History
  import opened Effects
  import opened Sessions
  import opened World
  import opened Contention

  /** The row cites two documents. */
  ghost predicate TwoSources(db: Db, r: nat) {
    exists a, b :: a in SourcesOf(db, r) && b in SourcesOf(db, r) && a != b
  }

  /** Sources are only ever added. */
  lemma SourcesGrow(db: Db, db': Db, r: nat)
    requires Grows(db, db')
    ensures SourcesOf(db, r) <= SourcesOf(db', r)
  {
    forall d | d in SourcesOf(db, r) ensures d in SourcesOf(db', r) {
      var k :| k in db.provenance && k.0 == r && k.1 in db.episodes && db.episodes[k.1].document == d;
      assert k in db'.provenance && db'.episodes[k.1].document == d;
    }
  }

  lemma CitersGrow(db: Db, db': Db, tenant: string, document: string)
    requires Grows(db, db')
    ensures CitersOf(db, tenant, document) <= CitersOf(db', tenant, document)
  {
    forall r | r in CitersOf(db, tenant, document) ensures r in CitersOf(db', tenant, document) {
      var k :| k in db.provenance && k.1 in db.episodes && db.episodes[k.1].tenant == tenant &&
        db.episodes[k.1].document == document && k.0 == r;
      assert k in db'.provenance && k.1 in db'.episodes;
    }
  }

  /** No document alone supports a row with two sources. */
  lemma TwoIsNoOrphan(db: Db, r: nat, tenant: string, document: string)
    requires TwoSources(db, r)
    ensures r !in Orphans(db, tenant, document)
  {
    var a, b :| a in SourcesOf(db, r) && b in SourcesOf(db, r) && a != b;
    var other := if a == document then b else a;
    var k :| k in db.provenance && k.0 == r && k.1 in db.episodes && db.episodes[k.1].document == other;
    assert HasOtherSource(db, r, document);
  }

  // ---- when a deletion decided ----

  /** A deletion begins, decides anew, or keeps what it has. */
  lemma DeletionBefore(w: State, e: Event, t: nat)
    requires t in Next(w, e).txs && Next(w, e).txs[t].job.Single? && Next(w, e).txs[t].job.op.Forget?
    ensures var job := Next(w, e).txs[t].job;
            if t in w.txs then
              job == w.txs[t].job ||
              (e == Decide(t) && Decidable(w, t) && job == Single(Redecided(w.committed, w.txs[t].job.op)))
            else
              e.BeginInvalidate? && e.t == t && job == Single(Deletion(w.committed, e.tenant, e.document, e.at))
    ensures !e.Commit? && !e.WriteNext? ==> Next(w, e).committed == w.committed
  {
    hide ConsolidatePlan, Deletion, Redecided, View, Issued, Apply, Constraints, Waits, Sweep, Counted, Reads, FindLive;
    hide HeldByOther, Complete, Proposable, DecayWaits, Taken, Fades;
  }

  /** What the deletion decided on the given state: of the rows it had read, those open with no other source. */
  ghost predicate DecidedOn(op: Op, db: Db) {
    op.Forget? && op.open == (set r | r in op.citers && r < |db.rows| && db.rows[r].key.tenant == op.tenant &&
                                      db.rows[r].validTo.None? && !HasOtherSource(db, r, op.document))
  }

  /** The deletion under way as t began in step b, and last decided in step d. */
  ghost predicate Timed(run: seq<State>, events: seq<Event>, t: nat, op: Op, b: nat, d: nat, j: nat) {
    && op.Forget? && 0 < b <= d <= j < |run| == |events|
    && events[b] == BeginInvalidate(t, op.tenant, op.document, op.at) && t !in run[b - 1].txs
    && (d == b || events[d] == Decide(t))
    && op.citers == CitersOf(run[b].committed, op.tenant, op.document) && op.n == |run[b].committed.rows|
    && DecidedOn(op, run[d].committed)
  }

  lemma {:induction false} LastDecision(run: seq<State>, events: seq<Event>, j: nat, t: nat) returns (b: nat, d: nat)
    requires IsRun(run, events) && j < |run| && t in run[j].txs
    requires run[j].txs[t].job.Single? && run[j].txs[t].job.op.Forget?
    ensures Timed(run, events, t, run[j].txs[t].job.op, b, d, j)
    decreases j
  {
    hide WorldInv, Next, IsRun, Timed, Decidable;
    RunStarts(run, events);
    if j == 0 {
      assert false;
    } else {
      RunOk(run, events, j - 1);
      RunStep(run, events, j);
      var w, e := run[j - 1], events[j];
      DeletionBefore(w, e, t);
      if t in w.txs {
        NotDecided(w, t);
        b, d := LastDecision(run, events, j - 1, t);
        if run[j].txs[t].job == w.txs[t].job {
          TimedLonger(run, events, t, run[j].txs[t].job.op, b, d, j);
        } else {
          DecidedAgain(run, events, t, w.txs[t].job.op, b, d, j);
          d := j;
        }
      } else {
        b, d := j, j;
        TimedNow(run, events, t, j);
      }
    }
  }

  lemma NotDecided(w: State, t: nat)
    ensures Decidable(w, t) ==> t in w.txs && w.txs[t].job.Single? && w.txs[t].job.op.Forget?
  {
  }

  lemma TimedLonger(run: seq<State>, events: seq<Event>, t: nat, op: Op, b: nat, d: nat, j: nat)
    requires 0 < j < |run| && Timed(run, events, t, op, b, d, j - 1)
    ensures Timed(run, events, t, op, b, d, j)
  {
    hide DecidedOn;
  }

  lemma DecidedAgain(run: seq<State>, events: seq<Event>, t: nat, op: Op, b: nat, d: nat, j: nat)
    requires 0 < j < |run| && Timed(run, events, t, op, b, d, j - 1)
    requires events[j] == Decide(t) && run[j].committed == run[j - 1].committed
    ensures Timed(run, events, t, Redecided(run[j - 1].committed, op), b, j, j)
  {
    hide HasOtherSource, CitersOf;
  }

  lemma TimedNow(run: seq<State>, events: seq<Event>, t: nat, j: nat)
    requires 0 < j < |run| == |events| && events[j].BeginInvalidate? && events[j].t == t && t !in run[j - 1].txs
    requires run[j].committed == run[j - 1].committed
    ensures var e := events[j];
            Timed(run, events, t, Deletion(run[j - 1].committed, e.tenant, e.document, e.at), j, j, j)
  {
    hide HasOtherSource;
  }

  // ---- what it closes ----

  /** The rows after a deletion's statements. */
  lemma ClosePlanRows(db: Db, open: set<nat>, citers: set<nat>, tenant: string, at: int, n: nat, r: nat)
    requires r < |db.rows| && (citers == {} ==> r !in open)
    ensures var db' := Run(db, ClosePlan(open, citers, tenant, at, n));
            && |db'.rows| == |db.rows|
            && db'.rows[r] == if r in open && db.rows[r].validTo.None? then db.rows[r].(validTo := Some(at))
                              else db.rows[r]
  {
    if citers != {} {
      var plan := ClosePlan(open, citers, tenant, at, n);
      var db1 := Apply(db, plan[0]);
      DeletionLedgerExact(citers, tenant, at, n);
      assert plan[1..] == DeletionLedger(citers, tenant, at, n);
      RecordsOnlyLog(db1, plan[1..]);
    }
  }

  /** When a deletion commits, it has closed an open memory exactly when that memory cited the document as the deletion
      began, and the document alone supported it as the deletion last decided. Whatever it does not close, it leaves
      as it is. */
  lemma DeletionClosesIff(run: seq<State>, events: seq<Event>, j: nat, t: nat, r: nat) returns (b: nat, d: nat)
    requires IsRun(run, events) && 0 < j < |run| && events[j] == Event.Commit(t)
    requires t in run[j - 1].txs && t !in run[j].txs
    requires run[j - 1].txs[t].job.Single? && run[j - 1].txs[t].job.op.Forget?
    requires r < |run[j - 1].committed.rows|
    ensures Timed(run, events, t, run[j - 1].txs[t].job.op, b, d, j - 1) && r < |run[j].committed.rows|
    ensures var op, before, after := run[j - 1].txs[t].job.op, run[j - 1].committed.rows[r], run[j].committed.rows[r];
            && after == before.(validTo := after.validTo)
            && (before.validTo.Some? ==> after == before)
            && (before.validTo.None? && after.validTo.Some? <==>
                  before.validTo.None? &&
                  r in CitersOf(run[b].committed, op.tenant, op.document) &&
                  r in Orphans(run[d].committed, op.tenant, op.document))
  {
    hide WorldInv, IsRun, Run, ClosePlan, HasOtherSource, Grows, CitersOf;
    b, d := LastDecision(run, events, j - 1, t);
    SinglesAreSerial(run, events, j, t);
    var op, db := run[j - 1].txs[t].job.op, run[j - 1].committed;
    ClosePlanRows(db, op.open, op.citers, op.tenant, op.at, op.n, r);
    HistoryOnlyGrows(run, events, b, d);
    CitersGrow(run[b].committed, run[d].committed, op.tenant, op.document);
  }

  /** And it has added to the ledger one line for each memory that cited the document as the deletion began, whether it
      closed it or not, and no other line. */
  lemma DeletionLogs(run: seq<State>, events: seq<Event>, j: nat, t: nat) returns (b: nat, d: nat)
    requires IsRun(run, events) && 0 < j < |run| && events[j] == Event.Commit(t)
    requires t in run[j - 1].txs && t !in run[j].txs
    requires run[j - 1].txs[t].job.Single? && run[j - 1].txs[t].job.op.Forget?
    ensures Timed(run, events, t, run[j - 1].txs[t].job.op, b, d, j - 1)
    ensures var op, before, after := run[j - 1].txs[t].job.op, run[j - 1].committed.ledger, run[j].committed.ledger;
            && |before| <= |after| && after[..|before|] == before
            && NamesCiters(after[|before|..], run[b].committed, op.tenant, op.document, op.at, |run[b].committed.rows|)
  {
    hide WorldInv, IsRun, Run, ClosePlan, CitersOf, NamesCiters;
    b, d := LastDecision(run, events, j - 1, t);
    SinglesAreSerial(run, events, j, t);
    var op, db := run[j - 1].txs[t].job.op, run[j - 1].committed;
    CloseLogs(db, op.open, run[b].committed, op.tenant, op.document, op.at, op.n);
  }

  /** Once a memory cites two documents, no deletion that decides from then on closes it, in any run. */
  lemma TwoSourcesAreSpared(run: seq<State>, events: seq<Event>, i: nat, j: nat, t: nat, r: nat)
    returns (b: nat, d: nat)
    requires IsRun(run, events) && i < j < |run| && events[j] == Event.Commit(t)
    requires t in run[j - 1].txs && t !in run[j].txs
    requires run[j - 1].txs[t].job.Single? && run[j - 1].txs[t].job.op.Forget?
    requires r < |run[j - 1].committed.rows| && TwoSources(run[i].committed, r)
    ensures Timed(run, events, t, run[j - 1].txs[t].job.op, b, d, j - 1)
    ensures i <= d ==> r < |run[j].committed.rows| && run[j].committed.rows[r] == run[j - 1].committed.rows[r]
  {
    hide WorldInv, IsRun, Grows, Orphans, CitersOf, Timed;
    b, d := DeletionClosesIff(run, events, j, t, r);
    if i <= d {
      assert d <= j - 1 by { TimedBounds(run, events, t, run[j - 1].txs[t].job.op, b, d, j - 1); }
      HistoryOnlyGrows(run, events, i, d);
      SourcesGrow(run[i].committed, run[d].committed, r);
      var op := run[j - 1].txs[t].job.op;
      TwoIsNoOrphan(run[d].committed, r, op.tenant, op.document);
    }
  }

  lemma TimedBounds(run: seq<State>, events: seq<Event>, t: nat, op: Op, b: nat, d: nat, j: nat)
    requires Timed(run, events, t, op, b, d, j)
    ensures 0 < b <= d <= j
  {
  }
}
