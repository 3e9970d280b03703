/** When the constraints of the schema refuse a transaction that runs alone: never a commit of verified memories, never
    a consolidation of a group that was found; a source deletion exactly when it would end a memory before it began. */
module Refusals {
  import opened Text
  import opened Records
  import opened Merging
  import opened Verifying
  import opened Database
  import opened Committing
  import opened Convergence
  import opened Maintaining
  import opened History
  import opened Transactions

  /** No statement of the list, run in order, breaks a constraint. */
  ghost predicate Accepted(db: Db, todo: seq<Stmt>)
    decreases |todo|
  {
    todo == [] || (Constraints(Apply(db, todo[0]).rows) && Accepted(Apply(db, todo[0]), todo[1..]))
  }

  /** The same for the check constraints alone. */
  ghost predicate Passes(db: Db, todo: seq<Stmt>)
    decreases |todo|
  {
    todo == [] || (Checked(Apply(db, todo[0]).rows) && Passes(Apply(db, todo[0]), todo[1..]))
  }

  /** The unique index refuses none of the service's own statements. */
  lemma {:induction false} OnlyChecksRefuse(n0: nat, db: Db, todo: seq<Stmt>)
    requires StmtInv(db) && SafeAhead(n0, db, todo)
    ensures Accepted(db, todo) <==> Passes(db, todo)
    decreases |todo|
  {
    hide Apply, Pre, RowOk, Acyclic, LedgerInRange, OneLive;
    if todo != [] {
      StmtKeepsInv(n0, db, todo[0]);
      OnlyChecksRefuse(n0, Apply(db, todo[0]), todo[1..]);
    }
  }

  lemma {:induction false} PassesAppend(db: Db, a: seq<Stmt>, b: seq<Stmt>)
    ensures Passes(db, a + b) <==> Passes(db, a) && Passes(Run(db, a), b)
    decreases |a|
  {
    hide Apply, Checked;
    if a == [] {
      assert a + b == b;
    } else {
      assert (a + b)[0] == a[0] && (a + b)[1..] == a[1..] + b;
      PassesAppend(Apply(db, a[0]), a[1..], b);
    }
  }

  /** Statements that leave the rows alone pass. */
  lemma {:induction false} RestPasses(db: Db, todo: seq<Stmt>)
    requires Checked(db.rows)
    requires forall k :: 0 <= k < |todo| ==> todo[k].Record? || todo[k].Cite? || todo[k].InheritCitations?
    ensures Passes(db, todo)
    decreases |todo|
  {
    if todo != [] {
      RestPasses(Apply(db, todo[0]), todo[1..]);
    }
  }

  // ---- commits ----

  predicate DraftOk(d: Draft) {
    0.0 <= d.confidence <= 1.0 && 0.0 <= d.salience
  }

  lemma CommitOnePasses(db: Db, ep: Episode, p: Proposal)
    requires Checked(db.rows) && DraftOk(p.draft)
    ensures Passes(db, PlanFor(db, ep, p).stmts)
  {
    hide IsRestatement, MergeStrings, MergeAttrs, FindLive, Apply, Checked, DraftOk, Stored, RowOk;
    var plan := PlanFor(db, ep, p);
    var s := plan.stmts;
    match plan.outcome {
      case Created =>
        InsertChecked(db, p.draft, None, None);
        FirstPasses(db, s);
      case Reinforced =>
        ReinforceChecked(db, plan.id, p.draft, ep);
        FirstPasses(db, s);
      case Backfill =>
        var c := FindLive(db.rows, p.draft.key).value;
        InsertChecked(db, p.draft, Some(db.rows[c].validFrom), Some(c));
        FirstPasses(db, s);
      case Superseding => SupersedePasses(db, ep, p, plan.replaced.value);
    }
  }

  lemma InsertChecked(db: Db, d: Draft, validTo: Option<int>, supersededBy: Option<nat>)
    requires Checked(db.rows) && DraftOk(d)
    requires (validTo.Some? ==> d.validFrom <= validTo.value) && (supersededBy.Some? ==> validTo.Some?)
    ensures Checked(Apply(db, InsertRow(Stored(d, validTo, supersededBy))).rows)
  {
    CheckedSnoc(db.rows, Stored(d, validTo, supersededBy));
  }

  lemma ReinforceChecked(db: Db, c: nat, d: Draft, ep: Episode)
    requires Checked(db.rows) && DraftOk(d) && c < |db.rows|
    ensures Checked(Apply(db, Reinforcement(c, db.rows[c], d, ep)).rows)
  {
    hide MergeStrings, MergeAttrs;
    assert RowOk(db.rows[c]);
  }

  /** Only the first statement writes rows. */
  lemma FirstPasses(db: Db, s: seq<Stmt>)
    requires s != [] && Checked(Apply(db, s[0]).rows)
    requires forall k :: 1 <= k < |s| ==> s[k].Record? || s[k].Cite? || s[k].InheritCitations?
    ensures Passes(db, s)
  {
    hide Apply, Checked;
    RestPasses(Apply(db, s[0]), s[1..]);
  }

  lemma SupersedePasses(db: Db, ep: Episode, p: Proposal, c: nat)
    requires Checked(db.rows) && DraftOk(p.draft) && c < |db.rows| && db.rows[c].validFrom <= p.draft.validFrom
    ensures Passes(db, SupersedePlan(|db.rows|, c, ep, p).stmts)
  {
    hide Stored, Apply, DraftOk;
    var s := SupersedePlan(|db.rows|, c, ep, p).stmts;
    SupersedeRows(db, ep, p, c);
    StoredPasses(p.draft);
    assert RowOk(db.rows[c]);
    var db1 := Apply(db, s[0]);
    var db2 := Apply(db1, s[1]);
    var db3 := Apply(db2, s[2]);
    var db4 := Apply(db3, s[3]);
    CheckedSnoc(db1.rows, Stored(p.draft, None, None));
    hide RowOk;
    RestPasses(db4, s[4..]);
    FourPass(db, s);
  }

  lemma StoredPasses(d: Draft)
    requires DraftOk(d)
    ensures RowOk(Stored(d, None, None))
  {
  }

  lemma FourPass(db: Db, s: seq<Stmt>)
    requires |s| >= 4
    requires var db1 := Apply(db, s[0]);
             var db2 := Apply(db1, s[1]);
             var db3 := Apply(db2, s[2]);
             var db4 := Apply(db3, s[3]);
             Checked(db1.rows) && Checked(db2.rows) && Checked(db3.rows) && Checked(db4.rows) && Passes(db4, s[4..])
    ensures Passes(db, s)
  {
    hide Apply, Checked;
    assert s[3..][1..] == s[4..] && s[2..][1..] == s[3..] && s[1..][1..] == s[2..];
    var db1 := Apply(db, s[0]);
    var db2 := Apply(db1, s[1]);
    var db3 := Apply(db2, s[2]);
    assert Passes(db3, s[3..]);
    assert Passes(db2, s[2..]);
    assert Passes(db1, s[1..]);
  }

  /** The statements commitOne issues for the proposals, in order. */
  function ProposalStmts(db: Db, ep: Episode, ps: seq<Proposal>): seq<Stmt>
    decreases |ps|
  {
    if ps == [] then [] else PlanFor(db, ep, ps[0]).stmts + ProposalStmts(CommitOne(db, ep, ps[0]), ep, ps[1..])
  }

  /** Every statement of Commit. */
  function CommitStmts(db: Db, ep: Episode, ps: seq<Proposal>, rejected: nat): seq<Stmt> {
    [SaveEpisode(ep)] + ProposalStmts(Apply(db, SaveEpisode(ep)), ep, ps) +
    [LogIngest(ep.tenant, ep.hash, ep.id, |ps|, rejected)]
  }

  lemma {:induction false} AcceptedAppend(db: Db, a: seq<Stmt>, b: seq<Stmt>)
    ensures Accepted(db, a + b) <==> Accepted(db, a) && Accepted(Run(db, a), b)
    decreases |a|
  {
    hide Apply, Constraints;
    if a == [] {
      assert a + b == b;
    } else {
      assert (a + b)[0] == a[0] && (a + b)[1..] == a[1..] + b;
      AcceptedAppend(Apply(db, a[0]), a[1..], b);
    }
  }

  lemma {:induction false} PassesKeeps(db: Db, todo: seq<Stmt>)
    requires Checked(db.rows) && Passes(db, todo)
    ensures Checked(Run(db, todo).rows)
    decreases |todo|
  {
    hide Apply, Checked;
    if todo != [] {
      PassesKeeps(Apply(db, todo[0]), todo[1..]);
    }
  }

  lemma {:induction false} ProposalsAccepted(db: Db, ep: Episode, ps: seq<Proposal>)
    requires Inv(db) && Checked(db.rows) && forall p :: p in ps ==> DraftOk(p.draft)
    ensures var stmts := ProposalStmts(db, ep, ps);
            Accepted(db, stmts) && Run(db, stmts) == CommitAll(db, ep, ps)
    ensures Inv(CommitAll(db, ep, ps)) && Checked(CommitAll(db, ep, ps).rows)
    decreases |ps|
  {
    hide Apply, PlanFor, Inv, StmtInv, Boundary, Checked, Constraints, SafeAhead, DraftOk;
    if ps != [] {
      var stmts := PlanFor(db, ep, ps[0]).stmts;
      InvSplits(db);
      CommitOneSafe(db, ep, ps[0]);
      CommitOnePasses(db, ep, ps[0]);
      OnlyChecksRefuse(|db.rows|, db, stmts);
      PassesKeeps(db, stmts);
      CommitOneKeepsInv(db, ep, ps[0]);
      ProposalsAccepted(CommitOne(db, ep, ps[0]), ep, ps[1..]);
      AcceptedAppend(db, stmts, ProposalStmts(CommitOne(db, ep, ps[0]), ep, ps[1..]));
      RunAppend(db, stmts, ProposalStmts(CommitOne(db, ep, ps[0]), ep, ps[1..]));
    }
  }

  lemma BookkeepingAccepted(db: Db, s: Stmt)
    requires Inv(db) && Checked(db.rows) && (s.SaveEpisode? || s.LogIngest?)
    ensures Accepted(db, [s]) && Run(db, [s]) == Apply(db, s) && Inv(Apply(db, s)) && Checked(Apply(db, s).rows)
  {
    hide Acyclic, LedgerInRange, Paired, CitesInRange, FaithfulSummaries;
    BookkeepingKeepsInv(db, s);
    assert [s][1..] == [];
    assert Run(Apply(db, s), []) == Apply(db, s);
  }

  /** In a sound store no statement of a Commit that runs alone is refused, whatever the proposals and however they
      conflict with each other or with what is current: not by the unique index, nor by an interval, link or range
      check. */
  lemma CommitNeverRefused(db: Db, ep: Episode, ps: seq<Proposal>, rejected: nat)
    requires Inv(db) && Checked(db.rows) && forall p :: p in ps ==> DraftOk(p.draft)
    ensures var stmts := CommitStmts(db, ep, ps, rejected);
            Accepted(db, stmts) && Run(db, stmts) == Commit(db, ep, ps, rejected)
    ensures Inv(Commit(db, ep, ps, rejected)) && Checked(Commit(db, ep, ps, rejected).rows)
  {
    hide Apply, Inv, Checked, Constraints, Accepted, CommitAll, ProposalStmts, DraftOk;
    var save, log := SaveEpisode(ep), LogIngest(ep.tenant, ep.hash, ep.id, |ps|, rejected);
    BookkeepingAccepted(db, save);
    var saved := Apply(db, save);
    var middle := ProposalStmts(saved, ep, ps);
    ProposalsAccepted(saved, ep, ps);
    BookkeepingAccepted(CommitAll(saved, ep, ps), log);
    AcceptedAppend(db, [save], middle);
    RunAppend(db, [save], middle);
    AcceptedAppend(db, [save] + middle, [log]);
    RunAppend(db, [save] + middle, [log]);
  }

  /** What the verifier accepts fits the schema, and keeps the store sound. */
  lemma VerifiedNeverRefused(db: Db, ep: Episode, cs: seq<Candidate>, screen: Candidate -> Screen, now: int,
                             rejected: nat)
    requires Inv(db) && Checked(db.rows)
    ensures var ps := ProposalsOf(Verified(cs, screen).accepted, ep, now);
            && Accepted(db, CommitStmts(db, ep, ps, rejected))
            && Inv(Commit(db, ep, ps, rejected)) && Checked(Commit(db, ep, ps, rejected).rows)
  {
    hide Inv, Checked, Accepted, Verified, CommitStmts, Commit;
    var accepted := Verified(cs, screen).accepted;
    var ps := ProposalsOf(accepted, ep, now);
    AcceptedAreDistinct(cs, screen);
    forall p | p in ps ensures DraftOk(p.draft) {
      var i :| 0 <= i < |ps| && ps[i] == p;
      assert accepted[i] in accepted;
    }
    CommitNeverRefused(db, ep, ps, rejected);
  }

  // ---- source deletion ----

  /** No row of ids that is still open would end before it began. */
  ghost predicate Closable(rows: seq<Memory>, ids: set<nat>, at: int) {
    forall r :: r in ids && r < |rows| && rows[r].validTo.None? ==> rows[r].validFrom <= at
  }

  lemma ClosePassesIff(db: Db, open: set<nat>, citers: set<nat>, tenant: string, at: int, n: nat)
    requires Checked(db.rows) && n <= |db.rows|
    ensures Passes(db, ClosePlan(open, citers, tenant, at, n)) <==> citers == {} || Closable(db.rows, open, at)
  {
    hide Checked, Closable, Apply;
    var plan := ClosePlan(open, citers, tenant, at, n);
    if plan != [] {
      var db1 := Apply(db, plan[0]);
      ClosingChecked(db, open, at);
      var lines := DeletionLedger(citers, tenant, at, n);
      assert plan[1..] == lines;
      DeletionLedgerLines(db, citers, tenant, at, n);
      if Checked(db1.rows) {
        RestPasses(db1, lines);
      }
    }
  }

  /** A source deletion is refused exactly when it would end some orphan before it began. */
  lemma DeletionRefusedIff(db: Db, tenant: string, document: string, at: int)
    requires Inv(db) && Checked(db.rows)
    ensures Accepted(db, InvalidatePlan(db, tenant, document, at)) <==>
            forall r :: r in Orphans(db, tenant, document) ==> db.rows[r].validFrom <= at
  {
    hide Inv, StmtInv, Boundary, Grows, SafeAhead, Checked, HasOtherSource, CitersOf, ClosePlan, Passes, Accepted;
    var plan, open := InvalidatePlan(db, tenant, document, at), Orphans(db, tenant, document);
    InvSplits(db);
    InvalidateKeepsInv(db, tenant, document, at);
    OnlyChecksRefuse(|db.rows|, db, plan);
    ClosePassesIff(db, open, CitersOf(db, tenant, document), tenant, at, |db.rows|);
  }

  lemma ClosingChecked(db: Db, ids: set<nat>, at: int)
    requires Checked(db.rows)
    ensures Checked(Apply(db, CloseOpen(ids, at)).rows) <==> Closable(db.rows, ids, at)
  {
    var rows' := Apply(db, CloseOpen(ids, at)).rows;
    forall r | 0 <= r < |db.rows|
      ensures RowOk(rows'[r]) <==> (r in ids && db.rows[r].validTo.None? ==> db.rows[r].validFrom <= at)
    {
      assert RowOk(db.rows[r]);
    }
  }

  /** A memory that starts after its only source is deleted: the deletion is refused. A deletion dated earlier than the
      text it deletes is enough. */
  lemma LateStartRefusesDeletion(ep: Episode, p: Proposal, rejected: nat, at: int)
    requires DraftOk(p.draft) && p.draft.key.tenant == ep.tenant && at < p.draft.validFrom
    ensures var db := Commit(EMPTY, ep, [p], rejected); !Accepted(db, InvalidatePlan(db, ep.tenant, ep.document, at))
  {
    hide Inv, Accepted, InvalidatePlan, Commit, Stored, Orphans;
    EmptyInv(EMPTY);
    assert Checked(EMPTY.rows);
    CommitNeverRefused(EMPTY, ep, [p], rejected);
    OneMemory(ep, p, rejected);
    StartsWhenDrafted(p.draft);
    OnlySource(Commit(EMPTY, ep, [p], rejected), ep, Citation(p.quote, p.pass));
    DeletionRefusedIff(Commit(EMPTY, ep, [p], rejected), ep.tenant, ep.document, at);
  }

  lemma StartsWhenDrafted(d: Draft)
    ensures var m := Stored(d, None, None); m.validFrom == d.validFrom && m.key == d.key && m.validTo.None?
  {
  }

  lemma OnlySource(db: Db, ep: Episode, cite: Citation)
    requires |db.rows| == 1 && db.rows[0].key.tenant == ep.tenant && db.rows[0].validTo.None?
    requires db.episodes == map[ep.id := ep] && db.provenance == map[(0, ep.id) := cite]
    ensures 0 in Orphans(db, ep.tenant, ep.document)
  {
    assert (0, ep.id) in db.provenance;
    assert 0 in CitersOf(db, ep.tenant, ep.document);
  }

  /** A commit of one proposal. */
  lemma CommitsOne(db: Db, ep: Episode, p: Proposal, rejected: nat)
    ensures var one, all := CommitOne(Apply(db, SaveEpisode(ep)), ep, p), Commit(db, ep, [p], rejected);
            all.rows == one.rows && all.provenance == one.provenance && all.episodes == one.episodes
  {
    hide CommitOne;
    var saved := Apply(db, SaveEpisode(ep));
    assert [p][1..] == [];
    assert CommitAll(CommitOne(saved, ep, p), ep, []) == CommitOne(saved, ep, p);
  }

  /** The first memory of a store. */
  lemma OneMemory(ep: Episode, p: Proposal, rejected: nat)
    ensures var db := Commit(EMPTY, ep, [p], rejected);
            && db.rows == [Stored(p.draft, None, None)] && db.episodes == map[ep.id := ep]
            && db.provenance == map[(0, ep.id) := Citation(p.quote, p.pass)]
  {
    hide Stored, PlanFor, CommitOne, Commit;
    var saved := Apply(EMPTY, SaveEpisode(ep));
    FirstIsCreated(saved, ep, p);
    CreateShape(saved, ep, p);
    CommitsOne(EMPTY, ep, p, rejected);
  }

  lemma FirstIsCreated(db: Db, ep: Episode, p: Proposal)
    requires db.rows == []
    ensures PlanFor(db, ep, p).outcome == Created
  {
  }

  // ---- consolidation ----

  /** Members are closed by the time they are linked. */
  lemma LinkChecked(db: Db, g: Group, s: Summary, closedAt: int)
    requires GroupOk(db.rows, g) && g.members != []
    requires var ids := Ids(g.members);
             Checked(Apply(Apply(db, CloseOpen(ids, closedAt)), InsertRow(SummaryRow(g, s, closedAt))).rows)
    ensures var ids := Ids(g.members);
            var db2 := Apply(Apply(db, CloseOpen(ids, closedAt)), InsertRow(SummaryRow(g, s, closedAt)));
            Checked(Apply(db2, LinkRows(ids, |db.rows|)).rows)
  {
    hide SummaryRow;
    var n, ids := |db.rows|, Ids(g.members);
    var db1 := Apply(db, CloseOpen(ids, closedAt));
    var db2 := Apply(db1, InsertRow(SummaryRow(g, s, closedAt)));
    var db3 := Apply(db2, LinkRows(ids, n));
    forall i | 0 <= i < |db3.rows| ensures RowOk(db3.rows[i]) {
      assert RowOk(db2.rows[i]);
      if i in ids {
        MembersInRange(db.rows, g, i);
        assert db2.rows[i] == db1.rows[i] && db1.rows[i].validTo.Some?;
      }
    }
  }

  lemma CheckedSnoc(rows: seq<Memory>, m: Memory)
    ensures Checked(rows + [m]) <==> Checked(rows) && RowOk(m)
  {
    hide RowOk;
    assert (rows + [m])[|rows|] == m;
    forall i | 0 <= i < |rows| ensures (rows + [m])[i] == rows[i] {
    }
  }

  lemma ThreePass(db: Db, s: seq<Stmt>)
    requires |s| >= 3
    ensures var db1 := Apply(db, s[0]);
            var db2 := Apply(db1, s[1]);
            var db3 := Apply(db2, s[2]);
            Passes(db, s) <==> Checked(db1.rows) && Checked(db2.rows) && Checked(db3.rows) && Passes(db3, s[3..])
  {
    hide Apply, Checked;
    assert s[2..][1..] == s[3..] && s[1..][1..] == s[2..];
    var db1 := Apply(db, s[0]);
    var db2 := Apply(db1, s[1]);
    assert Passes(db2, s[2..]) <==> Checked(Apply(db2, s[2]).rows) && Passes(Apply(db2, s[2]), s[3..]);
    assert Passes(db1, s[1..]) <==> Checked(db2.rows) && Passes(db2, s[2..]);
  }

  lemma ConsolidationPassesIff(db: Db, g: Group, s: Summary, closedAt: int)
    requires Checked(db.rows) && GroupOk(db.rows, g) && ConsolidatePlan(|db.rows|, g, s, closedAt).Ok?
    ensures Passes(db, ConsolidatePlan(|db.rows|, g, s, closedAt).value) <==>
            0.0 <= s.confidence <= 1.0 && Closable(db.rows, Ids(g.members), closedAt)
  {
    hide SharedAcl, SummaryRow, Apply, Checked, Closable, GroupOk;
    var n, ids := |db.rows|, Ids(g.members);
    var plan := ConsolidatePlan(n, g, s, closedAt).value;
    ClosingChecked(db, ids, closedAt);
    SummaryChecked(g, s, closedAt);
    var db1 := Apply(db, plan[0]);
    var db2 := Apply(db1, plan[1]);
    SummaryInserted(db1, g, s, closedAt);
    LedgerForIsRecords(g.members, g.key.tenant, n, closedAt);
    var rest := plan[3..];
    assert rest == [InheritCitations(n, ids)] + LedgerFor(g.members, g.key.tenant, n, closedAt);
    if Checked(db2.rows) {
      LinkChecked(db, g, s, closedAt);
      RestPasses(Apply(db2, plan[2]), rest);
    }
    ThreePass(db, plan);
  }

  /** Of any group and any summary: refused exactly when it would end a member that is still open before it began, or
      the summary's confidence is out of range. */
  lemma ConsolidationRefusedIff(db: Db, g: Group, s: Summary, closedAt: int)
    requires Inv(db) && Checked(db.rows) && GroupOk(db.rows, g) && ConsolidatePlan(|db.rows|, g, s, closedAt).Ok?
    ensures Accepted(db, ConsolidatePlan(|db.rows|, g, s, closedAt).value) <==>
            && 0.0 <= s.confidence <= 1.0
            && forall m :: m in g.members && db.rows[m.id].validTo.None? ==> db.rows[m.id].validFrom <= closedAt
  {
    hide Inv, StmtInv, Boundary, Grows, SafeAhead, Checked, Accepted, Passes, ConsolidatePlan, GroupOk;
    InvSplits(db);
    ConsolidateKeepsInv(db, g, s, closedAt);
    OnlyChecksRefuse(|db.rows|, db, ConsolidatePlan(|db.rows|, g, s, closedAt).value);
    ConsolidationPassesIff(db, g, s, closedAt);
    forall m | m in g.members ensures m.id < |db.rows| {
      MembersInRange(db.rows, g, m.id);
    }
  }

  /** No statement of a consolidation the service makes is ever refused: its members were found by a scan of an earlier
      state, each had started by then, and the originals are closed after the scan. */
  lemma FoundGroupAccepted(listed: Db, db0: Db, db: Db, minSize: int, now: int, g: Group, s: Summary, closedAt: int)
    requires OneLive(listed.rows) && Finds(listed.rows, db0.rows, minSize, now, g)
    requires Grows(db0, db) && Inv(db) && Checked(db.rows)
    requires now <= closedAt && 0.0 <= s.confidence <= 1.0 && ConsolidatePlan(|db.rows|, g, s, closedAt).Ok?
    ensures Accepted(db, ConsolidatePlan(|db.rows|, g, s, closedAt).value)
  {
    hide Inv, Checked, Accepted, ConsolidatePlan, Counted;
    GroupsAreEvents(listed.rows, db0.rows, minSize, now, g);
    assert GroupOk(db0.rows, g);
    GroupStaysOk(db0, db, g);
    ConsolidationRefusedIff(db, g, s, closedAt);
    forall m | m in g.members ensures m.id < |db.rows| && db.rows[m.id].validFrom <= now {
      var i :| 0 <= i < |g.members| && g.members[i] == m;
      assert SearchMatches(m.row, g.key, now) && RowGrows(db0.rows[m.id], db.rows[m.id]);
    }
  }

  lemma SummaryInserted(db: Db, g: Group, s: Summary, closedAt: int)
    requires g.members != []
    ensures Checked(Apply(db, InsertRow(SummaryRow(g, s, closedAt))).rows) <==>
            Checked(db.rows) && RowOk(SummaryRow(g, s, closedAt))
  {
    hide SummaryRow, RowOk;
    CheckedSnoc(db.rows, SummaryRow(g, s, closedAt));
  }

  lemma SummaryChecked(g: Group, s: Summary, closedAt: int)
    requires g.members != []
    ensures RowOk(SummaryRow(g, s, closedAt)) <==> 0.0 <= s.confidence <= 1.0
  {
    hide SharedAcl, Earliest, AllSubjects;
  }
}
