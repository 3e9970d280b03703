/** Statement by statement: what each SQL statement needs, what it keeps, and that every transaction of the service
    meets those needs in order. */
module Transactions {
  import opened Text
  import opened Records
  import opened Database
  import opened Committing
  import opened Maintaining
  import opened History

  /** What holds after every statement, also inside a transaction. */
  ghost predicate StmtInv(db: Db) {
    Sound(db.rows) && Acyclic(db.rows) && LedgerInRange(db)
  }

  /** What is restored by the end of a transaction. */
  ghost predicate Boundary(db: Db) {
    Paired(db) && CitesInRange(db) && FaithfulSummaries(db)
  }

  lemma EmptyInv(db: Db)
    requires db.rows == [] && db.ledger == []
    requires forall k :: k !in db.provenance
    ensures Inv(db)
  {
    assert Stamped(db.rows, []);
    assert Acyclic(db.rows);
    hide Acyclic, Stamped, FaithfulSummary, Pair;
  }

  lemma InvSplits(db: Db)
    ensures Inv(db) <==> StmtInv(db) && Boundary(db)
  {
  }

  /** What a statement relies on, in a transaction that began with n0 rows. */
  ghost predicate Pre(n0: nat, db: Db, s: Stmt) {
    match s
    case InsertRow(m) =>
      && !m.archived && Linked(m)
      && (m.supersededBy.Some? ==> m.supersededBy.value < |db.rows| && db.rows[m.supersededBy.value].validTo.None?)
      && (m.Live() && Supersedes(m.key.kind) ==>
            forall i :: 0 <= i < |db.rows| ==> !(db.rows[i].Live() && db.rows[i].key == m.key))
    case CloseRow(id, at) => id < |db.rows| && db.rows[id].validTo.None?
    case LinkRows(ids, s) =>
      && s < |db.rows| && db.rows[s].validTo.None?
      && forall i :: i in ids && i < |db.rows| ==>
           db.rows[i].validTo.Some? && (Supersedes(db.rows[i].key.kind) ==> db.rows[i].supersededBy.None?)
    case ReinforceRow(id, confidence, attributes, _, _, _) =>
      && id < |db.rows| && !db.rows[id].archived && Supersedes(db.rows[id].key.kind)
      && Extends(db.rows[id].attributes, attributes) && db.rows[id].confidence <= confidence
    case Cite(row, _, _, _) => row < |db.rows| && (row < n0 ==> Supersedes(db.rows[row].key.kind))
    case InheritCitations(row, _) => n0 <= row < |db.rows|
    case Record(e) => LineInRange(db.rows, e)
    case WriteDecay(id, _, archived) =>
      && id < |db.rows| && (archived ==> !Protected(db.rows[id].key.kind))
      && (!archived && db.rows[id].validTo.None? && Supersedes(db.rows[id].key.kind) ==>
            forall i :: 0 <= i < |db.rows| && i != id ==> !(db.rows[i].Live() && db.rows[i].key == db.rows[id].key))
    case _ => true
  }

  ghost predicate SafeAhead(n0: nat, db: Db, todo: seq<Stmt>)
    decreases |todo|
  {
    todo == [] || (Pre(n0, db, todo[0]) && SafeAhead(n0, Apply(db, todo[0]), todo[1..]))
  }

  // ---- each statement keeps the statement invariant ----

  lemma AcyclicAppend(rows: seq<Memory>, m: Memory)
    requires Acyclic(rows)
    requires m.supersededBy.Some? ==> m.supersededBy.value < |rows| && rows[m.supersededBy.value].validTo.None?
    ensures Acyclic(rows + [m])
  {
    var stamp :| Stamped(rows, stamp);
    assert Stamped(rows + [m], stamp + [0]);
  }

  /** Closing open rows stamps them later than everything before. */
  lemma AcyclicClose(rows: seq<Memory>, rows': seq<Memory>)
    requires Acyclic(rows) && |rows'| == |rows| && forall i :: 0 <= i < |rows| ==> Linked(rows[i])
    requires forall i :: 0 <= i < |rows| ==> rows'[i].supersededBy == rows[i].supersededBy
    requires forall i :: 0 <= i < |rows| && rows[i].validTo.Some? ==> rows'[i].validTo.Some?
    ensures Acyclic(rows')
  {
    var stamp :| Stamped(rows, stamp);
    var top := AboveAll(stamp);
    var stamp' := seq(|rows|, i requires 0 <= i < |rows| => if rows[i].validTo.None? then top else stamp[i]);
    assert Stamped(rows', stamp');
  }

  /** Links are written to a row that is open at that moment. */
  lemma AcyclicLink(rows: seq<Memory>, rows': seq<Memory>, s: nat)
    requires Acyclic(rows) && |rows'| == |rows| && s < |rows| && rows[s].validTo.None?
    requires forall i :: 0 <= i < |rows| ==> rows'[i].validTo == rows[i].validTo
    requires forall i :: 0 <= i < |rows| ==>
               rows'[i].supersededBy == rows[i].supersededBy || rows'[i].supersededBy == Some(s)
    ensures Acyclic(rows')
  {
    var stamp :| Stamped(rows, stamp);
    assert Stamped(rows', stamp);
  }

  lemma StmtKeepsAcyclic(n0: nat, db: Db, s: Stmt)
    requires StmtInv(db) && Pre(n0, db, s)
    ensures Acyclic(Apply(db, s).rows)
  {
    hide Acyclic, LedgerInRange, LineInRange, Extends;
    match s
    case InsertRow(m) => AcyclicAppend(db.rows, m);
    case LinkRows(_, succ) => AcyclicLink(db.rows, Apply(db, s).rows, succ);
    case CloseRow(_, _) => AcyclicClose(db.rows, Apply(db, s).rows);
    case CloseOpen(_, _) => AcyclicClose(db.rows, Apply(db, s).rows);
    case ReinforceRow(_, _, _, _, _, _) => AcyclicClose(db.rows, Apply(db, s).rows);
    case WriteDecay(_, _, _) => AcyclicClose(db.rows, Apply(db, s).rows);
    case _ =>
  }

  lemma StmtKeepsSound(n0: nat, db: Db, s: Stmt)
    requires StmtInv(db) && Pre(n0, db, s)
    ensures Sound(Apply(db, s).rows)
  {
    hide Acyclic, LedgerInRange;
    var rows, rows' := db.rows, Apply(db, s).rows;
    if s.WriteDecay? {
      DecayKeepsSound(n0, db, s);
    } else if s.InsertRow? {
      forall i, j | 0 <= i < j < |rows'| && rows'[i].Live() && rows'[j].Live() && rows'[i].key == rows'[j].key
        ensures !Supersedes(rows'[i].key.kind)
      {
      }
    } else {
      assert |rows'| == |rows|;
      forall i | 0 <= i < |rows| ensures rows'[i].key == rows[i].key && (rows'[i].Live() ==> rows[i].Live()) {
      }
    }
  }

  lemma DecayKeepsSound(n0: nat, db: Db, s: Stmt)
    requires Sound(db.rows) && Pre(n0, db, s) && s.WriteDecay?
    ensures Sound(Apply(db, s).rows)
  {
    var m := db.rows[s.id].(salience := s.salience, archived := s.archived);
    assert Apply(db, s).rows == db.rows[s.id := m] by { UpdatesOne(db, s, s.id); }
    hide Apply;
  }

  lemma StmtKeepsLedger(n0: nat, db: Db, s: Stmt)
    requires LedgerInRange(db) && Pre(n0, db, s)
    ensures LedgerInRange(Apply(db, s))
  {
    var db' := Apply(db, s);
    SameKeys(db, s);
    hide Apply, Pre;
    forall k | 0 <= k < |db'.ledger| ensures LineInRange(db'.rows, db'.ledger[k]) {
      assert LineInRange(db.rows, db'.ledger[k]);
    }
  }

  /** Rows keep their keys, and the ledger gets at most the line a statement records. */
  lemma SameKeys(db: Db, s: Stmt)
    ensures var db' := Apply(db, s);
            && |db.rows| <= |db'.rows|
            && (forall i :: 0 <= i < |db.rows| ==> db'.rows[i].key == db.rows[i].key)
            && db'.ledger == if s.Record? then db.ledger + [s.inv] else db.ledger
    ensures forall n0 :: Pre(n0, db, s) && s.Record? ==> LineInRange(db.rows, s.inv)
  {
    hide LineInRange;
  }

  /** No statement of a transaction that meets its needs trips the unique index or the link check, or closes a cycle. */
  lemma StmtKeepsInv(n0: nat, db: Db, s: Stmt)
    requires StmtInv(db) && Pre(n0, db, s)
    ensures StmtInv(Apply(db, s))
  {
    hide Apply, Pre, Sound, Acyclic, LedgerInRange;
    StmtKeepsSound(n0, db, s);
    StmtKeepsAcyclic(n0, db, s);
    StmtKeepsLedger(n0, db, s);
  }

  /** A statement adds to the history the transaction started from. */
  lemma StmtGrows(base: Db, db: Db, s: Stmt)
    requires StmtInv(db) && Pre(|base.rows|, db, s) && Grows(base, db)
    ensures Grows(base, Apply(db, s))
  {
    hide Acyclic, LedgerInRange, Sound, RowGrows;
    var db' := Apply(db, s);
    TablesGrow(base, db, s);
    hide Apply, Pre;
    forall i | 0 <= i < |base.rows| ensures RowGrows(base.rows[i], db'.rows[i]) {
      assert RowGrows(base.rows[i], db.rows[i]);
      RowStmtGrows(base, db, s, i);
    }
  }

  /** No table loses anything, and new citations are of one row. */
  lemma TablesAfter(db: Db, s: Stmt)
    ensures var db' := Apply(db, s);
            && |db.rows| <= |db'.rows|
            && db'.ledger == (if s.Record? then db.ledger + [s.inv] else db.ledger)
            && db.provenance.Keys <= db'.provenance.Keys
            && (forall k :: k in db'.provenance ==>
                  k in db.provenance || (s.Cite? && k.0 == s.row) || (s.InheritCitations? && k.0 == s.row))
            && db.ingest.Keys <= db'.ingest.Keys
            && SourcesStay(db.episodes, db'.episodes)
  {
    match s
    case Cite(row, episode, quote, pass) => CitedKeys(db, row, episode, quote, pass);
    case InheritCitations(row, ids) => InheritedKeys(db, row, ids);
    case _ =>
  }

  lemma TablesGrow(base: Db, db: Db, s: Stmt)
    requires Pre(|base.rows|, db, s) && Grows(base, db)
    ensures var db' := Apply(db, s);
            && |db.rows| <= |db'.rows|
            && |base.ledger| <= |db'.ledger| && db'.ledger[..|base.ledger|] == base.ledger
            && base.provenance.Keys <= db'.provenance.Keys
            && (forall k :: k in db'.provenance && k.0 < |base.rows| && base.rows[k.0].key.kind == Event ==>
                  k in base.provenance)
            && base.ingest.Keys <= db'.ingest.Keys
            && SourcesStay(base.episodes, db'.episodes)
  {
    hide Apply;
    TablesAfter(db, s);
    forall i | 0 <= i < |base.rows| ensures db.rows[i].key == base.rows[i].key {
      assert RowGrows(base.rows[i], db.rows[i]);
    }
    hide RowGrows;
  }

  lemma RowStmtGrows(base: Db, db: Db, s: Stmt, i: nat)
    requires StmtInv(db) && Pre(|base.rows|, db, s)
    requires i < |base.rows| <= |db.rows| && RowGrows(base.rows[i], db.rows[i])
    ensures i < |Apply(db, s).rows| && RowGrows(base.rows[i], Apply(db, s).rows[i])
  {
  }

  lemma {:induction false} RunKeeps(base: Db, db: Db, todo: seq<Stmt>)
    requires StmtInv(db) && SafeAhead(|base.rows|, db, todo) && Grows(base, db)
    ensures StmtInv(Run(db, todo)) && Grows(base, Run(db, todo))
    decreases |todo|
  {
    hide StmtInv, Grows, Pre, Apply;
    if todo != [] {
      StmtKeepsInv(|base.rows|, db, todo[0]);
      StmtGrows(base, db, todo[0]);
      RunKeeps(base, Apply(db, todo[0]), todo[1..]);
    }
  }

  // ---- the transactions restore the rest ----

  /** Old pairs stand: their rows keep what a pair talks about, and no new ledger line names them. */
  lemma PairsStand(db: Db, db': Db, more: seq<Invalidation>, r: nat)
    requires Paired(db) && Grows(db, db') && db'.ledger == db.ledger + more
    requires r < |db.rows| && Supersedes(db.rows[r].key.kind) && db.rows[r].supersededBy.Some?
    requires forall k :: 0 <= k < |more| ==> !Names(more[k], r, db.rows[r].supersededBy.value)
    ensures db'.rows[r].supersededBy == db.rows[r].supersededBy
    ensures var s := db.rows[r].supersededBy.value; s < |db.rows| && Pair(db', r, s)
  {
    var s := db.rows[r].supersededBy.value;
    assert RowGrows(db.rows[r], db'.rows[r]) && RowGrows(db.rows[s], db'.rows[s]);
    CountNamingOthers(db.ledger, more, r, s);
    assert forall k :: |db.ledger| <= k < |db'.ledger| ==> db'.ledger[k] == more[k - |db.ledger|];
  }

  /** A new pair, announced by the one new ledger line. */
  lemma PairForms(db: Db, db': Db, e: Invalidation, r: nat, s: nat)
    requires LedgerInRange(db) && db'.ledger == db.ledger + [e] && Names(e, r, s)
    requires r < |db'.rows| && s < |db'.rows| && (|db.rows| <= r || |db.rows| <= s)
    requires db'.rows[s].key == db'.rows[r].key && db'.rows[r].validTo == Some(db'.rows[s].validFrom)
    requires e.validTo == db'.rows[s].validFrom
    ensures Pair(db', r, s)
  {
    forall k | 0 <= k < |db.ledger| ensures !Names(db.ledger[k], r, s) {
      assert LineInRange(db.rows, db.ledger[k]);
    }
    CountNamingNone(db.ledger, r, s);
    CountNamingSnoc(db.ledger, e, r, s);
  }

  lemma EventCitationsStay(db: Db, db': Db, r: nat)
    requires Grows(db, db') && r < |db.rows| && db.rows[r].key.kind == Event
    ensures Episodes(db', r) == Episodes(db, r)
  {
  }

  lemma FoldedAreEvents(db: Db, s: nat, r: nat)
    requires LedgerInRange(db) && s < |db.rows| && db.rows[s].key.kind == Event && r in FoldedInto(db.ledger, s)
    ensures r < |db.rows| && db.rows[r].key.kind == Event
  {
    var k :| 0 <= k < |db.ledger| && db.ledger[k].successor == Some(s) && db.ledger[k].row == r;
    assert LineInRange(db.rows, db.ledger[k]);
  }

  lemma EpisodesOfSame(db: Db, db': Db, ids: set<nat>)
    requires forall r :: r in ids ==> Episodes(db', r) == Episodes(db, r)
    ensures EpisodesOf(db', ids) == EpisodesOf(db, ids)
  {
    forall e ensures e in EpisodesOf(db', ids) <==> e in EpisodesOf(db, ids) {
      if k :| k in db'.provenance && k.0 in ids && k.1 == e {
        assert e in Episodes(db', k.0);
      }
      if k :| k in db.provenance && k.0 in ids && k.1 == e {
        assert e in Episodes(db, k.0);
      }
    }
  }

  lemma CommonGroupsSame(acl: seq<string>, rows: seq<Memory>, rows': seq<Memory>, members: set<nat>)
    requires forall r :: r in members ==> r < |rows| <= |rows'| && rows'[r].acl == rows[r].acl
    requires CommonGroups(acl, rows, members)
    ensures CommonGroups(acl, rows', members)
  {
    assert forall x :: OnAll(x, rows', members) <==> OnAll(x, rows, members);
  }

  /** An old summary stays faithful when no new ledger line folds anything into it. */
  lemma SummaryStands(db: Db, db': Db, more: seq<Invalidation>, s: nat)
    requires LedgerInRange(db) && FaithfulSummaries(db) && Grows(db, db') && db'.ledger == db.ledger + more
    requires s < |db.rows| && db.rows[s].key.kind == Event
    requires forall k :: 0 <= k < |more| ==> more[k].successor != Some(s)
    ensures FaithfulSummary(db', s)
  {
    hide Acyclic;
    var members := FoldedInto(db.ledger, s);
    assert forall k :: |db.ledger| <= k < |db'.ledger| ==> db'.ledger[k] == more[k - |db.ledger|];
    assert forall k :: 0 <= k < |db.ledger| ==> db'.ledger[k] == db.ledger[k];
    assert FoldedInto(db'.ledger, s) == members;
    forall r | r in members
      ensures r < |db.rows| && Episodes(db', r) == Episodes(db, r) && db'.rows[r].acl == db.rows[r].acl
    {
      FoldedAreEvents(db, s, r);
      EventCitationsStay(db, db', r);
      assert RowGrows(db.rows[r], db'.rows[r]);
    }
    assert FaithfulSummary(db, s);
    EventCitationsStay(db, db', s);
    EpisodesOfSame(db, db', members);
    assert RowGrows(db.rows[s], db'.rows[s]);
    if members != {} {
      CommonGroupsSame(db.rows[s].acl, db.rows, db'.rows, members);
    }
  }

  lemma NothingFoldedInto(db: Db, s: nat)
    requires LedgerInRange(db) && |db.rows| <= s
    ensures FoldedInto(db.ledger, s) == {}
  {
    forall k | 0 <= k < |db.ledger| ensures db.ledger[k].successor != Some(s) {
      assert LineInRange(db.rows, db.ledger[k]);
    }
  }

  lemma CitedKeys(db: Db, row: nat, episode: string, quote: string, pass: string)
    ensures Cited(db, row, episode, quote, pass).Keys == db.provenance.Keys + {(row, episode)}
  {
  }

  /** One citation written: existing rows keep theirs, and the row has at least this one. */
  lemma CitationCounts(db: Db, db': Db, row: nat, episode: string)
    requires CitesInRange(db) && |db.rows| <= |db'.rows| <= |db.rows| + 1 && row < |db'.rows|
    requires |db'.rows| > |db.rows| ==> row == |db.rows|
    requires db'.provenance.Keys == db.provenance.Keys + {(row, episode)}
    ensures CitesInRange(db')
  {
    forall r | 0 <= r < |db'.rows| ensures Episodes(db', r) != {} {
      if r == row {
        assert (row, episode) in db'.provenance;
        assert episode in Episodes(db', r);
      } else {
        var e :| e in Episodes(db, r);
        assert (r, e) in db'.provenance;
        assert e in Episodes(db', r);
      }
    }
  }

  // ---- commitOne ----

  lemma SafeTwo(n0: nat, db: Db, s: seq<Stmt>)
    requires |s| == 2 && Pre(n0, db, s[0]) && Pre(n0, Apply(db, s[0]), s[1])
    ensures SafeAhead(n0, db, s)
  {
    hide Pre, Apply;
    assert SafeAhead(n0, Apply(Apply(db, s[0]), s[1]), s[1..][1..]);
    assert SafeAhead(n0, Apply(db, s[0]), s[1..]);
  }

  lemma SafeCons(n0: nat, db: Db, s: seq<Stmt>)
    requires |s| > 0 && Pre(n0, db, s[0]) && SafeAhead(n0, Apply(db, s[0]), s[1..])
    ensures SafeAhead(n0, db, s)
  {
  }

  /** Each statement of commitOne finds what it needs: in particular the current row is closed before its successor is
      inserted, and the successor is open when it is linked. */
  lemma CommitOneSafe(db: Db, ep: Episode, p: Proposal)
    requires StmtInv(db)
    ensures SafeAhead(|db.rows|, db, PlanFor(db, ep, p).stmts)
  {
    hide IsRestatement, FindLive, MergeStrings, MergeAttrs, Acyclic, LedgerInRange;
    var n, plan := |db.rows|, PlanFor(db, ep, p);
    var s, key := plan.stmts, p.draft.key;
    match plan.outcome
    case Created =>
      NoneLive(db.rows, key);
      SafeTwo(n, db, s);
    case Reinforced =>
      CurrentWins(db.rows[plan.id].attributes, p.draft.attributes);
      SafeTwo(n, db, s);
    case Backfill =>
      var db1 := Apply(db, s[0]);
      assert s[1..][0] == s[1] && s[1..][1] == s[2];
      SafeTwo(n, db1, s[1..]);
      SafeCons(n, db, s);
    case Superseding =>
      SupersedeSafe(db, ep, p, plan.replaced.value);
  }

  lemma CurrentWins(current: map<string, string>, incoming: map<string, string>)
    ensures Extends(current, MergeAttrs(current, incoming))
  {
  }

  lemma NoneLive(rows: seq<Memory>, key: Key)
    ensures FindLive(rows, key).None? ==> forall i :: 0 <= i < |rows| ==> !(rows[i].Live() && rows[i].key == key)
  {
    forall i | 0 <= i < |rows| && rows[i].Live() && rows[i].key == key ensures FindLive(rows, key).Some? {
      FindLiveFromMisses(rows, key, 0, i);
    }
  }

  lemma SupersedeSafe(db: Db, ep: Episode, p: Proposal, c: nat)
    requires StmtInv(db) && FindLive(db.rows, p.draft.key) == Some(c) && Supersedes(p.draft.key.kind)
    ensures SafeAhead(|db.rows|, db, SupersedePlan(|db.rows|, c, ep, p).stmts)
  {
    hide FindLive, Acyclic, LedgerInRange, Apply;
    var n, s := |db.rows|, SupersedePlan(|db.rows|, c, ep, p).stmts;
    var db1 := Apply(db, s[0]);
    SupersedeRows(db, ep, p, c);
    forall i | 0 <= i < |db1.rows| ensures !(db1.rows[i].Live() && db1.rows[i].key == p.draft.key) {
      FindLiveExact(db.rows, p.draft.key, i);
    }
    SupersedeSteps(n, db, s);
  }

  lemma SupersedeSteps(n0: nat, db: Db, s: seq<Stmt>)
    requires |s| == 5
    requires Pre(n0, db, s[0])
    requires Pre(n0, Apply(db, s[0]), s[1])
    requires Pre(n0, Apply(Apply(db, s[0]), s[1]), s[2])
    requires Pre(n0, Apply(Apply(Apply(db, s[0]), s[1]), s[2]), s[3])
    requires Pre(n0, Apply(Apply(Apply(Apply(db, s[0]), s[1]), s[2]), s[3]), s[4])
    ensures SafeAhead(n0, db, s)
  {
    hide Pre, Apply;
    var db1 := Apply(db, s[0]);
    var db2 := Apply(db1, s[1]);
    var db3 := Apply(db2, s[2]);
    assert s[3..][0] == s[3] && s[3..][1] == s[4];
    SafeTwo(n0, db3, s[3..]);
    assert s[2..][1..] == s[3..] && s[1..][1..] == s[2..];
    SafeCons(n0, db2, s[2..]);
    SafeCons(n0, db1, s[1..]);
    SafeCons(n0, db, s);
  }

  /** commitOne keeps everything, and only adds to history. */
  lemma CommitOneKeepsInv(db: Db, ep: Episode, p: Proposal)
    requires Inv(db)
    ensures Inv(CommitOne(db, ep, p)) && Grows(db, CommitOne(db, ep, p))
  {
    hide StmtInv, Boundary, PlanFor, Grows;
    InvSplits(db);
    CommitOneSafe(db, ep, p);
    GrowsReflexive(db);
    RunKeeps(db, db, PlanFor(db, ep, p).stmts);
    match PlanFor(db, ep, p).outcome {
      case Created => CreateBoundary(db, ep, p);
      case Reinforced => ReinforceBoundary(db, ep, p);
      case Backfill => BackfillBoundary(db, ep, p);
      case Superseding => SupersedeBoundary(db, ep, p);
    }
    InvSplits(CommitOne(db, ep, p));
  }

  /** Without new ledger lines, pairs and summaries stand; a new row is in neither. */
  lemma QuietBoundary(db: Db, db': Db)
    requires Inv(db) && Grows(db, db') && db'.ledger == db.ledger
    requires forall i :: |db.rows| <= i < |db'.rows| ==> db'.rows[i].supersededBy.None?
    requires forall i :: 0 <= i < |db.rows| && Supersedes(db.rows[i].key.kind) && db.rows[i].supersededBy.None? ==>
               db'.rows[i].supersededBy.None?
    ensures Paired(db') && FaithfulSummaries(db')
  {
    hide Sound, Acyclic, CitesInRange;
    assert db'.ledger == db.ledger + [];
    forall r | 0 <= r < |db'.rows| && Supersedes(db'.rows[r].key.kind) && db'.rows[r].supersededBy.Some?
      ensures db'.rows[r].supersededBy.value < |db'.rows| && Pair(db', r, db'.rows[r].supersededBy.value)
    {
      assert RowGrows(db.rows[r], db'.rows[r]);
      PairsStand(db, db', [], r);
    }
    forall s | 0 <= s < |db'.rows| && db'.rows[s].key.kind == Event ensures FaithfulSummary(db', s) {
      if s < |db.rows| {
        assert RowGrows(db.rows[s], db'.rows[s]);
        SummaryStands(db, db', [], s);
      } else {
        NothingFoldedInto(db, s);
      }
    }
  }

  lemma CreateBoundary(db: Db, ep: Episode, p: Proposal)
    requires Inv(db) && PlanFor(db, ep, p).outcome == Created && Grows(db, CommitOne(db, ep, p))
    ensures Boundary(CommitOne(db, ep, p))
  {
    hide Sound, Acyclic, LedgerInRange, Paired, FaithfulSummaries, PlanFor, CommitOne, Cited, Grows, CitesInRange;
    var db', n := CommitOne(db, ep, p), |db.rows|;
    CreateShape(db, ep, p);
    CitedKeys(db, n, ep.id, p.quote, p.pass);
    CitationCounts(db, db', n, ep.id);
    QuietBoundary(db, db');
  }

  lemma ReinforceBoundary(db: Db, ep: Episode, p: Proposal)
    requires Inv(db) && PlanFor(db, ep, p).outcome == Reinforced && Grows(db, CommitOne(db, ep, p))
    ensures Boundary(CommitOne(db, ep, p))
  {
    hide Sound, Acyclic, LedgerInRange, Paired, FaithfulSummaries, PlanFor, CommitOne, Cited, Grows, CitesInRange,
         MergeStrings, MergeAttrs, FindLive;
    var db', c := CommitOne(db, ep, p), PlanFor(db, ep, p).id;
    ReinforceShape(db, ep, p);
    CitedKeys(db, c, ep.id, p.quote, p.pass);
    CitationCounts(db, db', c, ep.id);
    QuietBoundary(db, db');
  }

  /** One new ledger line, between state rows, at least one of them new. */
  lemma PairBoundary(db: Db, db': Db, e: Invalidation, r: nat, s: nat)
    requires Inv(db) && Grows(db, db') && db'.ledger == db.ledger + [e] && Names(e, r, s)
    requires |db'.rows| == |db.rows| + 1 && r < |db'.rows| && s < |db'.rows| && (r == |db.rows| || s == |db.rows|)
    requires Supersedes(db'.rows[s].key.kind) && db'.rows[s].key == db'.rows[r].key
    requires db'.rows[r].supersededBy == Some(s) && db'.rows[r].validTo == Some(db'.rows[s].validFrom)
    requires e.validTo == db'.rows[s].validFrom
    requires forall i :: (0 <= i < |db.rows| && i != r && Supersedes(db.rows[i].key.kind) &&
                          db.rows[i].supersededBy.None?) ==> db'.rows[i].supersededBy.None?
    requires r == |db.rows| || db'.rows[|db.rows|].supersededBy.None?
    requires r < |db.rows| ==> db.rows[r].supersededBy.None?
    ensures Paired(db') && FaithfulSummaries(db')
  {
    hide Sound, Acyclic, CitesInRange;
    forall i | 0 <= i < |db'.rows| && Supersedes(db'.rows[i].key.kind) && db'.rows[i].supersededBy.Some?
      ensures db'.rows[i].supersededBy.value < |db'.rows| && Pair(db', i, db'.rows[i].supersededBy.value)
    {
      if i == r {
        PairForms(db, db', e, r, s);
      } else {
        assert RowGrows(db.rows[i], db'.rows[i]);
        PairsStand(db, db', [e], i);
      }
    }
    forall t | 0 <= t < |db'.rows| && db'.rows[t].key.kind == Event ensures FaithfulSummary(db', t) {
      assert t < |db.rows| && RowGrows(db.rows[t], db'.rows[t]);
      SummaryStands(db, db', [e], t);
    }
  }

  lemma BackfillBoundary(db: Db, ep: Episode, p: Proposal)
    requires Inv(db) && PlanFor(db, ep, p).outcome == Backfill && Grows(db, CommitOne(db, ep, p))
    ensures Boundary(CommitOne(db, ep, p))
  {
    hide Sound, Acyclic, LedgerInRange, Paired, FaithfulSummaries, CommitOne, Cited, Grows, CitesInRange, FindLive,
         IsRestatement;
    var db', n, c := CommitOne(db, ep, p), |db.rows|, FindLive(db.rows, p.draft.key).value;
    BackfillShape(db, ep, p);
    CitedKeys(db, n, ep.id, p.quote, p.pass);
    CitationCounts(db, db', n, ep.id);
    var e := Invalidation(p.draft.key.tenant, n, Some(c), db.rows[c].validFrom, Backfilled);
    PairBoundary(db, db', e, n, c);
  }

  lemma SupersedeBoundary(db: Db, ep: Episode, p: Proposal)
    requires Inv(db) && PlanFor(db, ep, p).outcome == Superseding && Grows(db, CommitOne(db, ep, p))
    ensures Boundary(CommitOne(db, ep, p))
  {
    hide Acyclic, LedgerInRange, Paired, FaithfulSummaries, CommitOne, Cited, Grows, CitesInRange, FindLive,
         IsRestatement, OneLive;
    var db', n, c := CommitOne(db, ep, p), |db.rows|, FindLive(db.rows, p.draft.key).value;
    SupersedeShape(db, ep, p);
    CitedKeys(db, n, ep.id, p.quote, p.pass);
    CitationCounts(db, db', n, ep.id);
    var e := Invalidation(p.draft.key.tenant, c, Some(n), p.draft.validFrom, Superseded);
    PairBoundary(db, db', e, c, n);
  }

  // ---- bookkeeping statements ----

  /** Statements that touch neither rows, citations nor ledger. */
  lemma BookkeepingKeepsInv(db: Db, s: Stmt)
    requires Inv(db) && (s.SaveEpisode? || s.LogIngest?)
    ensures Inv(Apply(db, s)) && Grows(db, Apply(db, s)) && Pre(|db.rows|, db, s)
  {
    hide Sound, Acyclic, LedgerInRange, Paired, FaithfulSummaries, CitesInRange;
    var db' := Apply(db, s);
    InvSplits(db);
    GrowsReflexive(db);
    StmtGrows(db, db, s);
    StmtKeepsInv(|db.rows|, db, s);
    QuietBoundary(db, db');
    SameCitations(db, db');
    InvSplits(db');
  }

  lemma SameCitations(db: Db, db': Db)
    requires CitesInRange(db) && |db'.rows| == |db.rows| && db'.provenance == db.provenance
    ensures CitesInRange(db')
  {
    forall r | 0 <= r < |db'.rows| ensures Episodes(db', r) != {} {
      assert Episodes(db', r) == Episodes(db, r);
    }
  }

  // ---- source deletion ----

  /** The lines a list of ledger statements writes. */
  function Lines(stmts: seq<Stmt>): seq<Invalidation> {
    if stmts == [] then []
    else (if stmts[0].Record? then [stmts[0].inv] else []) + Lines(stmts[1..])
  }

  ghost predicate AllRecords(db: Db, stmts: seq<Stmt>) {
    forall k :: 0 <= k < |stmts| ==> stmts[k].Record? && LineInRange(db.rows, stmts[k].inv)
  }

  lemma RecordOnlyLogs(n0: nat, db: Db, s: Stmt)
    requires s.Record?
    ensures Apply(db, s) == db.(ledger := db.ledger + [s.inv])
    ensures Pre(n0, db, s) <==> LineInRange(db.rows, s.inv)
  {
  }

  lemma {:induction false} RunRecords(n0: nat, db: Db, stmts: seq<Stmt>)
    requires AllRecords(db, stmts)
    ensures SafeAhead(n0, db, stmts) && Run(db, stmts) == db.(ledger := db.ledger + Lines(stmts))
    decreases |stmts|
  {
    hide Apply, Pre, LineInRange;
    if stmts != [] {
      RecordOnlyLogs(n0, db, stmts[0]);
      var db1 := Apply(db, stmts[0]);
      RunRecords(n0, db1, stmts[1..]);
      assert db.ledger + Lines(stmts) == db1.ledger + Lines(stmts[1..]);
    } else {
      assert db.ledger + Lines(stmts) == db.ledger;
    }
  }

  lemma {:induction false} LinesOf(stmts: seq<Stmt>)
    requires forall k :: 0 <= k < |stmts| ==> stmts[k].Record?
    ensures |Lines(stmts)| == |stmts| && forall k :: 0 <= k < |stmts| ==> Lines(stmts)[k] == stmts[k].inv
  {
    if stmts != [] {
      LinesOf(stmts[1..]);
    }
  }

  ghost predicate NameNobody(stmts: seq<Stmt>) {
    forall k :: 0 <= k < |stmts| ==> stmts[k].Record? && stmts[k].inv.successor.None?
  }

  lemma {:induction false} DeletionLedgerLines(db: Db, ids: set<nat>, tenant: string, at: int, n: nat)
    requires n <= |db.rows|
    ensures AllRecords(db, DeletionLedger(ids, tenant, at, n)) && NameNobody(DeletionLedger(ids, tenant, at, n))
  {
    if n > 0 {
      DeletionLedgerLines(db, ids, tenant, at, n - 1);
      var prior, all := DeletionLedger(ids, tenant, at, n - 1), DeletionLedger(ids, tenant, at, n);
      assert forall k :: 0 <= k < |prior| ==> all[k] == prior[k];
    }
  }

  /** Closing any rows and recording any citers keeps everything; only the interval check can refuse it. */
  lemma CloseKeepsInv(db: Db, open: set<nat>, citers: set<nat>, tenant: string, at: int, n: nat)
    requires Inv(db) && n <= |db.rows|
    ensures var plan := ClosePlan(open, citers, tenant, at, n);
            SafeAhead(|db.rows|, db, plan) && Inv(Run(db, plan)) && Grows(db, Run(db, plan))
  {
    hide Inv, StmtInv, Boundary, Grows;
    var plan := ClosePlan(open, citers, tenant, at, n);
    InvSplits(db);
    GrowsReflexive(db);
    if plan != [] {
      var lines := DeletionLedger(citers, tenant, at, n);
      var db1 := Apply(db, plan[0]);
      assert plan[1..] == lines;
      DeletionLedgerLines(db1, citers, tenant, at, n);
      RunRecords(|db.rows|, db1, lines);
      LinesOf(lines);
      SafeCons(|db.rows|, db, plan);
      RunKeeps(db, db, plan);
      ClosingBoundary(db, Run(db, plan), plan[0], Lines(lines));
      InvSplits(Run(db, plan));
    }
  }

  /** So does InvalidateByDocument. */
  lemma InvalidateKeepsInv(db: Db, tenant: string, document: string, at: int)
    requires Inv(db)
    ensures var plan := InvalidatePlan(db, tenant, document, at);
            SafeAhead(|db.rows|, db, plan) && Inv(Run(db, plan)) && Grows(db, Run(db, plan))
  {
    hide Inv, SafeAhead, Grows, Orphans, CitersOf, ClosePlan;
    CloseKeepsInv(db, Orphans(db, tenant, document), CitersOf(db, tenant, document), tenant, at, |db.rows|);
  }

  lemma ClosingBoundary(db: Db, db': Db, s: Stmt, more: seq<Invalidation>)
    requires Inv(db) && Grows(db, db') && s.CloseOpen?
    requires db' == Apply(db, s).(ledger := db.ledger + more)
    requires forall k :: 0 <= k < |more| ==> more[k].successor.None?
    ensures Boundary(db')
  {
    hide Sound, Acyclic;
    forall r | 0 <= r < |db'.rows| && Supersedes(db'.rows[r].key.kind) && db'.rows[r].supersededBy.Some?
      ensures db'.rows[r].supersededBy.value < |db'.rows| && Pair(db', r, db'.rows[r].supersededBy.value)
    {
      PairsStand(db, db', more, r);
    }
    forall t | 0 <= t < |db'.rows| && db'.rows[t].key.kind == Event ensures FaithfulSummary(db', t) {
      SummaryStands(db, db', more, t);
    }
    SameCitations(db, db');
  }

  // ---- consolidation ----

  /** A group, however stale: events that still carry the groups the scan read. */
  ghost predicate GroupOk(rows: seq<Memory>, g: Group) {
    && g.key.kind == Event
    && forall i :: 0 <= i < |g.members| ==>
         var m := g.members[i];
         m.id < |rows| && rows[m.id].key.kind == Event && rows[m.id].acl == m.row.acl
  }

  lemma GroupStaysOk(db: Db, db': Db, g: Group)
    requires GroupOk(db.rows, g) && Grows(db, db')
    ensures GroupOk(db'.rows, g)
  {
    forall i | 0 <= i < |g.members|
      ensures var m := g.members[i];
              m.id < |db'.rows| && db'.rows[m.id].key.kind == Event && db'.rows[m.id].acl == m.row.acl
    {
      assert RowGrows(db.rows[g.members[i].id], db'.rows[g.members[i].id]);
    }
  }

  lemma {:induction false} LedgerForLines(rows: seq<Memory>, members: seq<Member>, tenant: string, n: nat, at: int)
    requires n < |rows| && rows[n].key.kind == Event
    requires forall i :: 0 <= i < |members| ==> members[i].id < |rows| && rows[members[i].id].key.kind == Event
    ensures var s := LedgerFor(members, tenant, n, at);
            |s| == |members| && forall k :: 0 <= k < |s| ==>
              s[k] == Record(Invalidation(tenant, members[k].id, Some(n), at, Consolidated)) &&
              LineInRange(rows, s[k].inv)
  {
    if members != [] {
      LedgerForLines(rows, members[1..], tenant, n, at);
    }
  }

  lemma {:induction false} LedgerForIsRecords(members: seq<Member>, tenant: string, n: nat, closedAt: int)
    ensures forall k :: 0 <= k < |LedgerFor(members, tenant, n, closedAt)| ==>
              LedgerFor(members, tenant, n, closedAt)[k].Record?
  {
    if members != [] {
      LedgerForIsRecords(members[1..], tenant, n, closedAt);
    }
  }

  /** The state after the four statements of a consolidation that precede its ledger lines. */
  function Folded(db: Db, g: Group, s: Summary, closedAt: int): Db
    requires g.members != []
  {
    var n, ids := |db.rows|, Ids(g.members);
    var closed := Apply(db, CloseOpen(ids, closedAt));
    var inserted := Apply(closed, InsertRow(SummaryRow(g, s, closedAt)));
    Apply(Apply(inserted, LinkRows(ids, n)), InheritCitations(n, ids))
  }

  lemma MembersInRange(rows: seq<Memory>, g: Group, r: nat)
    requires GroupOk(rows, g) && r in Ids(g.members)
    ensures r < |rows| && rows[r].key.kind == Event
  {
    var m :| m in g.members && m.id == r;
    var i :| 0 <= i < |g.members| && g.members[i] == m;
  }

  lemma FoldedRows(db: Db, g: Group, s: Summary, closedAt: int)
    requires g.members != []
    ensures var db', n, ids := Folded(db, g, s, closedAt), |db.rows|, Ids(g.members);
            && |db'.rows| == n + 1 && db'.ledger == db.ledger && db'.episodes == db.episodes && db'.ingest == db.ingest
            && (n !in ids ==> db'.rows[n] == SummaryRow(g, s, closedAt))
            && (forall i :: 0 <= i < n && i !in ids ==> db'.rows[i] == db.rows[i])
            && (forall i :: 0 <= i < n && i in ids ==>
                  db'.rows[i] ==
                  db.rows[i].(validTo := if db.rows[i].validTo.None? then Some(closedAt) else db.rows[i].validTo,
                              supersededBy := Some(n)))
  {
    hide SummaryRow;
  }

  lemma InheritedKeys(db: Db, row: nat, ids: set<nat>)
    ensures forall k :: k in Inherited(db, row, ids) <==>
              k in db.provenance || (k.0 == row && k.1 in EpisodesOf(db, ids))
  {
  }

  lemma FoldedCitations(db: Db, g: Group, s: Summary, closedAt: int)
    requires g.members != []
    ensures var db', n := Folded(db, g, s, closedAt), |db.rows|;
            forall k :: k in db'.provenance <==>
              k in db.provenance || (k.0 == n && k.1 in EpisodesOf(db, Ids(g.members)))
  {
    hide SummaryRow, Inherited;
    var n, ids := |db.rows|, Ids(g.members);
    var closed := Apply(db, CloseOpen(ids, closedAt));
    var linked := Apply(Apply(closed, InsertRow(SummaryRow(g, s, closedAt))), LinkRows(ids, n));
    assert linked.provenance == db.provenance;
    assert EpisodesOf(linked, ids) == EpisodesOf(db, ids);
    InheritedKeys(linked, n, ids);
  }

  /** Consolidate's statements in order: the originals are closed before the summary is inserted, and the summary is
      open when they are linked to it. */
  lemma ConsolidateSafe(db: Db, g: Group, s: Summary, closedAt: int)
    requires StmtInv(db) && GroupOk(db.rows, g) && ConsolidatePlan(|db.rows|, g, s, closedAt).Ok?
    ensures var n, plan := |db.rows|, ConsolidatePlan(|db.rows|, g, s, closedAt).value;
            var lines := LedgerFor(g.members, g.key.tenant, n, closedAt);
            && SafeAhead(n, db, plan)
            && Run(db, plan) == Folded(db, g, s, closedAt).(ledger := db.ledger + Lines(lines))
            && AllRecords(Folded(db, g, s, closedAt), lines)
  {
    hide StmtInv, SharedAcl, SummaryRow;
    var n, ids := |db.rows|, Ids(g.members);
    var plan := ConsolidatePlan(n, g, s, closedAt).value;
    var lines := LedgerFor(g.members, g.key.tenant, n, closedAt);
    var db1 := Apply(db, plan[0]);
    var db2 := Apply(db1, plan[1]);
    var db3 := Apply(db2, plan[2]);
    var db4 := Apply(db3, plan[3]);
    assert n !in ids by {
      if n in ids { MembersInRange(db.rows, g, n); }
    }
    FoldedRows(db, g, s, closedAt);
    SummaryRowFacts(g, s, closedAt);
    FoldedLedger(db, db4, g, closedAt);
    RunRecords(n, db4, lines);
    ConsolidatePre(db, g, s, closedAt);
    assert plan[4..] == lines && plan[3..][1..] == plan[4..];
    assert plan[2..][1..] == plan[3..] && plan[1..][1..] == plan[2..];
    FourSafe(n, db, plan);
  }

  lemma SummaryRowFacts(g: Group, s: Summary, closedAt: int)
    requires g.members != []
    ensures var m := SummaryRow(g, s, closedAt);
            m.key == g.key && m.validTo.None? && m.supersededBy.None? && m.acl == SharedAcl(g.members)
  {
    hide SharedAcl, AllSubjects, Earliest;
  }

  lemma FoldedLedger(db: Db, db4: Db, g: Group, closedAt: int)
    requires GroupOk(db.rows, g) && |db4.rows| == |db.rows| + 1
    requires forall i :: 0 <= i < |db.rows| ==> db4.rows[i].key == db.rows[i].key
    requires db4.rows[|db.rows|].key.kind == Event
    ensures AllRecords(db4, LedgerFor(g.members, g.key.tenant, |db.rows|, closedAt))
  {
    forall i | 0 <= i < |g.members|
      ensures g.members[i].id < |db4.rows| && db4.rows[g.members[i].id].key.kind == Event
    {
    }
    LedgerForLines(db4.rows, g.members, g.key.tenant, |db.rows|, closedAt);
  }

  lemma FourSafe(n0: nat, db: Db, s: seq<Stmt>)
    requires |s| >= 4
    requires Pre(n0, db, s[0])
    requires Pre(n0, Apply(db, s[0]), s[1])
    requires Pre(n0, Apply(Apply(db, s[0]), s[1]), s[2])
    requires Pre(n0, Apply(Apply(Apply(db, s[0]), s[1]), s[2]), s[3])
    requires SafeAhead(n0, Apply(Apply(Apply(Apply(db, s[0]), s[1]), s[2]), s[3]), s[4..])
    ensures SafeAhead(n0, db, s)
    ensures Run(db, s) == Run(Apply(Apply(Apply(Apply(db, s[0]), s[1]), s[2]), s[3]), s[4..])
  {
    hide Pre, Apply;
    var db1 := Apply(db, s[0]);
    var db2 := Apply(db1, s[1]);
    var db3 := Apply(db2, s[2]);
    assert s[3..][1..] == s[4..] && s[2..][1..] == s[3..] && s[1..][1..] == s[2..];
    SafeCons(n0, db3, s[3..]);
    SafeCons(n0, db2, s[2..]);
    SafeCons(n0, db1, s[1..]);
    SafeCons(n0, db, s);
    assert Run(db3, s[3..]) == Run(Apply(db3, s[3]), s[4..]);
    assert Run(db2, s[2..]) == Run(db3, s[3..]);
    assert Run(db1, s[1..]) == Run(db2, s[2..]);
  }

  lemma ConsolidatePre(db: Db, g: Group, s: Summary, closedAt: int)
    requires GroupOk(db.rows, g) && ConsolidatePlan(|db.rows|, g, s, closedAt).Ok?
    ensures var n, plan := |db.rows|, ConsolidatePlan(|db.rows|, g, s, closedAt).value;
            var db1 := Apply(db, plan[0]);
            var db2 := Apply(db1, plan[1]);
            Pre(n, db, plan[0]) && Pre(n, db1, plan[1]) && Pre(n, db2, plan[2]) &&
            Pre(n, Apply(db2, plan[2]), plan[3])
  {
    hide SharedAcl, Earliest, AllSubjects;
    var n, ids := |db.rows|, Ids(g.members);
    forall r | r in ids ensures r < n && db.rows[r].key.kind == Event {
      MembersInRange(db.rows, g, r);
    }
  }

  /** Consolidate, on any group however stale, keeps everything: its summary cites exactly what the members cite and is
      visible to exactly their common groups. */
  lemma ConsolidateKeepsInv(db: Db, g: Group, s: Summary, closedAt: int)
    requires Inv(db) && GroupOk(db.rows, g) && ConsolidatePlan(|db.rows|, g, s, closedAt).Ok?
    ensures var plan := ConsolidatePlan(|db.rows|, g, s, closedAt).value;
            SafeAhead(|db.rows|, db, plan) && Inv(Run(db, plan)) && Grows(db, Run(db, plan))
  {
    hide Inv, StmtInv, Boundary, Grows, SharedAcl, SummaryRow, GroupOk, Folded;
    var plan := ConsolidatePlan(|db.rows|, g, s, closedAt).value;
    InvSplits(db);
    GrowsReflexive(db);
    ConsolidateSafe(db, g, s, closedAt);
    RunKeeps(db, db, plan);
    ConsolidateBoundary(db, Run(db, plan), g, s, closedAt);
    InvSplits(Run(db, plan));
  }

  /** A whole consolidation: members still open end at the closing time, members already closed keep their end, all of
      them lead to the summary, which is the one new row; every other row, episode and log entry stays. */
  lemma ConsolidationReplaces(db: Db, g: Group, s: Summary, closedAt: int)
    requires StmtInv(db) && GroupOk(db.rows, g) && ConsolidatePlan(|db.rows|, g, s, closedAt).Ok?
    ensures var n, ids := |db.rows|, Ids(g.members);
            var db' := Run(db, ConsolidatePlan(n, g, s, closedAt).value);
            && |db'.rows| == n + 1 && db'.rows[n] == SummaryRow(g, s, closedAt)
            && db'.episodes == db.episodes && db'.ingest == db.ingest
            && forall i :: 0 <= i < n ==>
                 db'.rows[i] ==
                 if i !in ids then db.rows[i]
                 else db.rows[i].(validTo := if db.rows[i].validTo.None? then Some(closedAt) else db.rows[i].validTo,
                                  supersededBy := Some(n))
  {
    hide StmtInv, SummaryRow, SharedAcl, Folded, GroupOk;
    ConsolidateSafe(db, g, s, closedAt);
    FoldedRows(db, g, s, closedAt);
    NewRowIsNoMember(db.rows, g);
  }

  /** The ledger lines of a consolidation: one per member, in order. */
  ghost predicate FoldLines(lines: seq<Invalidation>, members: seq<Member>, n: nat) {
    && |lines| == |members|
    && forall k :: 0 <= k < |lines| ==> lines[k].row == members[k].id && lines[k].successor == Some(n)
  }

  lemma NewLines(rows: seq<Memory>, g: Group, n: nat, closedAt: int)
    requires n < |rows| && rows[n].key.kind == Event && GroupOk(rows, g)
    ensures FoldLines(Lines(LedgerFor(g.members, g.key.tenant, n, closedAt)), g.members, n)
  {
    var stmts := LedgerFor(g.members, g.key.tenant, n, closedAt);
    LedgerForLines(rows, g.members, g.key.tenant, n, closedAt);
    LinesOf(stmts);
  }

  /** What a finished consolidation left, in terms of its group. */
  ghost predicate Consolidation(db: Db, db': Db, g: Group, more: seq<Invalidation>) {
    var n, ids := |db.rows|, Ids(g.members);
    && GroupOk(db.rows, g) && g.members != []
    && |db'.rows| == n + 1 && db'.ledger == db.ledger + more && FoldLines(more, g.members, n)
    && db'.rows[n].key.kind == Event && db'.rows[n].acl == SharedAcl(g.members)
    && (forall i :: 0 <= i < n && i !in ids ==> db'.rows[i] == db.rows[i])
    && (forall k :: k in db'.provenance <==> k in db.provenance || (k.0 == n && k.1 in EpisodesOf(db, ids)))
  }

  lemma ConsolidateBoundary(db: Db, db': Db, g: Group, s: Summary, closedAt: int)
    requires Inv(db) && Grows(db, db') && GroupOk(db.rows, g) && g.members != []
    requires var n := |db.rows|;
             var lines := Lines(LedgerFor(g.members, g.key.tenant, n, closedAt));
             db' == Folded(db, g, s, closedAt).(ledger := db.ledger + lines)
    ensures Boundary(db')
  {
    hide Inv, Grows, Folded, GroupOk, SummaryRow, SharedAcl, FoldLines, Paired, FaithfulSummaries, CitesInRange;
    var n := |db.rows|;
    var more := Lines(LedgerFor(g.members, g.key.tenant, n, closedAt));
    FoldedRows(db, g, s, closedAt);
    FoldedCitations(db, g, s, closedAt);
    SummaryRowFacts(g, s, closedAt);
    NewRowIsNoMember(db.rows, g);
    GroupStaysOk(db, db', g);
    GroupIsOfEvents(db.rows, g);
    NewLines(db'.rows, g, n, closedAt);
    assert Consolidation(db, db', g, more);
    ConsolidatePairs(db, db', g, more);
    ConsolidateCitations(db, db', g, more);
    ConsolidateSummaries(db, db', g, more);
  }

  lemma GroupIsOfEvents(rows: seq<Memory>, g: Group)
    requires GroupOk(rows, g)
    ensures g.key.kind == Event
  {
  }

  lemma NewRowIsNoMember(rows: seq<Memory>, g: Group)
    requires GroupOk(rows, g)
    ensures |rows| !in Ids(g.members)
  {
    forall m | m in g.members ensures m.id != |rows| {
      var i :| 0 <= i < |g.members| && g.members[i] == m;
    }
  }

  lemma ConsolidatePairs(db: Db, db': Db, g: Group, more: seq<Invalidation>)
    requires Inv(db) && Grows(db, db') && Consolidation(db, db', g, more)
    ensures Paired(db')
  {
    hide Sound, Acyclic, LedgerInRange, FaithfulSummaries, CitesInRange, SharedAcl;
    forall r | 0 <= r < |db'.rows| && Supersedes(db'.rows[r].key.kind) && db'.rows[r].supersededBy.Some?
      ensures db'.rows[r].supersededBy.value < |db'.rows| && Pair(db', r, db'.rows[r].supersededBy.value)
    {
      assert RowGrows(db.rows[r], db'.rows[r]);
      if r in Ids(g.members) {
        MembersInRange(db.rows, g, r);
      }
      assert db'.rows[r] == db.rows[r];
      forall k | 0 <= k < |more| ensures !Names(more[k], r, db.rows[r].supersededBy.value) {
        assert db.rows[g.members[k].id].key.kind == Event;
      }
      PairsStand(db, db', more, r);
    }
  }

  lemma ConsolidateCitations(db: Db, db': Db, g: Group, more: seq<Invalidation>)
    requires Inv(db) && Consolidation(db, db', g, more)
    ensures CitesInRange(db')
  {
    hide Sound, Acyclic, LedgerInRange, FaithfulSummaries, Paired, SharedAcl;
    var n, ids := |db.rows|, Ids(g.members);
    forall r | 0 <= r < |db'.rows| ensures Episodes(db', r) != {} {
      if r == n {
        var m := g.members[0];
        assert m in g.members && m.id in ids;
        MembersInRange(db.rows, g, m.id);
        var e :| e in Episodes(db, m.id);
        assert (m.id, e) in db.provenance;
        assert e in EpisodesOf(db, ids);
        assert (n, e) in db'.provenance;
        assert e in Episodes(db', n);
      } else {
        var e :| e in Episodes(db, r);
        assert (r, e) in db'.provenance;
        assert e in Episodes(db', r);
      }
    }
  }

  lemma ConsolidateSummaries(db: Db, db': Db, g: Group, more: seq<Invalidation>)
    requires Inv(db) && Grows(db, db') && Consolidation(db, db', g, more)
    ensures FaithfulSummaries(db')
  {
    hide Sound, Acyclic, Paired, SharedAcl, Grows, FaithfulSummary;
    var n, ids := |db.rows|, Ids(g.members);
    forall t | 0 <= t < |db'.rows| && db'.rows[t].key.kind == Event ensures FaithfulSummary(db', t) {
      if t < n {
        SameKind(db, db', t);
        SummaryStands(db, db', more, t);
      } else {
        NewSummary(db, db', g, more);
      }
    }
  }

  lemma SameKind(db: Db, db': Db, t: nat)
    requires Grows(db, db') && t < |db.rows|
    ensures db'.rows[t].key == db.rows[t].key
  {
    assert RowGrows(db.rows[t], db'.rows[t]);
  }

  lemma NewSummary(db: Db, db': Db, g: Group, more: seq<Invalidation>)
    requires Inv(db) && Grows(db, db') && Consolidation(db, db', g, more)
    ensures FaithfulSummary(db', |db.rows|)
  {
    hide Inv, Consolidation, Grows, CommonGroups;
    FoldedIsMembers(db, db', g, more);
    NewSummaryCites(db, db', g, more);
    NewSummaryGroups(db, db', g, more);
  }

  lemma NewSummaryCites(db: Db, db': Db, g: Group, more: seq<Invalidation>)
    requires Inv(db) && Grows(db, db') && Consolidation(db, db', g, more)
    ensures Episodes(db', |db.rows|) == EpisodesOf(db', Ids(g.members))
  {
    hide Sound, Acyclic, Paired, SharedAcl, FaithfulSummaries, Grows, GroupOk, FoldLines;
    var n, ids := |db.rows|, Ids(g.members);
    forall r | r in ids ensures r < n && Episodes(db', r) == Episodes(db, r) {
      MembersInRange(db.rows, g, r);
      EventCitationsStay(db, db', r);
    }
    EpisodesOfSame(db, db', ids);
    forall e ensures e in Episodes(db', n) <==> e in EpisodesOf(db, ids) {
      assert e in Episodes(db', n) <==> (n, e) in db'.provenance;
    }
  }

  lemma NewSummaryGroups(db: Db, db': Db, g: Group, more: seq<Invalidation>)
    requires Grows(db, db') && Consolidation(db, db', g, more)
    ensures |db'.rows| > |db.rows| && CommonGroups(db'.rows[|db.rows|].acl, db'.rows, Ids(g.members))
  {
    hide SharedAcl, TrimSpace, InAll, OnAll, Grows;
    forall x ensures InAll(x, g.members) <==> OnAll(x, db'.rows, Ids(g.members)) {
      MembersAcl(db, db', g, x);
    }
    forall a ensures a in SharedAcl(g.members) <==>
                     a != "" && exists x :: OnAll(x, db'.rows, Ids(g.members)) && TrimSpace(x) == a
    {
      SharedAclExact(g.members, a);
    }
  }

  lemma FoldedIsMembers(db: Db, db': Db, g: Group, more: seq<Invalidation>)
    requires Inv(db) && Consolidation(db, db', g, more)
    ensures FoldedInto(db'.ledger, |db.rows|) == Ids(g.members)
  {
    hide SharedAcl, GroupOk, Sound, Acyclic, Paired, CitesInRange, FaithfulSummaries, EpisodesOf, FoldLines, FoldedInto;
    var n := |db.rows|;
    forall k | 0 <= k < |db.ledger| ensures db.ledger[k].successor != Some(n) {
      assert LineInRange(db.rows, db.ledger[k]);
    }
    hide Inv;
    FoldedLines(db.ledger, more, g.members, n);
  }

  lemma FoldedLines(ledger: seq<Invalidation>, more: seq<Invalidation>, members: seq<Member>, n: nat)
    requires FoldLines(more, members, n) && forall k :: 0 <= k < |ledger| ==> ledger[k].successor != Some(n)
    ensures FoldedInto(ledger + more, n) == Ids(members)
  {
    var all := ledger + more;
    forall r ensures r in FoldedInto(all, n) <==> r in Ids(members) {
      if k :| 0 <= k < |all| && all[k].successor == Some(n) && all[k].row == r {
        assert all[k] == more[k - |ledger|] && members[k - |ledger|] in members;
      }
      if m :| m in members && m.id == r {
        var k :| 0 <= k < |members| && members[k] == m;
        assert all[|ledger| + k].row == r;
      }
    }
  }

  lemma MembersAcl(db: Db, db': Db, g: Group, x: string)
    requires Grows(db, db') && GroupOk(db.rows, g)
    ensures InAll(x, g.members) <==> OnAll(x, db'.rows, Ids(g.members))
  {
    GroupStaysOk(db, db', g);
    forall m | m in g.members ensures m.id in Ids(g.members) && m.id < |db'.rows| && db'.rows[m.id].acl == m.row.acl {
      var i :| 0 <= i < |g.members| && g.members[i] == m;
    }
  }
}
