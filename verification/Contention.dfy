/** When sessions get in each other's way: which commit the unique index refuses, and which writes the checks refuse. */
module Contention {
  import opened Text
  import opened Records
  import opened Database
  import opened Committing
  import opened Convergence
  import opened Maintaining
  import opened History
  import opened Transactions
  import opened Refusals
  import opened Sessions
  import opened World

  // ---- refusals, state by state ----

  /** The next statement of a transaction that does not wait, and that a constraint refuses. */
  ghost predicate Refused(w: State, t: nat)
    requires NextStmt(w, t).Some?
  {
    !Constraints(Apply(View(w.committed, w.txs[t]), NextStmt(w, t).value).rows)
  }

  function LastKey(t: Tx): Key
    requires Last(t).Settle?
  {
    Last(t).a.p.draft.key
  }

  ghost predicate SomeLive(rows: seq<Memory>, key: Key) {
    exists r :: LiveOn(rows, r, key)
  }

  lemma NoLiveIff(rows: seq<Memory>, key: Key)
    requires OneLive(rows) && Supersedes(key.kind)
    ensures CurrentOf(rows, key).None? <==> !SomeLive(rows, key)
  {
    hide CurrentOf, OneLive;
    CurrentIs(rows, key);
    if r :| 0 <= r < |rows| && rows[r].Live() && rows[r].key == key {
      assert LiveOn(rows, r, key);
    }
  }

  /** Once a commit's lookup has found a row, or its new row is in, no statement of it is refused. */
  lemma SureNeverRefused(w: State, t: nat)
    requires WorldInv(w) && t in w.txs && w.txs[t].job.Write? && NextStmt(w, t).Some? && !Blind(w.txs[t])
    ensures !Refused(w, t)
  {
    hide Inv, Checked, TxsOk, Apart, SweepsOk, ScansOk, TxOk, RunOps, Run, StmtsOf, SafeAhead, StmtInv, Passes, Apply,
         RowOk, OneLive;
    var c, tx := w.committed, w.txs[t];
    assert TxOk(c, tx) by { InvParts(w); assert TxsOk(w); TxIn(w, t); }
    var v, stmts := Base(c, tx), Issued(c, tx);
    ViewOk(c, tx);
    LastPasses(c, tx);
    NextPasses(v, stmts, tx.at);
    SafeNext(|v.rows|, View(c, tx), stmts[tx.at..]);
    assert stmts[tx.at..][0] == stmts[tx.at];
    SoundAndChecked(Apply(View(c, tx), stmts[tx.at]));
  }

  lemma TxIn(w: State, t: nat)
    requires TxsOk(w) && t in w.txs
    ensures TxOk(w.committed, w.txs[t])
  {
  }

  lemma NextPasses(db: Db, todo: seq<Stmt>, k: nat)
    requires Passes(db, todo) && k < |todo|
    ensures Checked(Apply(Run(db, Take(todo, k)), todo[k]).rows)
  {
    hide Checked, Apply;
    PassesTake(db, todo, k + 1);
    assert todo[..k + 1] == todo[..k] + [todo[k]];
    PassesAppend(db, todo[..k], [todo[k]]);
  }

  lemma SafeNext(n0: nat, db: Db, todo: seq<Stmt>)
    requires SafeAhead(n0, db, todo) && StmtInv(db) && todo != []
    ensures StmtInv(Apply(db, todo[0]))
  {
    hide Pre, Apply, StmtInv;
    StmtKeepsInv(n0, db, todo[0]);
  }

  lemma SoundAndChecked(db: Db)
    requires StmtInv(db) && Checked(db.rows)
    ensures Constraints(db.rows)
  {
  }

  /** A commit is refused exactly when its lookup found no current row and there is one now. */
  lemma CommitRefusedIff(w: State, t: nat)
    requires WorldInv(w) && t in w.txs && w.txs[t].job.Write? && NextStmt(w, t).Some?
    ensures Refused(w, t) <==> Blind(w.txs[t]) && SomeLive(w.committed.rows, LastKey(w.txs[t]))
  {
    hide WorldInv, TxOk, CurrentOf, Refused, SomeLive;
    if Blind(w.txs[t]) {
      BlindRefusedIff(w, t);
    } else {
      SureNeverRefused(w, t);
    }
  }

  lemma BlindRefusedIff(w: State, t: nat)
    requires WorldInv(w) && t in w.txs && w.txs[t].job.Write? && NextStmt(w, t).Some? && Blind(w.txs[t])
    ensures Refused(w, t) <==> SomeLive(w.committed.rows, LastKey(w.txs[t]))
  {
    hide WorldInv, TxOk, CurrentOf, SomeLive, OneLive, RowOk, View, Issued, Base, StmtInv, Grows, Apply;
    var c, tx := w.committed, w.txs[t];
    InvParts(w);
    TxIn(w, t);
    BlindInserts(c, tx);
    NoLiveIff(c.rows, LastKey(tx));
    ViewOk(c, tx);
    BlindDraftOk(c, tx);
    assert tx.at == 0;
    InsertFits(View(c, tx), Last(tx).a.p.draft);
  }

  lemma BlindDraftOk(c: Db, t: Tx)
    requires TxOk(c, t) && t.job.Write? && Blind(t)
    ensures DraftOk(Last(t).a.p.draft)
  {
    hide OpsReady, OpReady, Issued, LocksOk, AllGuarded, Settles;
    LastProposal(t);
  }

  lemma InsertFits(v: Db, d: Draft)
    requires Checked(v.rows) && DraftOk(d)
    ensures var rows := Apply(v, InsertRow(Stored(d, None, None))).rows; Constraints(rows) <==> OneLive(rows)
  {
    hide OneLive, DraftOk;
    InsertChecked(v, d, None, None);
  }

  /** A consolidation or deletion is refused exactly at its first statement, when that would end a row before it
      began. */
  lemma SingleRefusedIff(w: State, t: nat)
    requires WorldInv(w) && t in w.txs && w.txs[t].job.Single? && NextStmt(w, t).Some?
    ensures var op := w.txs[t].job.op;
            Refused(w, t) <==> w.txs[t].at == 0 && !Closable(w.committed.rows, ClosedBy(op), ClosingTime(op))
  {
    hide WorldInv, CurrentOf, OneLive, RowOk, StmtInv, Grows, Apply, OpsReady, OpReady, LocksOk, AllGuarded, Closable,
         RunOps, Run, StmtsOf, Passes, SafeAhead, Checked, Constraints;
    var c, tx := w.committed, w.txs[t];
    InvParts(w);
    TxIn(w, t);
    var op, v, stmts := tx.job.op, Base(c, tx), Issued(c, tx);
    assert Earlier(tx) == [];
    OpsNone(c);
    ViewOk(c, tx);
    if tx.at == 0 {
      ViewAtStart(c, tx);
      FirstCloses(c, op);
      ClosingChecked(c, ClosedBy(op), ClosingTime(op));
    } else {
      LastPasses(c, tx);
      NextPasses(v, stmts, tx.at);
    }
    SafeNext(|v.rows|, View(c, tx), stmts[tx.at..]);
    assert stmts[tx.at..][0] == stmts[tx.at];
    ChecksDecide(Apply(View(c, tx), stmts[tx.at]));
  }

  lemma ChecksDecide(db: Db)
    requires StmtInv(db)
    ensures Constraints(db.rows) <==> Checked(db.rows)
  {
  }

  /** No statement of a consolidation is ever refused when its closing time is not before the scan that found the
      group. */
  lemma ConsolidationNeverRefused(run: seq<State>, events: seq<Event>, i: nat, t: nat, scan: Scan)
    requires IsRun(run, events) && i < |run| && t in run[i].txs && NextStmt(run[i], t).Some?
    requires run[i].txs[t].job.Single? && run[i].txs[t].job.op.Fold?
    requires scan in run[i].scans && scan.group == run[i].txs[t].job.op.group
    requires scan.now <= run[i].txs[t].job.op.closedAt
    ensures !Refused(run[i], t)
  {
    hide WorldInv, IsRun, Refused, NextStmt, ScanOk, Closable;
    RunOk(run, events, i);
    InvParts(run[i]);
    ScanClosable(run[i].committed.rows, scan, run[i].txs[t].job.op.closedAt);
    SingleRefusedIff(run[i], t);
  }

  lemma ScanClosable(rows: seq<Memory>, scan: Scan, closedAt: int)
    requires ScanOk(rows, scan) && scan.now <= closedAt
    ensures Closable(rows, Ids(scan.group.members), closedAt)
  {
    hide GroupOk;
    forall r | r in Ids(scan.group.members) ensures r < |rows| && rows[r].validFrom <= scan.now {
      var m :| m in scan.group.members && m.id == r;
      var k :| 0 <= k < |scan.group.members| && scan.group.members[k] == m;
      MemberInRange(rows, scan.group, k);
    }
  }

  // ---- since a commit looked, another session has made a row live ----

  /** From step i to step j row r has been live on the key, and not just before. */
  ghost predicate Raised(run: seq<State>, key: Key, r: nat, i: nat, j: nat) {
    && 0 < i <= j < |run| && !LiveOn(run[i - 1].committed.rows, r, key)
    && forall k :: i <= k <= j ==> LiveOn(run[k].committed.rows, r, key)
  }

  /** Some row has been made live on the key after step l, and still is in step j. */
  ghost predicate RaisedSince(run: seq<State>, key: Key, l: nat, j: nat) {
    exists r: nat, i: nat :: l < i && Raised(run, key, r, i, j)
  }

  lemma {:induction false} LastRise(run: seq<State>, key: Key, r: nat, m: nat, j: nat) returns (i: nat)
    requires m <= j < |run| && !LiveOn(run[m].committed.rows, r, key) && LiveOn(run[j].committed.rows, r, key)
    ensures m < i <= j && Raised(run, key, r, i, j)
    decreases j
  {
    hide LiveOn;
    if LiveOn(run[j - 1].committed.rows, r, key) {
      i := LastRise(run, key, r, m, j - 1);
    } else {
      i := j;
    }
  }

  /** Row r was not live on the key at some moment from step l to step j. */
  ghost predicate Absent(run: seq<State>, key: Key, r: nat, l: nat, j: nat) {
    exists m :: l <= m <= j < |run| && !LiveOn(run[m].committed.rows, r, key)
  }

  /** The transaction looked for the current row of a proposal in step l and has been under way since. */
  ghost predicate At(run: seq<State>, events: seq<Event>, l: nat, j: nat, t: nat) {
    && 0 < l <= j < |run| == |events| && events[l] == Look(t)
    && forall k :: l - 1 <= k <= j ==> t in run[k].txs
  }

  lemma AtLonger(run: seq<State>, events: seq<Event>, l: nat, j: nat, t: nat)
    requires 0 < j < |run| && At(run, events, l, j - 1, t) && t in run[j].txs
    ensures At(run, events, l, j, t)
  {
  }

  // ---- how a lookup comes to its answer ----

  /** The transaction an event is about. */
  function TxOf(e: Event): Option<nat> {
    match e
    case BeginCommit(t, _) => Some(t)
    case BeginConsolidate(t, _, _, _) => Some(t)
    case BeginInvalidate(t, _, _, _) => Some(t)
    case Decide(t) => Some(t)
    case Look(t) => Some(t)
    case Resume(t) => Some(t)
    case Execute(t) => Some(t)
    case Conclude(t) => Some(t)
    case Commit(t) => Some(t)
    case Rollback(t) => Some(t)
    case _ => None
  }

  lemma OthersStay(w: State, e: Event, t: nat)
    requires TxOf(e) != Some(t)
    ensures t in Next(w, e).txs <==> t in w.txs
    ensures t in w.txs ==> Next(w, e).txs[t] == w.txs[t]
  {
    hide ConsolidatePlan, Deletion, Redecided, View, Issued, Apply, Constraints, Waits, Sweep, Counted, Reads, Further,
         FindLive, HeldByOther, Complete, Proposable, DecayWaits, WithSeen, ToLog;
  }

  function NextKey(t: Tx): Key
    requires t.job.Write? && |t.seen| < |t.job.call.ps|
  {
    t.job.call.ps[|t.seen|].draft.key
  }

  /** What a lookup step does to its transaction: it waits for the row it found, or has its answer. */
  lemma LookCases(w: State, t: nat)
    requires t in w.txs && Looked(w, t) != w
    ensures Due(w, t) && t in Looked(w, t).txs
    ensures var tx, tx', key := w.txs[t], Looked(w, t).txs[t], NextKey(w.txs[t]);
            var c := FindLive(View(w.committed, tx).rows, key);
            if tx'.waiting.Some? then Supersedes(key.kind) && tx' == tx.(waiting := c)
            else if c.None? || !Supersedes(key.kind) then tx' == WithSeen(tx, None, {})
            else exists s, locks :: tx' == WithSeen(tx, Some(s), locks)
  {
    hide FindLive, View, HeldByOther, Issued;
  }

  lemma ResumeCases(w: State, t: nat)
    requires t in w.txs && Resumed(w, t) != w
    ensures w.txs[t].waiting.Some? && t in Resumed(w, t).txs
    ensures var tx, tx' := w.txs[t], Resumed(w, t).txs[t];
            if LiveIn(View(w.committed, tx).rows, tx.waiting.value) then
              exists s, locks :: tx' == WithSeen(tx, Some(s), locks)
            else tx' == WithSeen(tx, None, {})
  {
    hide View, HeldByOther;
  }

  lemma SeenGrows(t: Tx, s: Option<Memory>, locks: set<Lock>)
    ensures |WithSeen(t, s, locks).seen| == |t.seen| + 1
  {
  }

  lemma BlindSeen(t: Tx, s: Option<Memory>, locks: set<Lock>)
    requires t.job.Write? && !t.logging && |t.seen| < |t.job.call.ps|
    ensures Blind(WithSeen(t, s, locks)) <==> s.None? && Supersedes(NextKey(t).kind)
    ensures Last(WithSeen(t, s, locks)).Settle? && LastKey(WithSeen(t, s, locks)) == NextKey(t)
  {
    SeenIsNext(t, s, locks);
  }

  /** Begin, Execute and Conclude leave no transaction blind that was not. */
  lemma OtherwiseNotBlind(w: State, e: Event, t: nat)
    requires TxOf(e) == Some(t) && !e.Look? && !e.Resume? && t in Next(w, e).txs
    ensures (t in w.txs && Next(w, e).txs[t] == w.txs[t]) ||
            (!Blind(Next(w, e).txs[t]) && Next(w, e).txs[t].waiting.None?)
  {
    hide ConsolidatePlan, Orphans, CitersOf, Redecided, View, Issued, Apply, Constraints, Waits, Taken, Proposable;
    match e {
      case Execute(_) =>
      case Conclude(_) => if Concludable(w, t) { LogIsNext(w.txs[t]); }
      case _ =>
    }
  }

  /** A key the transaction has not settled has the same live rows in its view as in the committed state. */
  lemma UnsettledView(w: State, t: nat, key: Key, r: nat)
    requires WorldInv(w) && t in w.txs && w.txs[t].job.Write? && w.txs[t].at == |Issued(w.committed, w.txs[t])|
    requires Supersedes(key.kind) && !Settles(OpsOf(w.txs[t]), key)
    ensures LiveOn(w.committed.rows, r, key) <==> LiveOn(View(w.committed, w.txs[t]).rows, r, key)
  {
    hide WorldInv, Inv, RunOps, Run, StmtsOf, OpsReady, OpReady, LocksOk, AllGuarded, JobOk, Settles, Blind;
    InvParts(w);
    TxIn(w, t);
    var c, tx := w.committed, w.txs[t];
    var free := tx.(waiting := None);
    SameOps(tx, free);
    ReadyView(c, tx, free);
    FreeIsSure(c, tx);
    ViewAtEnd(c, free);
    ReadyToTheEnd(c, tx);
    WritesArePlain(tx);
    UnsettledSame(c, OpsOf(tx), key);
  }

  lemma FreeIsSure(c: Db, t: Tx)
    requires TxOk(c, t) && t.at == |Issued(c, t)|
    ensures !Blind(t) && OpReady(Base(c, t), Last(t))
  {
    hide OpsReady, OpReady, LocksOk, AllGuarded, JobOk, Earlier, Base;
    if Blind(t) {
      LengthIs(Base(c, t), Last(t));
    }
  }

  lemma WaitsOnlyWrite(w: State, t: nat)
    requires WorldInv(w) && t in w.txs && w.txs[t].waiting.Some?
    ensures w.txs[t].job.Write? && |w.txs[t].seen| < |w.txs[t].job.call.ps| && !w.txs[t].logging
    ensures w.txs[t].at == |Issued(w.committed, w.txs[t])| && !Settles(OpsOf(w.txs[t]), NextKey(w.txs[t]))
    ensures Supersedes(NextKey(w.txs[t]).kind)
  {
    hide Inv, Checked, Apart, SweepsOk, ScansOk, OpsReady, OpReady, LocksOk, AllGuarded, Settles;
    assert TxOk(w.committed, w.txs[t]);
  }

  /** The row a transaction waits for was live on the key when it looked. */
  lemma {:induction false} WaitingSince(run: seq<State>, events: seq<Event>, j: nat, t: nat) returns (l: nat)
    requires IsRun(run, events) && j < |run| && t in run[j].txs && run[j].txs[t].waiting.Some?
    ensures At(run, events, l, j, t)
    ensures var tx := run[j].txs[t];
            tx.job.Write? && |tx.seen| < |tx.job.call.ps| &&
            LiveOn(run[l].committed.rows, tx.waiting.value, NextKey(tx))
    ensures 0 < l <= j && t in run[l - 1].txs && |run[l - 1].txs[t].seen| == |run[j].txs[t].seen|
    decreases j
  {
    hide WorldInv, Next, IsRun, Looked, Resumed, View, OpsOf, Settles, FindLive, Blind, At, LiveOn, HeldByOther, Issued;
    RunOk(run, events, j);
    WaitsOnlyWrite(run[j], t);
    RunStarts(run, events);
    if j == 0 {
      assert false;
    } else {
      RunOk(run, events, j - 1);
      RunStep(run, events, j);
      var w, e := run[j - 1], events[j];
      if t in w.txs && w.txs[t] == run[j].txs[t] {
        l := WaitingSince(run, events, j - 1, t);
        AtLonger(run, events, l, j, t);
      } else {
        WaitingIsNew(w, e, t);
        l := j;
        AtNow(run, events, j, t);
      }
    }
  }

  lemma RunStarts(run: seq<State>, events: seq<Event>)
    requires IsRun(run, events)
    ensures run[0] == START && |run| == |events|
  {
  }

  lemma AtNow(run: seq<State>, events: seq<Event>, j: nat, t: nat)
    requires 0 < j < |run| == |events| && events[j] == Look(t) && t in run[j - 1].txs && t in run[j].txs
    ensures At(run, events, j, j, t)
  {
  }

  lemma WaitingIsNew(w: State, e: Event, t: nat)
    requires WorldInv(w) && WorldInv(Next(w, e))
    requires t in Next(w, e).txs && Next(w, e).txs[t].waiting.Some? && !(t in w.txs && w.txs[t] == Next(w, e).txs[t])
    ensures e == Look(t) && t in w.txs && Next(w, e).committed == w.committed
    ensures var tx := Next(w, e).txs[t];
            tx.job.Write? && |tx.seen| < |tx.job.call.ps| && LiveOn(w.committed.rows, tx.waiting.value, NextKey(tx)) &&
            |tx.seen| == |w.txs[t].seen|
  {
    hide WorldInv, Looked, Resumed, View, OpsOf, Settles, FindLive, Blind, HeldByOther, Issued, Next;
    var w' := Next(w, e);
    WaitsOnlyWrite(w', t);
    if TxOf(e) != Some(t) {
      OthersStay(w, e, t);
      assert false;
    } else if e.Look? {
      NextLooks(w, e);
      LookCases(w, t);
      FoundIsLive(View(w.committed, w.txs[t]).rows, NextKey(w.txs[t]));
      SameOps(w.txs[t], w'.txs[t]);
      UnsettledView(w, t, NextKey(w.txs[t]), w'.txs[t].waiting.value);
    } else if e.Resume? {
      NextLooks(w, e);
      ResumeCases(w, t);
      assert false;
    } else {
      OtherwiseNotBlind(w, e, t);
      assert false;
    }
  }

  lemma FoundIsLive(rows: seq<Memory>, key: Key)
    ensures FindLive(rows, key).Some? ==> LiveOn(rows, FindLive(rows, key).value, key)
  {
  }

  lemma NextLooks(w: State, e: Event)
    ensures e.Look? ==> Next(w, e) == Looked(w, e.t) && (e.t !in w.txs ==> Looked(w, e.t) == w)
    ensures e.Resume? ==> Next(w, e) == Resumed(w, e.t) && (e.t !in w.txs ==> Resumed(w, e.t) == w)
    ensures e.Look? || e.Resume? ==> Next(w, e).committed == w.committed && Next(w, e).txs.Keys == w.txs.Keys
  {
    hide FindLive, View, HeldByOther, Issued, WithSeen;
  }

  lemma BlindOnlyWrite(w: State, t: nat)
    requires WorldInv(w) && t in w.txs && Blind(w.txs[t])
    ensures w.txs[t].job.Write? && Supersedes(LastKey(w.txs[t]).kind)
    ensures !Settles(Earlier(w.txs[t]), LastKey(w.txs[t]))
  {
    hide Inv, Checked, Apart, SweepsOk, ScansOk, OpsReady, OpReady, LocksOk, AllGuarded, Settles;
    assert TxOk(w.committed, w.txs[t]);
  }

  /** Whatever row is live now was not live at some moment since a blind transaction looked. */
  lemma {:induction false} BlindSince(run: seq<State>, events: seq<Event>, j: nat, t: nat) returns (l: nat)
    requires IsRun(run, events) && j < |run| && t in run[j].txs && Blind(run[j].txs[t])
    ensures At(run, events, l, j, t)
    ensures forall r: nat :: Absent(run, LastKey(run[j].txs[t]), r, l, j)
    ensures 0 < l <= j && t in run[l - 1].txs && |run[j].txs[t].seen| == |run[l - 1].txs[t].seen| + 1
    decreases j
  {
    hide WorldInv, Next, IsRun, Looked, Resumed, View, OpsOf, Settles, FindLive, At, LiveOn, HeldByOther, Issued;
    hide Absent;
    RunOk(run, events, j);
    RunStarts(run, events);
    if j == 0 {
      assert false;
    } else {
      RunOk(run, events, j - 1);
      RunStep(run, events, j);
      var w, e := run[j - 1], events[j];
      if t in w.txs && w.txs[t] == run[j].txs[t] {
        l := BlindSince(run, events, j - 1, t);
        AtLonger(run, events, l, j, t);
        forall r: nat ensures Absent(run, LastKey(run[j].txs[t]), r, l, j) {
          AbsentLonger(run, LastKey(run[j].txs[t]), r, l, j);
        }
      } else {
        BlindIsNew(w, e, t);
        if e.Look? {
          l := j;
          AtNow(run, events, j, t);
          forall r: nat ensures Absent(run, LastKey(run[j].txs[t]), r, l, j) {
            AbsentNow(run, LastKey(run[j].txs[t]), r, l, j);
          }
        } else {
          l := WaitingSince(run, events, j - 1, t);
          AtLonger(run, events, l, j, t);
          RunOk(run, events, l);
          forall r: nat ensures Absent(run, LastKey(run[j].txs[t]), r, l, j) {
            WaitedFor(run, events, l, j, t, r);
          }
        }
      }
    }
  }

  lemma AbsentLonger(run: seq<State>, key: Key, r: nat, l: nat, j: nat)
    requires 0 < j < |run| && Absent(run, key, r, l, j - 1)
    ensures Absent(run, key, r, l, j)
  {
  }

  lemma AbsentNow(run: seq<State>, key: Key, r: nat, l: nat, j: nat)
    requires l <= j < |run| && !LiveOn(run[j].committed.rows, r, key)
    ensures Absent(run, key, r, l, j)
  {
  }

  lemma AbsentThen(run: seq<State>, key: Key, r: nat, l: nat, j: nat)
    requires l <= j < |run| && !LiveOn(run[l].committed.rows, r, key)
    ensures Absent(run, key, r, l, j)
  {
  }

  /** The row it waited for was the only live one then, and is not live now. */
  lemma WaitedFor(run: seq<State>, events: seq<Event>, l: nat, j: nat, t: nat, r: nat)
    requires 0 < j < |run| && l <= j && WorldInv(run[l]) && t in run[j - 1].txs && t in run[j].txs
    requires run[j].committed == run[j - 1].committed
    requires var tx := run[j - 1].txs[t];
             && tx.waiting.Some? && tx.job.Write? && |tx.seen| < |tx.job.call.ps| && Supersedes(NextKey(tx).kind)
             && LiveOn(run[l].committed.rows, tx.waiting.value, NextKey(tx))
             && !LiveOn(run[j - 1].committed.rows, tx.waiting.value, NextKey(tx))
    ensures Absent(run, NextKey(run[j - 1].txs[t]), r, l, j)
  {
    hide WorldInv, Absent, OneLive;
    InvParts(run[l]);
    var key, r0 := NextKey(run[j - 1].txs[t]), run[j - 1].txs[t].waiting.value;
    if r == r0 {
      AbsentNow(run, key, r, l, j);
    } else {
      OnlyLive(run[l].committed.rows, key, r0, r);
      AbsentThen(run, key, r, l, j);
    }
  }

  lemma OnlyLive(rows: seq<Memory>, key: Key, r: nat, o: nat)
    requires OneLive(rows) && Supersedes(key.kind) && LiveOn(rows, r, key) && o != r
    ensures !LiveOn(rows, o, key)
  {
  }

  lemma BlindIsNew(w: State, e: Event, t: nat)
    requires WorldInv(w) && WorldInv(Next(w, e))
    requires t in Next(w, e).txs && Blind(Next(w, e).txs[t]) && !(t in w.txs && w.txs[t] == Next(w, e).txs[t])
    ensures (e == Look(t) || e == Resume(t)) && t in w.txs && Next(w, e).committed == w.committed
    ensures |Next(w, e).txs[t].seen| == |w.txs[t].seen| + 1
    ensures e.Look? ==> !SomeLive(w.committed.rows, LastKey(Next(w, e).txs[t]))
    ensures e.Resume? ==>
              var tx := w.txs[t];
              && tx.waiting.Some? && tx.job.Write? && |tx.seen| < |tx.job.call.ps| && Supersedes(NextKey(tx).kind)
              && LastKey(Next(w, e).txs[t]) == NextKey(tx)
              && !LiveOn(w.committed.rows, tx.waiting.value, NextKey(tx))
  {
    hide WorldInv, Looked, Resumed, View, OpsOf, Settles, FindLive, Blind, HeldByOther, Issued, Next, LiveOn, LiveIn,
         WithSeen, SomeLive;
    var w' := Next(w, e);
    BlindOnlyWrite(w', t);
    if TxOf(e) != Some(t) {
      OthersStay(w, e, t);
      assert false;
    } else if e.Look? {
      NextLooks(w, e);
      LookCases(w, t);
      LookedBlind(w, t);
    } else if e.Resume? {
      NextLooks(w, e);
      ResumeCases(w, t);
      ResumedBlind(w, t);
    } else {
      OtherwiseNotBlind(w, e, t);
      assert false;
    }
  }

  lemma LookedBlind(w: State, t: nat)
    requires WorldInv(w) && WorldInv(Looked(w, t)) && t in w.txs && Looked(w, t) != w && t in Looked(w, t).txs
    requires Blind(Looked(w, t).txs[t])
    ensures !SomeLive(w.committed.rows, LastKey(Looked(w, t).txs[t]))
    ensures |Looked(w, t).txs[t].seen| == |w.txs[t].seen| + 1
  {
    hide WorldInv, Looked, View, OpsOf, Settles, FindLive, Blind, HeldByOther, Issued, LiveOn, WithSeen;
    LookCases(w, t);
    var tx, tx' := w.txs[t], Looked(w, t).txs[t];
    DueWrites(w, t);
    if tx'.waiting.Some? {
      SameOps(tx, tx');
      StillNotBlind(w, t, tx');
      assert false;
    } else {
      BlindAnswer(tx, tx');
      SeenGrows(tx, None, {});
      BlindOnlyWrite(Looked(w, t), t);
      SeenIsNext(tx, None, {});
      var key := NextKey(tx);
      if FindLive(View(w.committed, tx).rows, key).Some? && Supersedes(key.kind) {
        var s, locks :| tx' == WithSeen(tx, Some(s), locks);
        BlindSeen(tx, Some(s), locks);
        assert false;
      }
      forall r: nat ensures !LiveOn(w.committed.rows, r, key) {
        UnsettledView(w, t, key, r);
        LookupFinds(View(w.committed, tx).rows, key, r);
      }
      NoneIsLive(w.committed.rows, key);
    }
  }

  lemma NoneIsLive(rows: seq<Memory>, key: Key)
    requires forall r: nat :: !LiveOn(rows, r, key)
    ensures !SomeLive(rows, key)
  {
  }

  lemma LookupFinds(rows: seq<Memory>, key: Key, r: nat)
    ensures LiveOn(rows, r, key) ==> FindLive(rows, key).Some?
  {
    if LiveOn(rows, r, key) {
      FindLiveFromMisses(rows, key, 0, r);
    }
  }

  lemma DueWrites(w: State, t: nat)
    requires Due(w, t)
    ensures w.txs[t].job.Write? && !w.txs[t].logging && |w.txs[t].seen| < |w.txs[t].job.call.ps|
    ensures w.txs[t].at == |Issued(w.committed, w.txs[t])| && w.txs[t].waiting.None?
  {
  }

  lemma StillNotBlind(w: State, t: nat, tx: Tx)
    requires WorldInv(w) && t in w.txs && w.txs[t].at == |Issued(w.committed, w.txs[t])|
    requires Last(tx) == Last(w.txs[t]) && tx.at == w.txs[t].at
    ensures !Blind(tx)
  {
    hide Inv, Checked, Apart, SweepsOk, ScansOk, TxOk, Issued;
    assert TxOk(w.committed, w.txs[t]);
    FreeIsSure(w.committed, w.txs[t]);
  }

  /** A transaction blind after its answer was answered with nothing. */
  lemma BlindAnswer(t: Tx, t': Tx)
    requires t.job.Write? && !t.logging && |t.seen| < |t.job.call.ps| && Blind(t')
    requires t' == WithSeen(t, None, {}) || exists s, locks :: t' == WithSeen(t, Some(s), locks)
    ensures t' == WithSeen(t, None, {}) && LastKey(t') == NextKey(t)
  {
    hide WithSeen, Blind;
    if t' != WithSeen(t, None, {}) {
      var s, locks :| t' == WithSeen(t, Some(s), locks);
      BlindSeen(t, Some(s), locks);
    } else {
      BlindSeen(t, None, {});
    }
  }

  lemma ResumedBlind(w: State, t: nat)
    requires WorldInv(w) && t in w.txs && Resumed(w, t) != w && t in Resumed(w, t).txs && Blind(Resumed(w, t).txs[t])
    ensures var tx := w.txs[t];
            && tx.waiting.Some? && tx.job.Write? && |tx.seen| < |tx.job.call.ps| && Supersedes(NextKey(tx).kind)
            && LastKey(Resumed(w, t).txs[t]) == NextKey(tx)
            && !LiveOn(w.committed.rows, tx.waiting.value, NextKey(tx))
            && |Resumed(w, t).txs[t].seen| == |tx.seen| + 1
  {
    hide WorldInv, Resumed, View, OpsOf, Settles, Blind, HeldByOther, Issued, WithSeen;
    ResumeCases(w, t);
    var tx := w.txs[t];
    WaitsOnlyWrite(w, t);
    if LiveIn(View(w.committed, tx).rows, tx.waiting.value) {
      var s, locks :| Resumed(w, t).txs[t] == WithSeen(tx, Some(s), locks);
      BlindSeen(tx, Some(s), locks);
      assert false;
    } else {
      BlindSeen(tx, None, {});
      SeenGrows(tx, None, {});
      UnsettledView(w, t, NextKey(tx), tx.waiting.value);
    }
  }

  // ---- the theorem ----

  /** A commit's statement that does not have to wait is refused, and its transaction rolled back, exactly when the
      lookup in step l had found no current row, and a row another session has since made live on the key is live
      still. Nothing else is ever refused of a commit. */
  lemma CommitRefusedSince(run: seq<State>, events: seq<Event>, j: nat, t: nat) returns (l: nat)
    requires IsRun(run, events) && 0 < j < |run| && events[j] == Execute(t)
    requires t in run[j - 1].txs && run[j - 1].txs[t].job.Write? && NextStmt(run[j - 1], t).Some?
    requires !Waits(run[j - 1], t, View(run[j - 1].committed, run[j - 1].txs[t]).rows, NextStmt(run[j - 1], t).value)
    ensures Blind(run[j - 1].txs[t]) ==>
              At(run, events, l, j - 1, t) && |run[j - 1].txs[t].seen| == |run[l - 1].txs[t].seen| + 1
    ensures t !in run[j].txs <==>
            Blind(run[j - 1].txs[t]) &&
            RaisedSince(run, LastKey(run[j - 1].txs[t]), l, j - 1)
  {
    hide WorldInv, IsRun, View, OpsOf, At, Waits, NextStmt, Raised, Absent, LiveOn, Refused, Next;
    RunOk(run, events, j - 1);
    RunStep(run, events, j);
    var w := run[j - 1];
    ExecutedGone(w, t);
    CommitRefusedIff(w, t);
    l := 0;
    if Blind(w.txs[t]) {
      var key := LastKey(w.txs[t]);
      l := BlindSince(run, events, j - 1, t);
      if SomeLive(w.committed.rows, key) {
        var r :| LiveOn(w.committed.rows, r, key);
        assert Absent(run, key, r, l, j - 1);
        var i := RisesAfter(run, key, r, l, j - 1);
      }
      if RaisedSince(run, key, l, j - 1) {
        var r, i :| l < i && Raised(run, key, r, i, j - 1);
        RaisedIsLive(run, key, r, i, j - 1);
      }
    }
  }

  lemma ExecutedGone(w: State, t: nat)
    requires t in w.txs && NextStmt(w, t).Some?
    requires !Waits(w, t, View(w.committed, w.txs[t]).rows, NextStmt(w, t).value)
    ensures t !in Next(w, Execute(t)).txs <==> Refused(w, t)
  {
    hide View, Waits, NextStmt, Further, Constraints;
  }

  lemma RisesAfter(run: seq<State>, key: Key, r: nat, l: nat, j: nat) returns (i: nat)
    requires j < |run| && Absent(run, key, r, l, j) && LiveOn(run[j].committed.rows, r, key)
    ensures l < i <= j && Raised(run, key, r, i, j)
  {
    hide LiveOn, Raised;
    var m :| l <= m <= j && !LiveOn(run[m].committed.rows, r, key);
    i := LastRise(run, key, r, m, j);
  }

  lemma RaisedIsLive(run: seq<State>, key: Key, r: nat, i: nat, j: nat)
    requires Raised(run, key, r, i, j)
    ensures SomeLive(run[j].committed.rows, key)
  {
    hide LiveOn;
    assert LiveOn(run[j].committed.rows, r, key);
  }

  /** Whoever made that row live was another transaction that committed, or a sweep. */
  lemma RaisedByAnother(run: seq<State>, events: seq<Event>, key: Key, r: nat, i: nat, j: nat, t: nat)
    requires IsRun(run, events) && Raised(run, key, r, i, j) && t in run[i].txs
    ensures events[i].WriteNext? || (events[i].Commit? && events[i].t != t)
  {
    hide LiveOn, Next;
    assert World.Stepped(run, events, i);
    assert run[i].committed != run[i - 1].committed;
    if events[i].Commit? {
      CommittedGone(run[i - 1], events[i].t);
    } else if !events[i].WriteNext? {
      SameCommitted(run[i - 1], events[i]);
    }
  }

  lemma CommittedGone(w: State, t: nat)
    ensures Next(w, Commit(t)).committed == w.committed || t !in Next(w, Commit(t)).txs
  {
    hide View, Complete;
  }
}
