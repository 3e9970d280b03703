/** A transaction among others. Under READ COMMITTED each statement sees the latest committed state with the
    transaction's own writes on top, so the view of a transaction is what it has issued so far, replayed on whatever
    the other sessions have committed by now. Its new rows are numbered after the committed ones. */
module Sessions {
  import opened Text
  import opened Records
  import opened Database
  import opened Committing
  import opened Timeline
  import opened Convergence
  import opened Maintaining
  import opened History
  import opened Transactions
  import opened Refusals

  // ---- what a transaction issues ----

  /** A unit of work that reads before it writes: seen is the current row that commitOne locked, if it found one. */
  datatype Op =
    | Save(ep: Episode)
    | Settle(a: Arrival, seen: Option<Memory>)
    | Log(call: Call)
    | Fold(group: Group, summary: Summary, closedAt: int)
    | Forget(tenant: string, document: string, at: int, open: set<nat>, citers: set<nat>, n: nat)

  /** commitOne once its lookup has answered. The row itself is where the view has the live row of the key. */
  function SeenPlan(db: Db, ep: Episode, p: Proposal, seen: Option<Memory>): Plan {
    var n, d := |db.rows|, p.draft;
    var c := FindLive(db.rows, d.key);
    if !Supersedes(d.key.kind) || seen.None? || c.None? then CreatePlan(n, ep, p)
    else if IsRestatement(seen.value, d) then ReinforcePlan(c.value, seen.value, ep, p)
    else if d.validFrom < seen.value.validFrom then BackfillPlan(n, c.value, seen.value, ep, p)
    else SupersedePlan(n, c.value, ep, p)
  }

  function StmtsOf(v: Db, op: Op): seq<Stmt> {
    match op
    case Save(ep) => [SaveEpisode(ep)]
    case Settle(a, seen) => SeenPlan(v, a.ep, a.p, seen).stmts
    case Log(c) => [LogIngest(c.ep.tenant, c.ep.hash, c.ep.id, |c.ps|, c.rejected)]
    case Fold(g, s, closedAt) =>
      var plan := ConsolidatePlan(|v.rows|, g, s, closedAt);
      if plan.Ok? then plan.value else []
    case Forget(tenant, _, at, open, citers, n) => ClosePlan(open, citers, tenant, at, n)
  }

  function RunOps(c: Db, ops: seq<Op>): Db {
    if ops == [] then c
    else
      var v := RunOps(c, ops[..|ops| - 1]);
      Run(v, StmtsOf(v, ops[|ops| - 1]))
  }

  /** A superseding key the operation settles. */
  predicate On(op: Op, key: Key) {
    op.Settle? && op.a.p.draft.key == key && Supersedes(key.kind)
  }

  predicate Settles(ops: seq<Op>, key: Key) {
    exists k :: 0 <= k < |ops| && On(ops[k], key)
  }

  /** The state is as the operation read it, and as the service guarantees it. */
  ghost predicate OpReady(v: Db, op: Op) {
    match op
    case Settle(a, seen) =>
      DraftOk(a.p.draft) && (Supersedes(a.p.draft.key.kind) ==> seen == CurrentOf(v.rows, a.p.draft.key))
    case Fold(g, s, closedAt) =>
      GroupOk(v.rows, g) && ConsolidatePlan(|v.rows|, g, s, closedAt).Ok? && 0.0 <= s.confidence <= 1.0
    case Forget(_, _, _, open, citers, n) =>
      n <= |v.rows| && (forall r :: r in open ==> r < n) && (forall r :: r in citers ==> r < n)
    case _ => true
  }

  ghost predicate OpsReady(c: Db, ops: seq<Op>) {
    ops == [] ||
    var init := ops[..|ops| - 1];
    OpsReady(c, init) && OpReady(RunOps(c, init), ops[|ops| - 1])
  }

  /** In a state that is as the operation read it, settling is commitOne. */
  lemma SettlesAsSeen(v: Db, op: Op)
    requires op.Settle? && OpReady(v, op)
    ensures StmtsOf(v, op) == PlanFor(v, op.a.ep, op.a.p).stmts
    ensures Run(v, StmtsOf(v, op)) == CommitOne(v, op.a.ep, op.a.p)
  {
    hide IsRestatement, FindLive, Run, CreatePlan, ReinforcePlan, BackfillPlan, SupersedePlan;
  }

  /** Each operation, issued on a state it is ready for, keeps everything. */
  lemma ReadyKeepsInv(v: Db, op: Op)
    requires Inv(v) && OpReady(v, op)
    ensures var stmts := StmtsOf(v, op);
            SafeAhead(|v.rows|, v, stmts) && Inv(Run(v, stmts)) && Grows(v, Run(v, stmts))
  {
    hide Inv, StmtInv, Boundary, SafeAhead, Grows, PlanFor, ConsolidatePlan, ClosePlan, Run, GroupOk, Pre;
    InvSplits(v);
    match op {
      case Save(ep) => BookkeepingKeepsInv(v, SaveEpisode(ep)); OneLeft(|v.rows|, v, SaveEpisode(ep));
      case Settle(a, seen) =>
        SettlesAsSeen(v, op);
        CommitOneSafe(v, a.ep, a.p);
        CommitOneKeepsInv(v, a.ep, a.p);
      case Log(c) =>
        BookkeepingKeepsInv(v, StmtsOf(v, op)[0]);
        OneLeft(|v.rows|, v, StmtsOf(v, op)[0]);
      case Fold(g, s, closedAt) => ConsolidateKeepsInv(v, g, s, closedAt);
      case Forget(tenant, _, at, open, citers, n) => CloseKeepsInv(v, open, citers, tenant, at, n);
    }
  }

  lemma NothingLeft(n0: nat, db: Db)
    ensures SafeAhead(n0, db, []) && Run(db, []) == db
  {
  }

  lemma OneLeft(n0: nat, db: Db, s: Stmt)
    requires Pre(n0, db, s)
    ensures SafeAhead(n0, db, [s]) && Run(db, [s]) == Apply(db, s)
  {
    hide Pre, Apply;
    NothingLeft(n0, Apply(db, s));
    assert [s][1..] == [];
  }

  lemma {:induction false} OpsKeepInv(c: Db, ops: seq<Op>)
    requires Inv(c) && OpsReady(c, ops)
    ensures Inv(RunOps(c, ops)) && Grows(c, RunOps(c, ops))
  {
    hide Inv, Grows, OpReady, StmtsOf, Run;
    if ops == [] {
      GrowsReflexive(c);
    } else {
      var init, op := ops[..|ops| - 1], ops[|ops| - 1];
      OpsKeepInv(c, init);
      ReadyKeepsInv(RunOps(c, init), op);
      GrowsTransitive(c, RunOps(c, init), RunOps(c, ops));
    }
  }

  // ---- the current assertion of a key along the way ----

  predicate NoLive(rows: seq<Memory>, key: Key) {
    forall r :: 0 <= r < |rows| ==> !(rows[r].Live() && rows[r].key == key)
  }

  lemma CurrentIs(rows: seq<Memory>, key: Key)
    requires OneLive(rows) && Supersedes(key.kind)
    ensures CurrentOf(rows, key).None? <==> NoLive(rows, key)
    ensures forall r :: 0 <= r < |rows| && rows[r].Live() && rows[r].key == key ==>
              CurrentOf(rows, key) == Some(rows[r])
  {
    hide FindLive;
    forall r | 0 <= r < |rows| && rows[r].Live() && rows[r].key == key ensures CurrentOf(rows, key) == Some(rows[r]) {
      FindLiveExact(rows, key, r);
    }
  }

  /** The current assertion of a key that only its live row decides. */
  lemma CurrentSame(rows: seq<Memory>, rows': seq<Memory>, key: Key)
    requires OneLive(rows) && OneLive(rows') && Supersedes(key.kind)
    requires forall r :: 0 <= r < |rows| && rows[r].Live() && rows[r].key == key ==> r < |rows'| && rows'[r] == rows[r]
    requires NoLive(rows, key) ==> NoLive(rows', key)
    ensures CurrentOf(rows', key) == CurrentOf(rows, key)
  {
    hide CurrentOf, OneLive;
    CurrentIs(rows, key);
    CurrentIs(rows', key);
    if !NoLive(rows, key) {
      var r :| 0 <= r < |rows| && rows[r].Live() && rows[r].key == key;
      assert rows'[r].Live();
    }
  }

  /** How operations move the current assertion of a key. */
  function Track(current: Option<Memory>, ops: seq<Op>, key: Key): Option<Memory> {
    if ops == [] then current
    else
      var before := Track(current, ops[..|ops| - 1], key);
      if On(ops[|ops| - 1], key) then Some(Resolve(before, ops[|ops| - 1].a)) else before
  }

  /** A commit's operations. */
  predicate Plain(op: Op) {
    op.Save? || op.Settle? || op.Log?
  }

  predicate AllPlain(ops: seq<Op>) {
    forall k :: 0 <= k < |ops| ==> Plain(ops[k])
  }

  lemma CurrentAfterSettle(v: Db, op: Op, key: Key)
    requires OneLive(v.rows) && op.Settle? && OpReady(v, op) && Supersedes(key.kind)
    ensures CurrentOf(Run(v, StmtsOf(v, op)).rows, key) ==
            if On(op, key) then Some(Resolve(CurrentOf(v.rows, key), op.a)) else CurrentOf(v.rows, key)
  {
    hide StmtsOf, Run, CurrentOf, Resolve, PlanFor, CommitRows, CommitOne, IsRestatement, FindLive;
    SettlesAsSeen(v, op);
    RowsSuffice(v, op.a.ep, op.a.p);
    var a := op.a;
    assert CommitRows(v.rows, Arrival(a.ep, a.p)) == CommitRows(v.rows, a);
    StepKeepsOneLive(v.rows, a);
    if a.p.draft.key == key {
      StepResolves(v.rows, a);
    } else {
      CommitRowsSteps(v.rows, a);
      CurrentSame(v.rows, CommitRows(v.rows, a), key);
    }
  }

  lemma CurrentAfter(v: Db, op: Op, key: Key)
    requires OneLive(v.rows) && Plain(op) && OpReady(v, op) && Supersedes(key.kind)
    ensures CurrentOf(Run(v, StmtsOf(v, op)).rows, key) ==
            if On(op, key) then Some(Resolve(CurrentOf(v.rows, key), op.a)) else CurrentOf(v.rows, key)
  {
    hide CurrentOf, Resolve, OneLive, SeenPlan;
    if op.Settle? {
      CurrentAfterSettle(v, op, key);
    } else {
      var s := StmtsOf(v, op)[0];
      assert StmtsOf(v, op) == [s];
      RunNothing(Apply(v, s));
      assert Run(v, [s]) == Run(Apply(v, s), [s][1..]) && [s][1..] == [];
    }
  }

  lemma {:induction false} Tracks(c: Db, ops: seq<Op>, key: Key)
    requires Inv(c) && OpsReady(c, ops) && AllPlain(ops) && Supersedes(key.kind)
    ensures CurrentOf(RunOps(c, ops).rows, key) == Track(CurrentOf(c.rows, key), ops, key)
  {
    hide CurrentOf, Resolve, OpReady, StmtsOf, Run, On, Acyclic, LedgerInRange, Paired, CitesInRange, FaithfulSummaries,
         Linked;
    if ops != [] {
      var init := ops[..|ops| - 1];
      Tracks(c, init, key);
      OpsKeepInv(c, init);
      CurrentAfter(RunOps(c, init), ops[|ops| - 1], key);
    }
  }

  lemma {:induction false} TrackStays(current: Option<Memory>, ops: seq<Op>, key: Key)
    ensures !Settles(ops, key) ==> Track(current, ops, key) == current
    ensures current.Some? || Settles(ops, key) ==> Track(current, ops, key).Some?
  {
    hide Resolve, On;
    if ops != [] {
      var init := ops[..|ops| - 1];
      TrackStays(current, init, key);
      assert Settles(ops, key) <==> Settles(init, key) || On(ops[|ops| - 1], key) by { SettlesSnoc(ops, key); }
    }
  }

  lemma SettlesSnoc(ops: seq<Op>, key: Key)
    requires ops != []
    ensures Settles(ops, key) <==> Settles(ops[..|ops| - 1], key) || On(ops[|ops| - 1], key)
  {
    hide On;
    var n := |ops| - 1;
    if k :| 0 <= k < |ops| && On(ops[k], key) {
      assert k < n ==> On(ops[..n][k], key);
    }
  }

  /** Operations stay ready when other sessions leave the current assertions of their keys alone. */
  lemma {:induction false} OpsStayReady(c: Db, c': Db, ops: seq<Op>)
    requires Inv(c) && Inv(c') && OpsReady(c, ops) && AllPlain(ops)
    requires forall key :: Settles(ops, key) ==> CurrentOf(c'.rows, key) == CurrentOf(c.rows, key)
    ensures OpsReady(c', ops)
  {
    hide CurrentOf, StmtsOf, Run, Inv, Settles;
    if ops != [] {
      var init, op := ops[..|ops| - 1], ops[|ops| - 1];
      forall key | Settles(init, key) ensures CurrentOf(c'.rows, key) == CurrentOf(c.rows, key) {
        SettlesSnoc(ops, key);
      }
      OpsStayReady(c, c', init);
      if op.Settle? && Supersedes(op.a.p.draft.key.kind) {
        var key := op.a.p.draft.key;
        SettlesSnoc(ops, key);
        Tracks(c, init, key);
        Tracks(c', init, key);
      }
    }
  }

  // ---- locks ----

  /** A row locked until the transaction ends, or a key on which it has inserted a live row no other session sees
      yet. */
  datatype Lock = RowLock(id: nat) | KeyLock(key: Key)

  /** The current assertion of the key is in the transaction's hands. */
  ghost predicate Guards(rows: seq<Memory>, locks: set<Lock>, key: Key) {
    && (forall r :: 0 <= r < |rows| && rows[r].Live() && rows[r].key == key ==> RowLock(r) in locks)
    && (NoLive(rows, key) ==> KeyLock(key) in locks)
  }

  ghost predicate AllGuarded(rows: seq<Memory>, locks: set<Lock>, ops: seq<Op>) {
    forall key :: Settles(ops, key) ==> Guards(rows, locks, key)
  }

  /** What v changes of c is locked, what is live in v was live in c, and live rows v adds are on guarded keys. */
  ghost predicate Contained(c: seq<Memory>, v: seq<Memory>, locks: set<Lock>) {
    && |c| <= |v|
    && (forall r :: 0 <= r < |c| && RowLock(r) !in locks ==> v[r] == c[r])
    && (forall r :: 0 <= r < |c| ==>
          v[r].key == c[r].key && v[r].archived == c[r].archived && (v[r].Live() ==> c[r].Live()))
    && (forall r :: |c| <= r < |v| && v[r].Live() && Supersedes(v[r].key.kind) ==> Guards(c, locks, v[r].key))
  }

  /** Settling a proposal whose key is guarded stays within the locks. */
  lemma SettleContained(c: seq<Memory>, v: seq<Memory>, a: Arrival, locks: set<Lock>)
    requires Contained(c, v, locks) && OneLive(v)
    requires Supersedes(a.p.draft.key.kind) ==> Guards(c, locks, a.p.draft.key)
    ensures Contained(c, CommitRows(v, a), locks)
  {
    hide CommitRows, PlanFor, IsRestatement, FindLive, MergeStrings, MergeAttrs;
    var v', key := CommitRows(v, a), a.p.draft.key;
    CommitRowsSteps(v, a);
    var live := FindLive(v, key);
    forall r | 0 <= r < |c|
      ensures RowLock(r) !in locks ==> v'[r] == c[r]
      ensures v'[r].key == c[r].key && v'[r].archived == c[r].archived && (v'[r].Live() ==> c[r].Live())
    {
      assert v'[r] == v[r] || live == Some(r);
    }
    forall r | |c| <= r < |v'| && v'[r].Live() && Supersedes(v'[r].key.kind) ensures Guards(c, locks, v'[r].key) {
      assert r < |v| ==> v[r].Live() && v[r].key == v'[r].key;
    }
  }

  lemma {:induction false} OpsContained(c: Db, ops: seq<Op>, locks: set<Lock>)
    requires Inv(c) && OpsReady(c, ops) && AllPlain(ops) && AllGuarded(c.rows, locks, ops)
    ensures Contained(c.rows, RunOps(c, ops).rows, locks)
  {
    hide OpReady, StmtsOf, Run, Contained, Guards, CommitRows, CommitOne, Settles, Acyclic, LedgerInRange, Paired,
         CitesInRange, FaithfulSummaries, Linked;
    if ops == [] {
      assert Contained(c.rows, c.rows, locks) by { ContainedItself(c.rows, locks); }
    } else {
      var init, op := ops[..|ops| - 1], ops[|ops| - 1];
      var v := RunOps(c, init);
      forall key | Settles(init, key) ensures Guards(c.rows, locks, key) {
        SettlesSnoc(ops, key);
      }
      OpsContained(c, init, locks);
      OpsKeepInv(c, init);
      if op.Settle? {
        SettlesAsSeen(v, op);
        RowsSuffice(v, op.a.ep, op.a.p);
        assert CommitRows(v.rows, Arrival(op.a.ep, op.a.p)) == CommitRows(v.rows, op.a);
        if Supersedes(op.a.p.draft.key.kind) {
          SettlesSnoc(ops, op.a.p.draft.key);
        }
        SettleContained(c.rows, v.rows, op.a, locks);
      } else {
        BookkeepingRows(v, op);
      }
    }
  }

  lemma ContainedItself(rows: seq<Memory>, locks: set<Lock>)
    ensures Contained(rows, rows, locks)
  {
  }

  lemma BookkeepingRows(v: Db, op: Op)
    requires op.Save? || op.Log?
    ensures Run(v, StmtsOf(v, op)).rows == v.rows && |StmtsOf(v, op)| == 1
  {
    var s := StmtsOf(v, op)[0];
    assert StmtsOf(v, op) == [s] && [s][1..] == [];
    RunNothing(Apply(v, s));
  }

  /** On keys the operations do not settle, the view has the live rows of the committed state and no others. */
  lemma {:induction false} UnsettledSame(c: Db, ops: seq<Op>, key: Key)
    requires Inv(c) && OpsReady(c, ops) && AllPlain(ops) && Supersedes(key.kind) && !Settles(ops, key)
    ensures SameOnKey(c.rows, RunOps(c, ops).rows, key)
  {
    hide OpReady, StmtsOf, Run, CommitRows, CommitOne, Settles, Inv, SameOnKey;
    if ops == [] {
      SameItself(c.rows, key);
    } else {
      var init, op := ops[..|ops| - 1], ops[|ops| - 1];
      var v := RunOps(c, init);
      SettlesSnoc(ops, key);
      UnsettledSame(c, init, key);
      if op.Settle? {
        SettlesAsSeen(v, op);
        RowsSuffice(v, op.a.ep, op.a.p);
        assert CommitRows(v.rows, Arrival(op.a.ep, op.a.p)) == CommitRows(v.rows, op.a);
        OtherKeySame(v.rows, op.a, key);
        SameTwice(c.rows, v.rows, CommitRows(v.rows, op.a), key);
      } else {
        BookkeepingRows(v, op);
      }
    }
  }

  lemma SameItself(rows: seq<Memory>, key: Key)
    ensures SameOnKey(rows, rows, key)
  {
  }

  lemma SameTwice(a: seq<Memory>, b: seq<Memory>, c: seq<Memory>, key: Key)
    requires SameOnKey(a, b, key) && SameOnKey(b, c, key)
    ensures SameOnKey(a, c, key)
  {
  }

  lemma OtherKeySame(rows: seq<Memory>, a: Arrival, key: Key)
    requires a.p.draft.key != key
    ensures SameOnKey(rows, CommitRows(rows, a), key)
  {
    hide CommitRows, PlanFor, IsRestatement, FindLive, MergeStrings, MergeAttrs;
    CommitRowsSteps(rows, a);
  }

  // ---- a transaction ----

  datatype Job = Write(call: Call) | Single(op: Op)

  /** A Commit has looked up the proposals in seen so far and waits for a row when it is to be locked; at statements
      of the last operation have gone through. Consolidations and deletions are a single operation. */
  datatype Tx = Tx(job: Job, seen: seq<Option<Memory>>, logging: bool, at: nat, waiting: Option<nat>, locks: set<Lock>)

  function Settled(call: Call, seen: seq<Option<Memory>>): seq<Op> {
    var n := |seen|;
    if n == 0 || n > |call.ps| then []
    else Settled(call, seen[..n - 1]) + [Settle(Arrival(call.ep, call.ps[n - 1]), seen[n - 1])]
  }

  function OpsOf(t: Tx): (ops: seq<Op>)
    ensures ops != []
  {
    match t.job
    case Write(call) => [Save(call.ep)] + Settled(call, t.seen) + (if t.logging then [Log(call)] else [])
    case Single(op) => [op]
  }

  function Earlier(t: Tx): seq<Op> {
    OpsOf(t)[..|OpsOf(t)| - 1]
  }

  function Last(t: Tx): Op {
    OpsOf(t)[|OpsOf(t)| - 1]
  }

  /** The state the last operation started from. */
  function Base(c: Db, t: Tx): Db {
    RunOps(c, Earlier(t))
  }

  /** The statements of the last operation. */
  function Issued(c: Db, t: Tx): seq<Stmt> {
    StmtsOf(Base(c, t), Last(t))
  }

  function Take(s: seq<Stmt>, k: nat): seq<Stmt> {
    if k <= |s| then s[..k] else s
  }

  /** What the transaction sees. */
  function View(c: Db, t: Tx): Db {
    Run(Base(c, t), Take(Issued(c, t), t.at))
  }

  predicate Complete(c: Db, t: Tx) {
    t.at == |Issued(c, t)| && t.waiting.None?
  }

  /** The lookup found no current row, and the new row is still to be inserted: nothing guards the key yet. */
  predicate Blind(t: Tx) {
    t.at == 0 && Last(t).Settle? && Last(t).seen.None? && Supersedes(Last(t).a.p.draft.key.kind)
  }

  function SureOps(t: Tx): seq<Op> {
    if Blind(t) then Earlier(t) else OpsOf(t)
  }

  /** Rows a consolidation or deletion closes, and when. */
  function ClosedBy(op: Op): set<nat> {
    match op
    case Fold(g, _, _) => Ids(g.members)
    case Forget(_, _, _, open, _, _) => open
    case _ => {}
  }

  function ClosingTime(op: Op): int {
    match op
    case Fold(_, _, closedAt) => closedAt
    case Forget(_, _, at, _, _, _) => at
    case _ => 0
  }

  ghost predicate WriteOk(c: Db, t: Tx, call: Call) {
    && (forall p :: p in call.ps ==> DraftOk(p.draft))
    && |t.seen| <= |call.ps| && (t.logging ==> |t.seen| == |call.ps|)
    && (Blind(t) ==> !Settles(Earlier(t), Last(t).a.p.draft.key))
    && (t.waiting.Some? ==>
          && !t.logging && |t.seen| < |call.ps| && t.at == |Issued(c, t)| && !Blind(t)
          && var key := call.ps[|t.seen|].draft.key;
             Supersedes(key.kind) && t.waiting.value < |c.rows| && c.rows[t.waiting.value].key == key &&
             !Settles(OpsOf(t), key))
  }

  ghost predicate SingleOk(c: Db, t: Tx, op: Op) {
    && (op.Fold? || op.Forget?) && t.waiting.None?
    && (t.at > 0 ==>
          (forall r :: r in ClosedBy(op) ==> RowLock(r) in t.locks) &&
          Closable(c.rows, ClosedBy(op), ClosingTime(op)))
  }

  ghost predicate JobOk(c: Db, t: Tx) {
    match t.job
    case Write(call) => WriteOk(c, t, call)
    case Single(op) => SingleOk(c, t, op)
  }

  ghost predicate LocksOk(rows: seq<Memory>, locks: set<Lock>) {
    && (forall id: nat :: RowLock(id) in locks ==> id < |rows|)
    && (forall key :: KeyLock(key) in locks ==> NoLive(rows, key) && Supersedes(key.kind))
  }

  /** A transaction under way on the committed state c. */
  ghost predicate TxOk(c: Db, t: Tx) {
    && OpsReady(c, Earlier(t))
    && (!Blind(t) ==> OpReady(Base(c, t), Last(t)))
    && t.at <= |Issued(c, t)|
    && LocksOk(c.rows, t.locks)
    && AllGuarded(c.rows, t.locks, SureOps(t))
    && JobOk(c, t)
  }

  // ---- the shape of a commit ----

  lemma {:induction false} SettledArePlain(call: Call, seen: seq<Option<Memory>>)
    ensures AllPlain(Settled(call, seen))
  {
    if seen != [] && |seen| <= |call.ps| {
      SettledArePlain(call, seen[..|seen| - 1]);
    }
  }

  lemma WritesArePlain(t: Tx)
    requires t.job.Write?
    ensures AllPlain(OpsOf(t)) && AllPlain(Earlier(t))
  {
    SettledArePlain(t.job.call, t.seen);
  }

  /** The next proposal has been looked up. */
  function WithSeen(t: Tx, s: Option<Memory>, locks: set<Lock>): Tx {
    t.(seen := t.seen + [s], at := 0, waiting := None, locks := t.locks + locks)
  }

  lemma SeenIsNext(t: Tx, s: Option<Memory>, locks: set<Lock>)
    requires t.job.Write? && !t.logging && |t.seen| < |t.job.call.ps|
    ensures OpsOf(WithSeen(t, s, locks)) ==
            OpsOf(t) + [Settle(Arrival(t.job.call.ep, t.job.call.ps[|t.seen|]), s)]
    ensures Earlier(WithSeen(t, s, locks)) == OpsOf(t)
    ensures Last(WithSeen(t, s, locks)) == Settle(Arrival(t.job.call.ep, t.job.call.ps[|t.seen|]), s)
  {
    var t' := WithSeen(t, s, locks);
    assert t'.seen[..|t'.seen| - 1] == t.seen;
    assert OpsOf(t') == OpsOf(t) + [Settle(Arrival(t.job.call.ep, t.job.call.ps[|t.seen|]), s)];
  }

  /** All proposals are done and the ingest log comes next. */
  function ToLog(t: Tx): Tx {
    t.(logging := true, at := 0)
  }

  lemma LogIsNext(t: Tx)
    requires t.job.Write? && !t.logging
    ensures OpsOf(ToLog(t)) == OpsOf(t) + [Log(t.job.call)]
    ensures Earlier(ToLog(t)) == OpsOf(t) && Last(ToLog(t)) == Log(t.job.call)
  {
    assert OpsOf(ToLog(t)) == OpsOf(t) + [Log(t.job.call)];
  }

  /** Only at, the locks and waiting do not change what a transaction has issued. */
  lemma SameOps(t: Tx, t': Tx)
    requires t'.job == t.job && t'.seen == t.seen && t'.logging == t.logging
    ensures OpsOf(t') == OpsOf(t) && Earlier(t') == Earlier(t) && Last(t') == Last(t)
    ensures forall c :: Base(c, t') == Base(c, t) && Issued(c, t') == Issued(c, t)
  {
  }

  lemma EndsWithLast(t: Tx)
    ensures OpsOf(t) == Earlier(t) + [Last(t)]
    ensures forall c :: RunOps(c, OpsOf(t)) == Run(Base(c, t), Issued(c, t))
  {
  }

  // ---- what other sessions commit does not disturb a transaction ----

  /** From c to c' another session has committed something that respects the locks. */
  ghost predicate Beside(c: Db, c': Db, locks: set<Lock>) {
    && Grows(c, c')
    && (forall id: nat :: RowLock(id) in locks ==> id < |c.rows| && id < |c'.rows| && c'.rows[id] == c.rows[id])
    && (forall key :: KeyLock(key) in locks ==> NoLive(c'.rows, key))
  }

  lemma GuardStays(c: Db, c': Db, locks: set<Lock>, key: Key)
    requires OneLive(c.rows) && OneLive(c'.rows) && Supersedes(key.kind)
    requires Beside(c, c', locks) && Guards(c.rows, locks, key)
    ensures Guards(c'.rows, locks, key) && CurrentOf(c'.rows, key) == CurrentOf(c.rows, key)
  {
    hide CurrentOf, Grows;
    CurrentSame(c.rows, c'.rows, key);
    if !NoLive(c.rows, key) {
      var r :| 0 <= r < |c.rows| && c.rows[r].Live() && c.rows[r].key == key;
      assert RowLock(r) in locks && c'.rows[r] == c.rows[r];
    }
  }

  lemma OnIsSuperseding(ops: seq<Op>, key: Key)
    requires Settles(ops, key)
    ensures Supersedes(key.kind)
  {
  }

  lemma GuardsStay(c: Db, c': Db, locks: set<Lock>, ops: seq<Op>)
    requires OneLive(c.rows) && OneLive(c'.rows) && Beside(c, c', locks) && AllGuarded(c.rows, locks, ops)
    ensures AllGuarded(c'.rows, locks, ops)
    ensures forall key :: Settles(ops, key) ==> CurrentOf(c'.rows, key) == CurrentOf(c.rows, key)
  {
    hide CurrentOf, Beside, Guards, Settles, OneLive;
    forall key | Settles(ops, key)
      ensures Guards(c'.rows, locks, key) && CurrentOf(c'.rows, key) == CurrentOf(c.rows, key)
    {
      OnIsSuperseding(ops, key);
      GuardStays(c, c', locks, key);
    }
  }

  /** How many statements an operation issues. */
  function Length(op: Op): nat {
    match op
    case Save(_) => 1
    case Settle(a, seen) =>
      if !Supersedes(a.p.draft.key.kind) || seen.None? then 2
      else if IsRestatement(seen.value, a.p.draft) then 2
      else if a.p.draft.validFrom < seen.value.validFrom then 3
      else 5
    case Log(_) => 1
    case Fold(g, _, _) => 4 + |g.members|
    case Forget(tenant, _, at, open, citers, n) => |ClosePlan(open, citers, tenant, at, n)|
  }

  lemma {:induction false} LedgerForLength(members: seq<Member>, tenant: string, n: nat, closedAt: int)
    ensures |LedgerFor(members, tenant, n, closedAt)| == |members|
  {
    if members != [] {
      LedgerForLength(members[1..], tenant, n, closedAt);
    }
  }

  lemma LengthIs(v: Db, op: Op)
    requires OpReady(v, op) || (op.Settle? && op.seen.None?)
    ensures |StmtsOf(v, op)| == Length(op)
  {
    hide IsRestatement, FindLive, SharedAcl, SummaryRow, GroupOk;
    if op.Fold? {
      LedgerForLength(op.group.members, op.group.key.tenant, |v.rows|, op.closedAt);
    }
  }

  lemma LastStaysReady(c: Db, c': Db, t: Tx)
    requires Inv(c) && Inv(c') && TxOk(c, t) && Beside(c, c', t.locks)
    requires t.job.Write? && !Blind(t) && OpsReady(c', Earlier(t))
    requires forall key :: Settles(OpsOf(t), key) ==> CurrentOf(c'.rows, key) == CurrentOf(c.rows, key)
    ensures OpReady(Base(c', t), Last(t))
  {
    hide CurrentOf, Inv, StmtsOf, Run, OpsReady, LocksOk, AllGuarded, JobOk, Beside, Settles, RunOps, OpsOf;
    var op := Last(t);
    WritesArePlain(t);
    if op.Settle? && Supersedes(op.a.p.draft.key.kind) {
      var key := op.a.p.draft.key;
      SettlesSnoc(OpsOf(t), key);
      Tracks(c, Earlier(t), key);
      Tracks(c', Earlier(t), key);
    } else {
      PlainLast(t);
    }
  }

  lemma PlainLast(t: Tx)
    requires t.job.Write?
    ensures Plain(Last(t))
  {
    WritesArePlain(t);
  }

  lemma InvOneLive(c: Db)
    requires Inv(c)
    ensures OneLive(c.rows)
  {
  }

  lemma LocksStay(c: Db, c': Db, locks: set<Lock>)
    requires LocksOk(c.rows, locks) && Beside(c, c', locks)
    ensures LocksOk(c'.rows, locks)
  {
    hide Grows;
  }

  lemma WriteStays(c: Db, c': Db, t: Tx)
    requires Inv(c) && Inv(c') && TxOk(c, t) && Beside(c, c', t.locks) && t.job.Write?
    ensures TxOk(c', t)
  {
    hide CurrentOf, Inv, StmtsOf, Run, OpsReady, LocksOk, AllGuarded, Beside, Settles, RunOps, OpsOf, OpReady, Length;
    InvOneLive(c);
    InvOneLive(c');
    WritesArePlain(t);
    LocksStay(c, c', t.locks);
    GuardsStay(c, c', t.locks, SureOps(t));
    EarlierIsSure(t);
    OpsStayReady(c, c', Earlier(t));
    LengthIs(Base(c, t), Last(t));
    if !Blind(t) {
      LastStaysReady(c, c', t);
    }
    LengthIs(Base(c', t), Last(t));
    if t.waiting.Some? {
      WaitingStays(c, c', t);
    }
  }

  lemma EarlierIsSure(t: Tx)
    ensures forall key :: Settles(Earlier(t), key) ==> Settles(SureOps(t), key)
  {
    hide Settles, On, Blind;
    forall key | Settles(Earlier(t), key) ensures Settles(SureOps(t), key) {
      SettlesSnoc(OpsOf(t), key);
    }
  }

  lemma WaitingStays(c: Db, c': Db, t: Tx)
    requires Beside(c, c', t.locks) && t.job.Write? && WriteOk(c, t, t.job.call) && t.waiting.Some?
    ensures t.waiting.value < |c'.rows| && c'.rows[t.waiting.value].key == c.rows[t.waiting.value].key
  {
    hide Settles, Issued;
    assert RowGrows(c.rows[t.waiting.value], c'.rows[t.waiting.value]);
  }

  lemma SingleStays(c: Db, c': Db, t: Tx)
    requires Inv(c) && Inv(c') && TxOk(c, t) && Beside(c, c', t.locks) && t.job.Single?
    ensures TxOk(c', t)
  {
    hide Inv, StmtsOf, Run, LocksOk, AllGuarded, Settles, RunOps, Length, GroupOk, Grows;
    LocksStay(c, c', t.locks);
    NothingSettled(t);
    assert Earlier(t) == [];
    OpsNone(c);
    OpsNone(c');
    var op := t.job.op;
    LengthIs(c, op);
    GrowsInRows(c, c');
    if op.Fold? {
      GroupStaysOk(c, c', op.group);
    }
    LengthIs(c', op);
  }

  lemma GrowsInRows(c: Db, c': Db)
    requires Grows(c, c')
    ensures |c.rows| <= |c'.rows|
  {
  }

  lemma OpsNone(c: Db)
    ensures RunOps(c, []) == c && OpsReady(c, [])
  {
  }

  lemma NothingSettled(t: Tx)
    requires t.job.Single? && (t.job.op.Fold? || t.job.op.Forget?)
    ensures forall c, locks :: AllGuarded(c, locks, SureOps(t))
  {
  }

  /** A transaction does not notice what other sessions commit around its locks: everything it read stays as it read
      it, and its view is as sound on the new committed state as on the old. */
  lemma TxStays(c: Db, c': Db, t: Tx)
    requires Inv(c) && Inv(c') && TxOk(c, t) && Beside(c, c', t.locks)
    ensures TxOk(c', t)
  {
    hide Inv, TxOk, Beside;
    match t.job {
      case Write(_) => WriteStays(c, c', t);
      case Single(_) => SingleStays(c, c', t);
    }
  }

  // ---- the view is sound ----

  lemma {:induction false} SafeTake(n0: nat, db: Db, todo: seq<Stmt>, k: nat)
    requires SafeAhead(n0, db, todo) && k <= |todo|
    ensures SafeAhead(n0, db, todo[..k]) && SafeAhead(n0, Run(db, todo[..k]), todo[k..])
    decreases k
  {
    hide Pre, Apply;
    if k > 0 {
      SafeTake(n0, Apply(db, todo[0]), todo[1..], k - 1);
      assert todo[..k][1..] == todo[1..][..k - 1] && todo[..k][0] == todo[0];
      assert todo[1..][k - 1..] == todo[k..];
    } else {
      assert todo[..0] == [] && todo[0..] == todo;
    }
  }

  lemma {:induction false} PassesTake(db: Db, todo: seq<Stmt>, k: nat)
    requires Passes(db, todo) && k <= |todo|
    ensures Passes(db, todo[..k])
    decreases k
  {
    hide Checked, Apply;
    if k > 0 {
      PassesTake(Apply(db, todo[0]), todo[1..], k - 1);
      assert todo[..k][1..] == todo[1..][..k - 1] && todo[..k][0] == todo[0];
    }
  }

  /** A commit's operations pass every check. */
  lemma PlainPasses(v: Db, op: Op)
    requires Checked(v.rows) && Plain(op) && OpReady(v, op)
    ensures Passes(v, StmtsOf(v, op))
  {
    hide Checked, PlanFor, Passes;
    if op.Settle? {
      SettlesAsSeen(v, op);
      CommitOnePasses(v, op.a.ep, op.a.p);
    } else {
      var s := StmtsOf(v, op)[0];
      assert StmtsOf(v, op) == [s];
      assert Apply(v, s).rows == v.rows;
      PassesOne(v, s);
    }
  }

  lemma PassesOne(db: Db, s: Stmt)
    requires Checked(Apply(db, s).rows)
    ensures Passes(db, [s])
  {
    hide Apply, Checked;
    assert [s][1..] == [];
  }

  /** A consolidation or deletion passes every check once its closing does. */
  lemma SinglePasses(c: Db, op: Op)
    requires Checked(c.rows) && (op.Fold? || op.Forget?) && OpReady(c, op)
    requires Closable(c.rows, ClosedBy(op), ClosingTime(op))
    ensures Passes(c, StmtsOf(c, op))
  {
    hide Checked, Closable, Passes, GroupOk, ConsolidatePlan, ClosePlan;
    match op {
      case Fold(g, s, closedAt) => ConsolidationPassesIff(c, g, s, closedAt);
      case Forget(tenant, _, at, open, citers, n) => ClosePassesIff(c, open, citers, tenant, at, n);
    }
  }

  lemma {:induction false} OpsChecked(c: Db, ops: seq<Op>)
    requires Checked(c.rows) && OpsReady(c, ops) && AllPlain(ops)
    ensures Checked(RunOps(c, ops).rows)
  {
    hide Checked, OpReady, StmtsOf, Run;
    if ops != [] {
      var init := ops[..|ops| - 1];
      OpsChecked(c, init);
      PlainPasses(RunOps(c, init), ops[|ops| - 1]);
      PassesKeeps(RunOps(c, init), StmtsOf(RunOps(c, init), ops[|ops| - 1]));
    }
  }

  lemma BaseOk(c: Db, t: Tx)
    requires Inv(c) && Checked(c.rows) && TxOk(c, t)
    ensures Inv(Base(c, t)) && Checked(Base(c, t).rows) && Grows(c, Base(c, t))
  {
    hide Inv, Checked, Grows, OpsReady, OpReady, Blind, LocksOk, AllGuarded, JobOk, Issued, RunOps;
    OpsKeepInv(c, Earlier(t));
    match t.job {
      case Write(_) =>
        WritesArePlain(t);
        OpsChecked(c, Earlier(t));
      case Single(_) =>
        assert Earlier(t) == [];
        OpsNone(c);
    }
  }

  /** The last operation will pass every check once its first statement has. */
  lemma LastPasses(c: Db, t: Tx)
    requires Inv(c) && Checked(c.rows) && TxOk(c, t) && !Blind(t) && (t.job.Write? || t.at > 0)
    ensures Passes(Base(c, t), Issued(c, t))
  {
    hide Inv, Checked, OpReady, LocksOk, AllGuarded, RunOps, Passes, Closable, OpsReady;
    BaseOk(c, t);
    match t.job {
      case Write(_) =>
        PlainLast(t);
        PlainPasses(Base(c, t), Last(t));
      case Single(op) =>
        assert Earlier(t) == [];
        OpsNone(c);
        SinglePasses(c, op);
    }
  }

  lemma ViewAtStart(c: Db, t: Tx)
    requires t.at == 0
    ensures View(c, t) == Base(c, t)
  {
    assert Take(Issued(c, t), 0) == [];
    NothingLeft(0, Base(c, t));
  }

  lemma ViewAtEnd(c: Db, t: Tx)
    requires Complete(c, t)
    ensures View(c, t) == RunOps(c, OpsOf(t))
  {
    hide Run, RunOps;
    assert Take(Issued(c, t), t.at) == Issued(c, t);
    EndsWithLast(t);
  }

  /** Whatever a transaction sees satisfies the statement invariant and the checks, and only adds to what is committed;
      what it will commit satisfies everything. */
  lemma ViewOk(c: Db, t: Tx)
    requires Inv(c) && Checked(c.rows) && TxOk(c, t)
    ensures StmtInv(View(c, t)) && Checked(View(c, t).rows) && Grows(c, View(c, t))
    ensures Complete(c, t) ==> Inv(View(c, t))
    ensures !Blind(t) ==> SafeAhead(|Base(c, t).rows|, View(c, t), Issued(c, t)[t.at..])
  {
    hide Inv, StmtInv, Boundary, Checked, Grows, OpsReady, OpReady, LocksOk, AllGuarded, JobOk, Run, RunOps, Passes,
         SafeAhead, StmtsOf, Earlier, Last;
    BaseOk(c, t);
    var v, stmts := Base(c, t), Issued(c, t);
    InvSplits(v);
    GrowsReflexive(v);
    if !Blind(t) {
      ReadyKeepsInv(v, Last(t));
      SafeTake(|v.rows|, v, stmts, t.at);
      RunKeeps(v, v, stmts[..t.at]);
      GrowsTransitive(c, v, View(c, t));
    }
    if t.at == 0 {
      ViewAtStart(c, t);
    } else {
      LastPasses(c, t);
      PassesTake(v, stmts, t.at);
      PassesKeeps(v, stmts[..t.at]);
    }
    if Complete(c, t) {
      CompleteIsSure(c, t);
      assert stmts[..t.at] == stmts;
    }
  }

  lemma CompleteIsSure(c: Db, t: Tx)
    requires TxOk(c, t) && Complete(c, t)
    ensures !Blind(t)
  {
    hide OpsReady, OpReady, LocksOk, AllGuarded, JobOk, Earlier, Base;
    if Blind(t) {
      LengthIs(Base(c, t), Last(t));
    }
  }

  // ---- a commit stays within its locks ----

  lemma FoldContained(c: Db, g: Group, s: Summary, closedAt: int, locks: set<Lock>)
    requires StmtInv(c) && GroupOk(c.rows, g) && ConsolidatePlan(|c.rows|, g, s, closedAt).Ok?
    requires forall r :: r in Ids(g.members) ==> RowLock(r) in locks
    ensures Contained(c.rows, Run(c, ConsolidatePlan(|c.rows|, g, s, closedAt).value).rows, locks)
  {
    hide StmtInv, Run, ConsolidatePlan, SummaryRow, Guards;
    ConsolidationReplaces(c, g, s, closedAt);
    assert g.members != [] by { PlanHasMembers(c, g, s, closedAt); }
    SummaryRowFacts(g, s, closedAt);
  }

  lemma PlanHasMembers(c: Db, g: Group, s: Summary, closedAt: int)
    requires ConsolidatePlan(|c.rows|, g, s, closedAt).Ok?
    ensures g.members != []
  {
  }

  lemma ForgetContained(c: Db, op: Op, locks: set<Lock>)
    requires op.Forget? && op.n <= |c.rows| && (op.citers != {} ==> forall r :: r in op.open ==> RowLock(r) in locks)
    ensures Contained(c.rows, Run(c, StmtsOf(c, op)).rows, locks)
  {
    hide Guards, Apply, Contained;
    var plan := StmtsOf(c, op);
    NothingLeft(0, c);
    ContainedItself(c.rows, locks);
    if plan != [] {
      var c1 := Apply(c, plan[0]);
      CloseContained(c, op.open, op.at, locks);
      DeletionLedgerExact(op.citers, op.tenant, op.at, op.n);
      assert plan[1..] == DeletionLedger(op.citers, op.tenant, op.at, op.n);
      RecordsOnlyLog(c1, plan[1..]);
      assert Run(c, plan) == Run(c1, plan[1..]);
    }
  }

  lemma CloseContained(c: Db, ids: set<nat>, at: int, locks: set<Lock>)
    requires forall r :: r in ids ==> RowLock(r) in locks
    ensures Contained(c.rows, Apply(c, CloseOpen(ids, at)).rows, locks)
  {
    hide Guards;
  }

  lemma TxContained(c: Db, t: Tx)
    requires Inv(c) && TxOk(c, t) && Complete(c, t)
    ensures Contained(c.rows, View(c, t).rows, t.locks)
  {
    hide Inv, Contained, RunOps, Run, OpsReady, OpReady, LocksOk, StmtsOf, ConsolidatePlan, ClosePlan, Closable;
    hide AllGuarded;
    CompleteIsSure(c, t);
    ViewAtEnd(c, t);
    match t.job {
      case Write(_) =>
        WritesArePlain(t);
        ReadyToTheEnd(c, t);
        OpsContained(c, OpsOf(t), t.locks);
      case Single(op) =>
        assert Earlier(t) == [] && OpsOf(t) == [op];
        EndsWithLast(t);
        OpsNone(c);
        SingleContained(c, t, op);
    }
  }

  lemma SingleContained(c: Db, t: Tx, op: Op)
    requires Inv(c) && OpReady(c, op) && SingleOk(c, t, op) && t.at == |StmtsOf(c, op)|
    ensures Contained(c.rows, Run(c, StmtsOf(c, op)).rows, t.locks)
  {
    hide Contained, Run, Closable, GroupOk;
    InvSplits(c);
    hide Inv;
    match op {
      case Fold(g, s, closedAt) => FoldContained(c, g, s, closedAt, t.locks);
      case Forget(_, _, _, _, _, _) => ForgetContained(c, op, t.locks);
    }
  }

  lemma ReadyToTheEnd(c: Db, t: Tx)
    requires OpsReady(c, Earlier(t)) && OpReady(Base(c, t), Last(t))
    ensures OpsReady(c, OpsOf(t))
  {
    hide RunOps, OpReady;
  }

  /** What one transaction commits lies beside the locks of every other. */
  lemma CommitBeside(c: Db, t: Tx, other: Tx)
    requires Inv(c) && Checked(c.rows) && TxOk(c, t) && TxOk(c, other) && Complete(c, t) && t.locks !! other.locks
    ensures Beside(c, View(c, t), other.locks)
  {
    hide Inv, Checked, OpsReady, OpReady, AllGuarded, JobOk, View, Complete, Blind, Issued, Grows;
    ViewOk(c, t);
    TxContained(c, t);
    var v := View(c, t);
    GrowsInRows(c, v);
    forall key | KeyLock(key) in other.locks ensures NoLive(v.rows, key) {
      NoLiveStays(c.rows, v.rows, t.locks, key);
    }
  }

  lemma NoLiveStays(c: seq<Memory>, v: seq<Memory>, locks: set<Lock>, key: Key)
    requires Contained(c, v, locks) && NoLive(c, key) && KeyLock(key) !in locks && Supersedes(key.kind)
    ensures NoLive(v, key)
  {
  }

  // ---- the steps of a transaction ----

  lemma FreshTxOk(c: Db, job: Job)
    requires job.Write? ==> forall p :: p in job.call.ps ==> DraftOk(p.draft)
    requires job.Single? ==> (job.op.Fold? || job.op.Forget?) && OpReady(c, job.op)
    ensures TxOk(c, Tx(job, [], false, 0, None, {}))
  {
    hide StmtsOf, OpReady, Guards;
    var t := Tx(job, [], false, 0, None, {});
    assert Earlier(t) == [];
    OpsNone(c);
    match job {
      case Write(call) => assert OpsOf(t) == [Save(call.ep)]; SaveIsReady(c, call.ep);
      case Single(op) => NothingSettled(t);
    }
  }

  /** A deletion that has written nothing yet may decide again which rows to close. */
  lemma RedecidedOk(c: Db, t: Tx, op: Op)
    requires TxOk(c, t) && t.job.Single? && t.at == 0 && op.Forget? && OpReady(c, op)
    ensures TxOk(c, t.(job := Single(op)))
  {
    hide StmtsOf, OpReady, Guards;
    var t' := t.(job := Single(op));
    assert Earlier(t') == [];
    OpsNone(c);
    NothingSettled(t');
  }

  lemma SaveIsReady(c: Db, ep: Episode)
    ensures OpReady(c, Save(ep))
  {
  }

  lemma GuardsGrow(rows: seq<Memory>, locks: set<Lock>, more: set<Lock>, ops: seq<Op>)
    requires AllGuarded(rows, locks, ops) && locks <= more
    ensures AllGuarded(rows, more, ops)
  {
    hide Settles;
  }

  /** The row a lookup found is the current assertion, and with its lock the key is guarded. */
  lemma FoundIsGuarded(c: Db, v: Db, locks: set<Lock>, key: Key, r: nat)
    requires Inv(c) && Inv(v) && Contained(c.rows, v.rows, locks) && Supersedes(key.kind)
    requires r < |v.rows| && v.rows[r].Live() && v.rows[r].key == key
    ensures CurrentOf(v.rows, key) == Some(v.rows[r])
    ensures Guards(c.rows, locks + (if r < |c.rows| then {RowLock(r)} else {}), key)
  {
    hide CurrentOf;
    CurrentIs(v.rows, key);
    forall i | 0 <= i < |c.rows| && c.rows[i].Live() && c.rows[i].key == key && r < |c.rows| ensures i == r {
      assert OneLive(c.rows) && c.rows[r].Live() && c.rows[r].key == key;
    }
  }

  lemma AnswerOk(c: Db, t: Tx, r: Option<nat>, locks: set<Lock>)
    requires Inv(c) && Checked(c.rows) && TxOk(c, t) && Complete(c, t)
    requires t.job.Write? && !t.logging && |t.seen| < |t.job.call.ps|
    requires var key, v := t.job.call.ps[|t.seen|].draft.key, View(c, t);
             && (r.Some? ==>
                   Supersedes(key.kind) && r.value < |v.rows| && v.rows[r.value].Live() && v.rows[r.value].key == key)
             && (r.None? && Supersedes(key.kind) ==> !Settles(OpsOf(t), key))
    requires locks == if r.Some? && r.value < |c.rows| then {RowLock(r.value)} else {}
    ensures TxOk(c, WithSeen(t, if r.None? then None else Some(View(c, t).rows[r.value]), locks))
  {
    hide Inv, Checked, View, Base, Issued, OpsOf, Guards, Contained, OpsReady, LocksOk, Settles, CurrentOf;
    var call, v := t.job.call, View(c, t);
    var key, s := call.ps[|t.seen|].draft.key, if r.None? then None else Some(v.rows[r.value]);
    var t', op := WithSeen(t, s, locks), Settle(Arrival(call.ep, call.ps[|t.seen|]), s);
    AnswerBase(c, t, s, locks);
    CompleteIsSure(c, t);
    ReadyToTheEnd(c, t);
    ViewOk(c, t);
    GuardsGrow(c.rows, t.locks, t'.locks, OpsOf(t));
    LocksJoin(c.rows, t.locks, locks);
    if s.Some? {
      TxContained(c, t);
      FoundIsGuarded(c, v, t.locks, key, r.value);
    }
    assert call.ps[|t.seen|] in call.ps;
    if !Blind(t') {
      GuardedSnoc(c.rows, t'.locks, OpsOf(t), op);
    }
  }

  lemma AnswerBase(c: Db, t: Tx, s: Option<Memory>, locks: set<Lock>)
    requires Complete(c, t) && t.job.Write? && !t.logging && |t.seen| < |t.job.call.ps|
    ensures var t', op := WithSeen(t, s, locks), Settle(Arrival(t.job.call.ep, t.job.call.ps[|t.seen|]), s);
            && OpsOf(t') == OpsOf(t) + [op] && Earlier(t') == OpsOf(t) && Last(t') == op
            && Base(c, t') == View(c, t) && t'.locks == t.locks + locks
  {
    hide View;
    SeenIsNext(t, s, locks);
    ViewAtEnd(c, t);
  }

  lemma GuardedSnoc(rows: seq<Memory>, locks: set<Lock>, ops: seq<Op>, op: Op)
    requires AllGuarded(rows, locks, ops) && forall key :: On(op, key) ==> Guards(rows, locks, key)
    ensures AllGuarded(rows, locks, ops + [op])
  {
    hide Settles, Guards, On;
    forall key | Settles(ops + [op], key) ensures Guards(rows, locks, key) {
      SettlesSnoc(ops + [op], key);
    }
  }

  lemma LocksJoin(rows: seq<Memory>, locks: set<Lock>, more: set<Lock>)
    requires LocksOk(rows, locks) && LocksOk(rows, more)
    ensures LocksOk(rows, locks + more)
  {
  }

  /** Rows a statement locks. */
  function Touched(s: Stmt): set<nat> {
    match s
    case CloseRow(id, _) => {id}
    case CloseOpen(ids, _) => ids
    case LinkRows(ids, _) => ids
    case ReinforceRow(id, _, _, _, _, _) => {id}
    case _ => {}
  }

  /** Locks a statement takes: rows of the committed state, and a key on which it puts the only live row. */
  function Taken(c: Db, s: Stmt): set<Lock> {
    (set id | id in Touched(s) && id < |c.rows| :: RowLock(id)) +
    (if s.InsertRow? && s.m.Live() && Supersedes(s.m.key.kind) && FindLive(c.rows, s.m.key).None?
     then {KeyLock(s.m.key)}
     else {})
  }

  /** The next statement has gone through. */
  function Further(c: Db, t: Tx, s: Stmt): Tx {
    t.(at := t.at + 1, locks := t.locks + Taken(c, s))
  }

  lemma BlindInserts(c: Db, t: Tx)
    requires Inv(c) && Checked(c.rows) && TxOk(c, t) && t.job.Write? && Blind(t)
    ensures var key, s := Last(t).a.p.draft.key, Issued(c, t)[0];
            && s == InsertRow(Stored(Last(t).a.p.draft, None, None))
            && View(c, t) == Base(c, t)
            && CurrentOf(Base(c, t).rows, key) == CurrentOf(c.rows, key)
            && (OneLive(Apply(View(c, t), s).rows) <==> CurrentOf(c.rows, key).None?)
  {
    hide CurrentOf, RunOps, OpsReady, LocksOk, AllGuarded, Settles, OpReady, Resolve;
    var key := Last(t).a.p.draft.key;
    BaseOk(c, t);
    ViewAtStart(c, t);
    WritesArePlain(t);
    Tracks(c, Earlier(t), key);
    TrackStays(CurrentOf(c.rows, key), Earlier(t), key);
    InvOneLive(Base(c, t));
    hide Inv;
    CurrentIs(Base(c, t).rows, key);
    InsertedLive(Base(c, t).rows, Stored(Last(t).a.p.draft, None, None));
  }

  lemma InsertedLive(rows: seq<Memory>, m: Memory)
    requires OneLive(rows) && m.Live() && Supersedes(m.key.kind)
    ensures OneLive(rows + [m]) <==> NoLive(rows, m.key)
  {
    var rows' := rows + [m];
    if r :| 0 <= r < |rows| && rows[r].Live() && rows[r].key == m.key {
      assert rows'[r] == rows[r] && rows'[|rows|] == m;
    }
  }

  lemma TakenOk(c: Db, s: Stmt)
    requires OneLive(c.rows)
    ensures LocksOk(c.rows, Taken(c, s))
  {
    if s.InsertRow? && Supersedes(s.m.key.kind) {
      CurrentIs(c.rows, s.m.key);
    }
  }

  lemma WriteFurther(c: Db, t: Tx, s: Stmt)
    requires Inv(c) && Checked(c.rows) && TxOk(c, t) && t.job.Write? && t.waiting.None?
    requires t.at < |Issued(c, t)| && s == Issued(c, t)[t.at] && Constraints(Apply(View(c, t), s).rows)
    ensures TxOk(c, Further(c, t, s))
  {
    hide Inv, Checked, RunOps, Run, StmtsOf, OpsReady, LocksOk, Settles, CurrentOf, Guards, Taken, Apply, OneLive;
    hide RowOk;
    var t' := Further(c, t, s);
    SameOps(t, t');
    InvOneLive(c);
    TakenOk(c, s);
    LocksJoin(c.rows, t.locks, Taken(c, s));
    GuardsGrow(c.rows, t.locks, t'.locks, SureOps(t));
    if Blind(t) {
      var key := Last(t).a.p.draft.key;
      BlindInserts(c, t);
      BlindIsReady(c, t);
      BlindIsGuarded(c, t, s);
      forall k | Settles(OpsOf(t'), k) ensures Guards(c.rows, t'.locks, k) {
        SettlesSnoc(OpsOf(t'), k);
      }
    }
  }

  lemma BlindIsReady(c: Db, t: Tx)
    requires t.job.Write? && Blind(t) && WriteOk(c, t, t.job.call)
    requires CurrentOf(Base(c, t).rows, Last(t).a.p.draft.key).None?
    ensures OpReady(Base(c, t), Last(t))
  {
    hide CurrentOf, Base, Issued, Settles;
    LastProposal(t);
  }

  lemma LastProposal(t: Tx)
    requires t.job.Write? && Last(t).Settle? && |t.seen| <= |t.job.call.ps|
    ensures Last(t).a.p in t.job.call.ps
  {
  }

  lemma BlindIsGuarded(c: Db, t: Tx, s: Stmt)
    requires Inv(c) && t.job.Write? && Blind(t) && s == InsertRow(Stored(Last(t).a.p.draft, None, None))
    requires CurrentOf(c.rows, Last(t).a.p.draft.key).None?
    ensures Guards(c.rows, Further(c, t, s).locks, Last(t).a.p.draft.key)
  {
    InvOneLive(c);
    hide Inv;
    CurrentIs(c.rows, Last(t).a.p.draft.key);
  }

  lemma SingleFurther(c: Db, t: Tx, s: Stmt)
    requires Inv(c) && Checked(c.rows) && TxOk(c, t) && t.job.Single?
    requires t.at < |Issued(c, t)| && s == Issued(c, t)[t.at] && Constraints(Apply(View(c, t), s).rows)
    ensures TxOk(c, Further(c, t, s))
  {
    hide Inv, RunOps, Run, OpsReady, LocksOk, Taken, Apply, OneLive, RowOk, AllGuarded, StmtsOf, OpReady, Closable;
    var t', op := Further(c, t, s), t.job.op;
    SameOps(t, t');
    InvOneLive(c);
    TakenOk(c, s);
    LocksJoin(c.rows, t.locks, Taken(c, s));
    NothingSettled(t');
    if t.at == 0 {
      assert Earlier(t) == [];
      OpsNone(c);
      ViewAtStart(c, t);
      FirstCloses(c, op);
      ClosingChecked(c, ClosedBy(op), ClosingTime(op));
      forall r | r in ClosedBy(op) ensures RowLock(r) in Taken(c, s) {
        TakesRow(c, s, r);
      }
    }
  }

  lemma FirstCloses(c: Db, op: Op)
    requires (op.Fold? || op.Forget?) && OpReady(c, op) && |StmtsOf(c, op)| > 0
    ensures StmtsOf(c, op)[0] == CloseOpen(ClosedBy(op), ClosingTime(op))
    ensures forall r :: r in ClosedBy(op) ==> r < |c.rows|
  {
    if op.Fold? {
      forall r | r in ClosedBy(op) ensures r < |c.rows| {
        MembersInRange(c.rows, op.group, r);
      }
    }
  }

  lemma TakesRow(c: Db, s: Stmt, r: nat)
    requires s.CloseOpen? && r in s.ids && r < |c.rows|
    ensures RowLock(r) in Taken(c, s)
  {
  }

  lemma FurtherOk(c: Db, t: Tx, s: Stmt)
    requires Inv(c) && Checked(c.rows) && TxOk(c, t) && t.waiting.None?
    requires t.at < |Issued(c, t)| && s == Issued(c, t)[t.at] && Constraints(Apply(View(c, t), s).rows)
    ensures TxOk(c, Further(c, t, s))
  {
    hide Inv, Checked, TxOk, Issued, View, Constraints;
    match t.job {
      case Write(_) => WriteFurther(c, t, s);
      case Single(_) => SingleFurther(c, t, s);
    }
  }

  // ---- a commit transaction is a serial Commit ----

  lemma {:induction false} SettledIsCommitAll(c: Db, call: Call, seen: seq<Option<Memory>>)
    requires |seen| <= |call.ps| && OpsReady(c, [Save(call.ep)] + Settled(call, seen))
    ensures RunOps(c, [Save(call.ep)] + Settled(call, seen)) ==
            CommitAll(Apply(c, SaveEpisode(call.ep)), call.ep, call.ps[..|seen|])
  {
    hide StmtsOf, Run, OpReady, CommitOne, Apply;
    var n, ops := |seen|, [Save(call.ep)] + Settled(call, seen);
    if n == 0 {
      assert ops == [Save(call.ep)] && ops[..0] == [];
      SaveRuns(c, call.ep);
    } else {
      var op := Settle(Arrival(call.ep, call.ps[n - 1]), seen[n - 1]);
      var init := [Save(call.ep)] + Settled(call, seen[..n - 1]);
      assert ops == init + [op] && ops[..|ops| - 1] == init;
      SettledIsCommitAll(c, call, seen[..n - 1]);
      SettlesAsSeen(RunOps(c, init), op);
      CommitAllSnoc(Apply(c, SaveEpisode(call.ep)), call.ep, call.ps[..n]);
      assert call.ps[..n][..n - 1] == call.ps[..n - 1];
    }
  }

  lemma SaveRuns(c: Db, ep: Episode)
    ensures Run(c, StmtsOf(c, Save(ep))) == Apply(c, SaveEpisode(ep))
  {
    hide Apply;
    NothingLeft(0, Apply(c, SaveEpisode(ep)));
    assert [SaveEpisode(ep)][1..] == [];
  }

  /** A finished commit leaves exactly what Commit, run alone on the state committed just before, would leave. */
  lemma WriteIsSerial(c: Db, t: Tx)
    requires TxOk(c, t) && Complete(c, t) && t.job.Write? && t.logging
    ensures View(c, t) == Committing.Commit(c, t.job.call.ep, t.job.call.ps, t.job.call.rejected)
  {
    hide OpReady, RunOps, Run, CommitAll, Apply, LocksOk, AllGuarded, StmtsOf;
    var call := t.job.call;
    var saved := [Save(call.ep)] + Settled(call, t.seen);
    ViewAtEnd(c, t);
    EndsWithLast(t);
    LogIsNext(t.(logging := false));
    assert Earlier(t) == saved && Last(t) == Log(call);
    SettledIsCommitAll(c, call, t.seen);
    assert call.ps[..|t.seen|] == call.ps;
    LogRuns(RunOps(c, saved), call);
  }

  lemma LogRuns(v: Db, call: Call)
    ensures Run(v, StmtsOf(v, Log(call))) ==
            Apply(v, LogIngest(call.ep.tenant, call.ep.hash, call.ep.id, |call.ps|, call.rejected))
  {
    hide Apply;
    var s := LogIngest(call.ep.tenant, call.ep.hash, call.ep.id, |call.ps|, call.rejected);
    NothingLeft(0, Apply(v, s));
    assert [s][1..] == [];
  }
}
