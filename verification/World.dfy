/** The store with everything in flight: any number of transactions statement by statement, decay sweeps whose row
    writes slip in between, groups read long before they are consolidated, rollbacks at any point. */
module World {
  import opened Text
  import opened Records
  import opened Database
  import opened Timeline
  import opened Convergence
  import opened Maintaining
  import opened History
  import opened Transactions
  import opened Refusals
  import opened Sessions

  /** A group, and the time as of which it was found. */
  datatype Scan = Scan(group: Group, now: int)

  /** A key that was found to have enough live rows. */
  datatype Listing = Listing(key: Key, minSize: int)

  /** committed is what every session sees; sweeps hold the decay writes still to come. */
  datatype State = State(
    committed: Db,
    txs: map<nat, Tx>,
    sweeps: map<nat, seq<DecayWrite>>,
    listed: set<Listing>,
    scans: set<Scan>)

  const START := State(EMPTY, map[], map[], {}, {})

  datatype Event =
    | BeginCommit(t: nat, call: Call)
    | BeginConsolidate(t: nat, scan: Scan, summary: Summary, closedAt: int)
    | BeginInvalidate(t: nat, tenant: string, document: string, at: int)
    | Decide(t: nat)  // which of the rows it read a deletion is to close
    | Look(t: nat)  // SELECT ... FOR UPDATE for the next proposal; it waits when the row is locked
    | Resume(t: nat)  // the row it waits for is free: taken if it is still current
    | Execute(t: nat)  // the next statement
    | Conclude(t: nat)  // all proposals are done: the ingest log is due
    | Commit(t: nat)
    | Rollback(t: nat)
    | BeginSweep(s: nat, tenant: string, now: int, floor: real, factor: (Kind, int) -> real)
    | WriteNext(s: nat)  // the next row write of the sweep
    | AbandonSweep(s: nat)
    | ListKey(minSize: int, key: Key)  // the first query of the group scan
    | ReadGroup(minSize: int, now: int, group: Group)  // the second, for a key listed

  // ---- waiting ----

  predicate HeldByOther(w: State, t: nat, l: Lock) {
    exists o :: o in w.txs && o != t && l in w.txs[o].locks
  }

  predicate Held(w: State, l: Lock) {
    exists o :: o in w.txs && l in w.txs[o].locks
  }

  /** The statement puts a live row on a key that the unique index guards. */
  predicate Inserts(s: Stmt, key: Key) {
    s.InsertRow? && s.m.Live() && s.m.key == key && Supersedes(key.kind)
  }

  predicate LiveOn(rows: seq<Memory>, r: nat, key: Key) {
    r < |rows| && rows[r].Live() && rows[r].key == key
  }

  /** Transaction o has closed the row and may still commit or not. */
  predicate Closing(w: State, o: nat, r: nat) {
    o in w.txs && RowLock(r) in w.txs[o].locks && !LiveIn(View(w.committed, w.txs[o]).rows, r)
  }

  predicate LiveIn(rows: seq<Memory>, r: nat) {
    r < |rows| && rows[r].Live()
  }

  /** The index cannot tell yet: another transaction has put a live row on the key or closed the one that is there. */
  ghost predicate IndexWaits(w: State, t: nat, rows: seq<Memory>, key: Key) {
    || HeldByOther(w, t, KeyLock(key))
    || (exists r: nat, o :: LiveOn(rows, r, key) && Closing(w, o, r) && o != t)
  }

  ghost predicate Waits(w: State, t: nat, rows: seq<Memory>, s: Stmt) {
    || (exists id :: id in Touched(s) && HeldByOther(w, t, RowLock(id)))
    || (exists key :: Inserts(s, key) && IndexWaits(w, t, rows, key))
  }

  // ---- steps ----

  function Begin(w: State, t: nat, job: Job): State {
    if t in w.txs then w else w.(txs := w.txs[t := Tx(job, [], false, 0, None, {})])
  }

  /** The deletion's first read: who cites the document; until it writes, it may decide anew which of them to close. */
  function Deletion(c: Db, tenant: string, document: string, at: int): Op {
    Forget(tenant, document, at, Orphans(c, tenant, document), CitersOf(c, tenant, document), |c.rows|)
  }

  /** Which of the rows read are open and supported by nothing else now. */
  function Redecided(c: Db, op: Op): (r: Op)
    requires op.Forget?
    ensures r.Forget?
  {
    op.(open := set r | r in op.citers && r < |c.rows| && c.rows[r].key.tenant == op.tenant &&
                        c.rows[r].validTo.None? && !HasOtherSource(c, r, op.document))
  }

  predicate Decidable(w: State, t: nat) {
    t in w.txs && w.txs[t].job.Single? && w.txs[t].job.op.Forget? && w.txs[t].at == 0 && w.txs[t].waiting.None?
  }

  function Decided(w: State, t: nat): State {
    if Decidable(w, t) then
      w.(txs := w.txs[t := w.txs[t].(job := Single(Redecided(w.committed, w.txs[t].job.op)))])
    else w
  }

  function Without(w: State, t: nat): State {
    w.(txs := map k | k in w.txs && k != t :: w.txs[k])
  }

  predicate Due(w: State, t: nat) {
    t in w.txs && w.txs[t].job.Write? && !w.txs[t].logging && Complete(w.committed, w.txs[t]) &&
    |w.txs[t].seen| < |w.txs[t].job.call.ps|
  }

  /** The answer of a lookup: the row's number and contents, or nothing. */
  function Answered(w: State, t: nat, r: Option<nat>): State
    requires t in w.txs
  {
    var tx, rows := w.txs[t], View(w.committed, w.txs[t]).rows;
    if r.None? || r.value >= |rows| then w.(txs := w.txs[t := WithSeen(tx, None, {})])
    else
      w.(txs := w.txs[t := WithSeen(tx, Some(rows[r.value]),
                                    if r.value < |w.committed.rows| then {RowLock(r.value)} else {})])
  }

  function Looked(w: State, t: nat): State {
    if !Due(w, t) then w
    else
      var tx := w.txs[t];
      var key := tx.job.call.ps[|tx.seen|].draft.key;
      var c := FindLive(View(w.committed, tx).rows, key);
      if !Supersedes(key.kind) then Answered(w, t, None)
      else if c.Some? && HeldByOther(w, t, RowLock(c.value)) then w.(txs := w.txs[t := tx.(waiting := c)])
      else Answered(w, t, c)
  }

  /** A row that was superseded, closed or archived while it was waited for does not come back, and its successor is
      not looked for. */
  function Resumed(w: State, t: nat): State {
    if t !in w.txs || w.txs[t].waiting.None? || HeldByOther(w, t, RowLock(w.txs[t].waiting.value)) then w
    else
      var r, rows := w.txs[t].waiting.value, View(w.committed, w.txs[t]).rows;
      Answered(w, t, if r < |rows| && rows[r].Live() then Some(r) else None)
  }

  /** The next statement of a transaction. */
  function NextStmt(w: State, t: nat): Option<Stmt> {
    if t in w.txs && w.txs[t].waiting.None? && w.txs[t].at < |Issued(w.committed, w.txs[t])| then
      Some(Issued(w.committed, w.txs[t])[w.txs[t].at])
    else None
  }

  /** A statement waits, or is refused by a constraint and takes the transaction with it, or goes through. */
  ghost function Executed(w: State, t: nat): State {
    var s := NextStmt(w, t);
    if s.None? || Waits(w, t, View(w.committed, w.txs[t]).rows, s.value) then w
    else if !Constraints(Apply(View(w.committed, w.txs[t]), s.value).rows) then Without(w, t)
    else w.(txs := w.txs[t := Further(w.committed, w.txs[t], s.value)])
  }

  predicate Concludable(w: State, t: nat) {
    t in w.txs && w.txs[t].job.Write? && !w.txs[t].logging && Complete(w.committed, w.txs[t]) &&
    |w.txs[t].seen| == |w.txs[t].job.call.ps|
  }

  function Concluded(w: State, t: nat): State {
    if Concludable(w, t) then w.(txs := w.txs[t := ToLog(w.txs[t])]) else w
  }

  predicate Committable(w: State, t: nat) {
    t in w.txs && Complete(w.committed, w.txs[t]) && (w.txs[t].job.Write? ==> w.txs[t].logging)
  }

  /** The write would make an archived open row live again, on a key that the unique index guards. */
  predicate Revives(rows: seq<Memory>, u: DecayWrite, key: Key) {
    u.id < |rows| && rows[u.id].archived && !u.archive && rows[u.id].validTo.None? && rows[u.id].key == key &&
    Supersedes(key.kind)
  }

  function Committed(w: State, t: nat): State {
    if Committable(w, t) then Without(w, t).(committed := View(w.committed, w.txs[t])) else w
  }

  ghost predicate IndexHolds(w: State, key: Key) {
    || Held(w, KeyLock(key))
    || (exists r: nat, o :: LiveOn(w.committed.rows, r, key) && Closing(w, o, r))
  }

  /** The write of a sweep waits while its row is locked or the index cannot tell. */
  ghost predicate DecayWaits(w: State, u: DecayWrite) {
    Held(w, RowLock(u.id)) || (exists key :: Revives(w.committed.rows, u, key) && IndexHolds(w, key))
  }

  /** The sweep's next write goes through. */
  ghost predicate Lands(w: State, s: nat) {
    s in w.sweeps && w.sweeps[s] != [] && !DecayWaits(w, w.sweeps[s][0]) &&
    Constraints(Apply(w.committed, AsStmt(w.sweeps[s][0])).rows)
  }

  /** A refused write ends its sweep. */
  ghost function Written(w: State, s: nat): State {
    if s !in w.sweeps || (w.sweeps[s] != [] && DecayWaits(w, w.sweeps[s][0])) then w
    else if Lands(w, s) then
      w.(committed := Apply(w.committed, AsStmt(w.sweeps[s][0])), sweeps := w.sweeps[s := w.sweeps[s][1..]])
    else WithoutSweep(w, s)
  }

  function WithoutSweep(w: State, s: nat): State {
    w.(sweeps := map k | k in w.sweeps && k != s :: w.sweeps[k])
  }

  /** Proposals come verified, and a summary's confidence is brought into range before it is stored. */
  predicate Proposable(call: Call) {
    forall p :: p in call.ps ==> DraftOk(p.draft)
  }

  /** One step. A step that is not enabled leaves the state alone. */
  ghost function Next(w: State, e: Event): State {
    match e
    case BeginCommit(t, call) => if Proposable(call) then Begin(w, t, Write(call)) else w
    case BeginConsolidate(t, scan, s, closedAt) =>
      if scan in w.scans && ConsolidatePlan(0, scan.group, s, closedAt).Ok? && 0.0 <= s.confidence <= 1.0
      then Begin(w, t, Single(Fold(scan.group, s, closedAt))) else w
    case BeginInvalidate(t, tenant, document, at) => Begin(w, t, Single(Deletion(w.committed, tenant, document, at)))
    case Decide(t) => Decided(w, t)
    case Look(t) => Looked(w, t)
    case Resume(t) => Resumed(w, t)
    case Execute(t) => Executed(w, t)
    case Conclude(t) => Concluded(w, t)
    case Commit(t) => Committed(w, t)
    case Rollback(t) => Without(w, t)
    case BeginSweep(s, tenant, now, floor, factor) =>
      if s in w.sweeps || !Fades(factor) then w
      else w.(sweeps := w.sweeps[s := Sweep(w.committed.rows, tenant, now, Floor(floor), factor, |w.committed.rows|)])
    case WriteNext(s) => Written(w, s)
    case AbandonSweep(s) => WithoutSweep(w, s)
    case ListKey(minSize, key) =>
      if Counted(w.committed.rows, minSize, key) then w.(listed := w.listed + {Listing(key, minSize)}) else w
    case ReadGroup(minSize, now, g) =>
      if Listing(g.key, minSize) in w.listed && Reads(w.committed.rows, minSize, now, g)
      then w.(scans := w.scans + {Scan(g, now)}) else w
  }

  /** State i of the run follows from the state before it by event i. */
  ghost predicate Stepped(run: seq<State>, events: seq<Event>, i: nat)
    requires 0 < i < |run| == |events|
  {
    run[i] == Next(run[i - 1], events[i])
  }

  /** A run: it starts with nothing, and every further state follows from the one before (events[0] is unused). */
  ghost predicate IsRun(run: seq<State>, events: seq<Event>) {
    && |run| == |events| > 0 && run[0] == START
    && forall i :: 0 < i < |run| ==> Stepped(run, events, i)
  }

  // ---- decay writes and statements of other sessions ----

  predicate Reinforces(s: Stmt, id: nat) {
    s.ReinforceRow? && s.id == id
  }

  lemma RowsCommute(db: Db, u: DecayWrite, s: Stmt)
    requires u.id < |db.rows| && !Reinforces(s, u.id) && !s.WriteDecay?
    ensures Apply(Apply(db, AsStmt(u)), s).rows == Apply(Apply(db, s), AsStmt(u)).rows
  {
    var a, b := Apply(Apply(db, AsStmt(u)), s).rows, Apply(Apply(db, s), AsStmt(u)).rows;
    assert |a| == |b|;
    forall i | 0 <= i < |a| ensures a[i] == b[i] {
    }
  }

  lemma {:induction false} QuoteCommutes(db: Db, u: DecayWrite, ids: set<nat>, episode: string, from: nat)
    ensures InheritedQuote(Apply(db, AsStmt(u)), ids, episode, from) == InheritedQuote(db, ids, episode, from)
    decreases |db.rows| - from
  {
    if from < |db.rows| {
      QuoteCommutes(db, u, ids, episode, from + 1);
    }
  }

  lemma InheritedCommutes(db: Db, u: DecayWrite, row: nat, ids: set<nat>)
    ensures Inherited(Apply(db, AsStmt(u)), row, ids) == Inherited(db, row, ids)
  {
    var db' := Apply(db, AsStmt(u));
    assert db'.provenance == db.provenance;
    assert EpisodesOf(db', ids) == EpisodesOf(db, ids);
    forall e ensures InheritedQuote(db', ids, e, 0) == InheritedQuote(db, ids, e, 0) {
      QuoteCommutes(db, u, ids, e, 0);
    }
    hide Apply, AsStmt, InheritedQuote, EpisodesOf;
  }

  lemma TablesCommute(db: Db, u: DecayWrite, s: Stmt)
    ensures var a, b := Apply(Apply(db, AsStmt(u)), s), Apply(Apply(db, s), AsStmt(u));
            a.provenance == b.provenance && a.ledger == b.ledger && a.episodes == b.episodes && a.ingest == b.ingest
  {
    hide Updated, UpdatedRows, Inherited, Cited, Logged, SavedEpisodes;
    if s.InheritCitations? {
      InheritedCommutes(db, u, s.row, s.ids);
    }
    OnlyRowsUpdated(db, u, s);
  }

  lemma OnlyRowsUpdated(db: Db, u: DecayWrite, s: Stmt)
    ensures var db' := Apply(db, AsStmt(u));
            && db' == db.(rows := db'.rows)
            && (forall row, episode, quote, pass ::
                  Cited(db', row, episode, quote, pass) == Cited(db, row, episode, quote, pass))
            && (forall tenant, hash, episode, added, rejected ::
                  Logged(db', tenant, hash, episode, added, rejected) ==
                  Logged(db, tenant, hash, episode, added, rejected))
            && (forall ep :: SavedEpisodes(db', ep) == SavedEpisodes(db, ep))
  {
    hide Updated, UpdatedRows, Inherited;
  }

  /** A decay write and a statement of another session commute, unless the statement reinforces the decayed row. */
  lemma DecayCommutes(db: Db, u: DecayWrite, s: Stmt)
    requires u.id < |db.rows| && !Reinforces(s, u.id) && !s.WriteDecay?
    ensures Apply(Apply(db, AsStmt(u)), s) == Apply(Apply(db, s), AsStmt(u))
  {
    hide Apply;
    RowsCommute(db, u, s);
    TablesCommute(db, u, s);
  }

  // ---- the invariant of every run ----

  ghost predicate SweepOk(rows: seq<Memory>, sweep: seq<DecayWrite>) {
    && (forall k :: 0 <= k < |sweep| ==>
          && sweep[k].id < |rows| && sweep[k].salience >= 0.0
          && (sweep[k].archive ==> !Protected(rows[sweep[k].id].key.kind)))
    && (forall j, k :: 0 <= j < k < |sweep| ==> sweep[j].id != sweep[k].id)
  }

  ghost predicate SweepsOk(rows: seq<Memory>, sweeps: map<nat, seq<DecayWrite>>) {
    forall s :: s in sweeps ==> SweepOk(rows, sweeps[s])
  }

  /** A found group holds events, with the groups the scan read, that had started by then. */
  ghost predicate ScanOk(rows: seq<Memory>, scan: Scan) {
    GroupOk(rows, scan.group) && forall i :: 0 <= i < |scan.group.members| ==>
      rows[scan.group.members[i].id].validFrom <= scan.now
  }

  ghost predicate ScansOk(rows: seq<Memory>, scans: set<Scan>) {
    forall scan :: scan in scans ==> ScanOk(rows, scan)
  }

  /** Only keys of events are ever listed. */
  ghost predicate ListedOk(listed: set<Listing>) {
    forall l :: l in listed ==> l.key.kind == Kind.Event
  }

  ghost predicate TxsOk(w: State) {
    forall t :: t in w.txs ==> TxOk(w.committed, w.txs[t])
  }

  ghost predicate Apart(w: State) {
    forall t, o :: t in w.txs && o in w.txs && t != o ==> w.txs[t].locks !! w.txs[o].locks
  }

  ghost predicate WorldInv(w: State) {
    && Inv(w.committed) && Checked(w.committed.rows)
    && TxsOk(w) && Apart(w)
    && SweepsOk(w.committed.rows, w.sweeps)
    && ListedOk(w.listed) && ScansOk(w.committed.rows, w.scans)
  }

  lemma StartOk()
    ensures WorldInv(START)
  {
    hide Inv, TxOk, GroupOk;
    EmptyInv(EMPTY);
  }

  lemma InvParts(w: State)
    requires WorldInv(w)
    ensures Inv(w.committed) && Checked(w.committed.rows) && OneLive(w.committed.rows)
    ensures TxsOk(w) && Apart(w)
    ensures SweepsOk(w.committed.rows, w.sweeps) && ListedOk(w.listed) && ScansOk(w.committed.rows, w.scans)
  {
  }

  /** One transaction moves on, taking locks no other holds. */
  lemma TxMoves(w: State, t: nat, tx: Tx)
    requires WorldInv(w) && TxOk(w.committed, tx)
    requires forall l :: l in tx.locks && (t in w.txs ==> l !in w.txs[t].locks) ==> !HeldByOther(w, t, l)
    ensures WorldInv(w.(txs := w.txs[t := tx]))
  {
    hide Inv, Checked, TxOk, SweepsOk, ScansOk;
    var w' := w.(txs := w.txs[t := tx]);
    forall a, b | a in w'.txs && b in w'.txs && a != b ensures w'.txs[a].locks !! w'.txs[b].locks {
      if a == t {
        MovesApart(w, t, tx, b);
      } else if b == t {
        MovesApart(w, t, tx, a);
      }
    }
  }

  lemma MovesApart(w: State, t: nat, tx: Tx, o: nat)
    requires Apart(w) && o in w.txs && o != t
    requires forall l :: l in tx.locks && (t in w.txs ==> l !in w.txs[t].locks) ==> !HeldByOther(w, t, l)
    ensures tx.locks !! w.txs[o].locks
  {
    forall l | l in tx.locks ensures l !in w.txs[o].locks {
    }
  }

  lemma WithoutOk(w: State, t: nat)
    requires WorldInv(w)
    ensures WorldInv(Without(w, t))
  {
    hide Inv, Checked, TxOk, SweepsOk, ScansOk;
  }

  lemma BeginOk(w: State, t: nat, job: Job)
    requires WorldInv(w)
    requires job.Write? ==> Proposable(job.call)
    requires job.Single? ==> (job.op.Fold? || job.op.Forget?) && OpReady(w.committed, job.op)
    ensures WorldInv(Begin(w, t, job))
  {
    hide WorldInv, OpReady, TxOk;
    FreshTxOk(w.committed, job);
    if t !in w.txs {
      TxMoves(w, t, Tx(job, [], false, 0, None, {}));
    }
  }

  lemma BeginConsolidateOk(w: State, t: nat, scan: Scan, s: Summary, closedAt: int)
    requires WorldInv(w)
    ensures WorldInv(Next(w, BeginConsolidate(t, scan, s, closedAt)))
  {
    hide WorldInv, SharedAcl, SummaryRow, LedgerFor, Begin;
    InvParts(w);
    if scan in w.scans && ConsolidatePlan(0, scan.group, s, closedAt).Ok? && 0.0 <= s.confidence <= 1.0 {
      assert ScanOk(w.committed.rows, scan);
      BeginOk(w, t, Single(Fold(scan.group, s, closedAt)));
    }
  }

  lemma BeginInvalidateOk(w: State, t: nat, tenant: string, document: string, at: int)
    requires WorldInv(w)
    ensures WorldInv(Next(w, BeginInvalidate(t, tenant, document, at)))
  {
    hide Begin, HasOtherSource, Sound, Acyclic, LedgerInRange, Paired, FaithfulSummaries, Checked, TxsOk, Apart;
    BeginOk(w, t, Single(Deletion(w.committed, tenant, document, at)));
  }

  lemma DecidedOk(w: State, t: nat)
    requires WorldInv(w)
    ensures WorldInv(Decided(w, t))
  {
    hide WorldInv, TxOk, HasOtherSource;
    if Decidable(w, t) {
      InvParts(w);
      ForgetIsReady(w.committed, w.txs[t]);
      RedecidedOk(w.committed, w.txs[t], Redecided(w.committed, w.txs[t].job.op));
      TxMoves(w, t, w.txs[t].(job := Single(Redecided(w.committed, w.txs[t].job.op))));
    }
  }

  lemma ForgetIsReady(c: Db, t: Tx)
    requires TxOk(c, t) && t.job.Single? && t.job.op.Forget?
    ensures OpReady(c, t.job.op)
  {
    hide LocksOk, AllGuarded;
    assert Earlier(t) == [];
    OpsNone(c);
  }

  lemma AnsweredOk(w: State, t: nat, r: Option<nat>)
    requires WorldInv(w) && t in w.txs && Due(w, t)
    requires var tx := w.txs[t];
             var key, v := tx.job.call.ps[|tx.seen|].draft.key, View(w.committed, tx);
             && (r.Some? ==>
                   Supersedes(key.kind) && LiveOn(v.rows, r.value, key) && !HeldByOther(w, t, RowLock(r.value)))
             && (r.None? && Supersedes(key.kind) ==> !Settles(OpsOf(tx), key))
    ensures WorldInv(Answered(w, t, r))
  {
    hide WorldInv, TxOk, View, Settles, OpsOf, WithSeen;
    InvParts(w);
    var tx := w.txs[t];
    var locks := if r.Some? && r.value < |w.committed.rows| then {RowLock(r.value)} else {};
    AnswerOk(w.committed, tx, r, locks);
    var tx' := WithSeen(tx, if r.None? then None else Some(View(w.committed, tx).rows[r.value]), locks);
    assert tx'.locks == tx.locks + locks by {
      SeenLocks(tx, if r.None? then None else Some(View(w.committed, tx).rows[r.value]), locks);
    }
    TxMoves(w, t, tx');
  }

  lemma SeenLocks(t: Tx, s: Option<Memory>, locks: set<Lock>)
    ensures WithSeen(t, s, locks).locks == t.locks + locks
  {
  }

  /** A key the transaction has settled has a live row in its view, and no other transaction holds that row. */
  lemma SettledIsHeld(w: State, t: nat, key: Key)
    requires WorldInv(w) && t in w.txs && Complete(w.committed, w.txs[t]) && w.txs[t].job.Write?
    requires Settles(OpsOf(w.txs[t]), key)
    ensures var c := FindLive(View(w.committed, w.txs[t]).rows, key);
            c.Some? && !HeldByOther(w, t, RowLock(c.value))
  {
    hide RunOps, Run, StmtsOf, Settles, FindLive, OpsReady, LocksOk, JobOk, Checked, Inv, CurrentOf;
    var c, tx := w.committed, w.txs[t];
    InvParts(w);
    OnIsSuperseding(OpsOf(tx), key);
    CompleteIsSure(c, tx);
    ViewAtEnd(c, tx);
    ReadyToTheEnd(c, tx);
    WritesArePlain(tx);
    Tracks(c, OpsOf(tx), key);
    TrackStays(CurrentOf(c.rows, key), OpsOf(tx), key);
    LookupIs(View(c, tx).rows, key);
    TxContained(c, tx);
    assert Guards(c.rows, tx.locks, key);
    var r := FindLive(View(c, tx).rows, key).value;
    forall o | o in w.txs && o != t ensures RowLock(r) !in w.txs[o].locks {
      assert TxOk(c, w.txs[o]);
      assert LocksOk(c.rows, w.txs[o].locks);
      RowLockInRange(c.rows, w.txs[o].locks, r);
    }
  }

  lemma RowLockInRange(rows: seq<Memory>, locks: set<Lock>, r: nat)
    requires LocksOk(rows, locks)
    ensures RowLock(r) in locks ==> r < |rows|
  {
  }

  lemma LookupIs(rows: seq<Memory>, key: Key)
    ensures CurrentOf(rows, key).Some? <==> FindLive(rows, key).Some?
  {
  }

  lemma LookedOk(w: State, t: nat)
    requires WorldInv(w)
    ensures WorldInv(Looked(w, t))
  {
    hide WorldInv, TxOk, View, Settles, OpsOf, FindLive, Complete, HeldByOther;
    if Due(w, t) {
      InvParts(w);
      var tx := w.txs[t];
      var key := tx.job.call.ps[|tx.seen|].draft.key;
      var c := FindLive(View(w.committed, tx).rows, key);
      if Settles(OpsOf(tx), key) {
        SettledIsHeld(w, t, key);
      }
      if Supersedes(key.kind) && c.Some? && HeldByOther(w, t, RowLock(c.value)) {
        WaitOk(w, t, c.value);
      } else {
        AnsweredOk(w, t, if Supersedes(key.kind) then c else None);
      }
    }
  }

  lemma WaitOk(w: State, t: nat, r: nat)
    requires WorldInv(w) && Due(w, t)
    requires var tx := w.txs[t];
             var key := tx.job.call.ps[|tx.seen|].draft.key;
             && Supersedes(key.kind) && LiveOn(View(w.committed, tx).rows, r, key)
             && HeldByOther(w, t, RowLock(r)) && !Settles(OpsOf(tx), key)
    ensures WorldInv(w.(txs := w.txs[t := w.txs[t].(waiting := Some(r))]))
  {
    hide Inv, Checked, Settles, RunOps, Run, StmtsOf, Guards, OpsReady, OpReady, AllGuarded, View, Contained;
    InvParts(w);
    var c, tx := w.committed, w.txs[t];
    var tx' := tx.(waiting := Some(r));
    SameOps(tx, tx');
    CompleteIsSure(c, tx);
    TxContained(c, tx);
    var o :| o in w.txs && o != t && RowLock(r) in w.txs[o].locks;
    assert TxOk(c, w.txs[o]);
    RowLockInRange(c.rows, w.txs[o].locks, r);
    ContainedKey(c.rows, View(c, tx).rows, tx.locks, r);
    assert TxOk(c, tx');
    hide TxOk;
    TxMoves(w, t, tx');
  }

  lemma ContainedKey(c: seq<Memory>, v: seq<Memory>, locks: set<Lock>, r: nat)
    requires Contained(c, v, locks) && r < |c|
    ensures v[r].key == c[r].key
  {
  }

  lemma ResumedOk(w: State, t: nat)
    requires WorldInv(w)
    ensures WorldInv(Resumed(w, t))
  {
    hide WorldInv, HeldByOther, Apart, SweepsOk, ScansOk;
    hide Inv, Checked, Settles, RunOps, Run, StmtsOf, Guards, OpsReady, OpReady, AllGuarded, View, Contained,
         LocksOk, Answered;
    if t in w.txs && w.txs[t].waiting.Some? && !HeldByOther(w, t, RowLock(w.txs[t].waiting.value)) {
      InvParts(w);
      var c, tx := w.committed, w.txs[t];
      var r, key := tx.waiting.value, tx.job.call.ps[|tx.seen|].draft.key;
      var ready := tx.(waiting := None);
      SameOps(tx, ready);
      ReadyView(c, tx, ready);
      assert TxOk(c, ready);
      TxMoves(w, t, ready);
      var w' := w.(txs := w.txs[t := ready]);
      TxContained(c, ready);
      ContainedKey(c.rows, View(c, ready).rows, ready.locks, r);
      SameHolders(w, w', t, RowLock(r));
      var rows := View(c, ready).rows;
      var found: Option<nat> := if r < |rows| && rows[r].Live() then Some(r) else None;
      AnsweredOk(w', t, found);
      assert Answered(w', t, found) == Answered(w, t, found) by { AnsweredSame(w, t, found); }
    }
  }

  lemma AnsweredSame(w: State, t: nat, r: Option<nat>)
    requires t in w.txs
    ensures Answered(w.(txs := w.txs[t := w.txs[t].(waiting := None)]), t, r) == Answered(w, t, r)
  {
    hide RunOps, Run, StmtsOf;
    ReadyView(w.committed, w.txs[t], w.txs[t].(waiting := None));
  }

  lemma ReadyView(c: Db, t: Tx, t': Tx)
    requires t' == t.(waiting := t'.waiting)
    ensures View(c, t') == View(c, t) && Issued(c, t') == Issued(c, t)
  {
    hide RunOps, Run, StmtsOf;
    SameOps(t, t');
  }

  lemma SameHolders(w: State, w': State, t: nat, l: Lock)
    requires w'.txs.Keys == w.txs.Keys && forall o :: o in w.txs && o != t ==> w'.txs[o] == w.txs[o]
    ensures HeldByOther(w', t, l) <==> HeldByOther(w, t, l)
  {
  }

  lemma ExecutedOk(w: State, t: nat)
    requires WorldInv(w)
    ensures WorldInv(Executed(w, t))
  {
    hide WorldInv, TxOk, View, Issued, Constraints, Waits, Further;
    InvParts(w);
    WithoutOk(w, t);
    var s := NextStmt(w, t);
    if s.Some? && !Waits(w, t, View(w.committed, w.txs[t]).rows, s.value) &&
       Constraints(Apply(View(w.committed, w.txs[t]), s.value).rows) {
      var tx' := Further(w.committed, w.txs[t], s.value);
      FurtherOk(w.committed, w.txs[t], s.value);
      forall l | l in tx'.locks && l !in w.txs[t].locks ensures !HeldByOther(w, t, l) {
        TakenIsFree(w, t, s.value, l);
      }
      TxMoves(w, t, tx');
    }
  }

  lemma TakenIsFree(w: State, t: nat, s: Stmt, l: Lock)
    requires t in w.txs && !Waits(w, t, View(w.committed, w.txs[t]).rows, s)
    requires l in Further(w.committed, w.txs[t], s).locks && l !in w.txs[t].locks
    ensures !HeldByOther(w, t, l)
  {
    hide View, HeldByOther;
    if l.KeyLock? {
      assert Inserts(s, l.key);
    }
  }

  lemma ConcludeOk(w: State, t: nat)
    requires WorldInv(w)
    ensures WorldInv(Concluded(w, t))
  {
    hide WorldInv, TxOk, Issued, ToLog;
    if Concludable(w, t) {
      InvParts(w);
      ToLogOk(w.committed, w.txs[t]);
      assert ToLog(w.txs[t]).locks == w.txs[t].locks by { LogLocks(w.txs[t]); }
      TxMoves(w, t, ToLog(w.txs[t]));
    }
  }

  lemma LogLocks(t: Tx)
    ensures ToLog(t).locks == t.locks
  {
  }

  lemma ToLogOk(c: Db, t: Tx)
    requires Inv(c) && Checked(c.rows) && TxOk(c, t) && Complete(c, t)
    requires t.job.Write? && !t.logging && |t.seen| == |t.job.call.ps|
    ensures TxOk(c, ToLog(t))
  {
    hide Inv, Checked, RunOps, Run, Settles, Guards, LocksOk, OpsReady;
    LogIsNext(t);
    CompleteIsSure(c, t);
    ReadyToTheEnd(c, t);
    forall key | Settles(OpsOf(ToLog(t)), key) ensures Guards(c.rows, t.locks, key) {
      SettlesSnoc(OpsOf(ToLog(t)), key);
    }
  }

  // ---- what a commit or a decay write means for the others ----

  lemma SweepsStay(rows: seq<Memory>, rows': seq<Memory>, sweeps: map<nat, seq<DecayWrite>>)
    requires SweepsOk(rows, sweeps) && |rows| <= |rows'|
    requires forall i :: 0 <= i < |rows| ==> rows'[i].key == rows[i].key
    ensures SweepsOk(rows', sweeps)
  {
    forall s | s in sweeps ensures SweepOk(rows', sweeps[s]) {
      assert SweepOk(rows, sweeps[s]);
    }
  }

  lemma ScansStay(c: Db, c': Db, scans: set<Scan>)
    requires ScansOk(c.rows, scans) && Grows(c, c')
    ensures ScansOk(c'.rows, scans)
  {
    hide GroupOk;
    forall scan | scan in scans ensures ScanOk(c'.rows, scan) {
      assert ScanOk(c.rows, scan);
      GroupStaysOk(c, c', scan.group);
      forall i | 0 <= i < |scan.group.members|
        ensures c'.rows[scan.group.members[i].id].validFrom <= scan.now
      {
        var r := scan.group.members[i].id;
        MemberInRange(c.rows, scan.group, i);
        assert RowGrows(c.rows[r], c'.rows[r]);
      }
    }
  }

  lemma MemberInRange(rows: seq<Memory>, g: Group, i: nat)
    requires GroupOk(rows, g) && i < |g.members|
    ensures g.members[i].id < |rows|
  {
  }

  lemma GrownKeys(c: Db, c': Db)
    requires Grows(c, c')
    ensures |c.rows| <= |c'.rows| && forall i :: 0 <= i < |c.rows| ==> c'.rows[i].key == c.rows[i].key
  {
    forall i | 0 <= i < |c.rows| ensures c'.rows[i].key == c.rows[i].key {
      assert RowGrows(c.rows[i], c'.rows[i]);
    }
  }

  /** The committed state moves on beside the locks of every transaction that stays. */
  lemma CommittedMoves(w: State, w': State)
    requires WorldInv(w) && w'.sweeps == w.sweeps && w'.listed == w.listed && w'.scans == w.scans
    requires Inv(w'.committed) && Checked(w'.committed.rows) && Grows(w.committed, w'.committed)
    requires forall o :: o in w'.txs ==> o in w.txs && w'.txs[o] == w.txs[o]
    requires forall o :: o in w'.txs ==> Beside(w.committed, w'.committed, w.txs[o].locks)
    ensures WorldInv(w')
  {
    hide Inv, Checked, TxOk, Beside, SweepsOk, ScansOk, Grows;
    forall o | o in w'.txs ensures TxOk(w'.committed, w'.txs[o]) {
      TxStays(w.committed, w'.committed, w.txs[o]);
    }
    GrownKeys(w.committed, w'.committed);
    SweepsStay(w.committed.rows, w'.committed.rows, w.sweeps);
    ScansStay(w.committed, w'.committed, w.scans);
  }

  lemma CommittedOk(w: State, t: nat)
    requires WorldInv(w)
    ensures WorldInv(Committed(w, t)) && Grows(w.committed, Committed(w, t).committed)
  {
    hide Inv, Checked, TxOk, View, Beside, SweepsOk, ScansOk, Grows, Issued;
    GrowsReflexive(w.committed);
    if Committable(w, t) {
      var c, tx := w.committed, w.txs[t];
      ViewOk(c, tx);
      forall o | o in w.txs && o != t ensures Beside(c, View(c, tx), w.txs[o].locks) {
        CommitBeside(c, tx, w.txs[o]);
      }
      CommittedMoves(w, Committed(w, t));
    }
  }

  lemma DecayKeepsInv(db: Db, u: DecayWrite)
    requires Inv(db) && Pre(|db.rows|, db, AsStmt(u))
    ensures Inv(Apply(db, AsStmt(u))) && Grows(db, Apply(db, AsStmt(u)))
  {
    hide Sound, Acyclic, LedgerInRange, Paired, FaithfulSummaries, CitesInRange, Pre;
    var s := AsStmt(u);
    var db' := Apply(db, s);
    InvSplits(db);
    GrowsReflexive(db);
    StmtGrows(db, db, s);
    StmtKeepsInv(|db.rows|, db, s);
    QuietBoundary(db, db');
    SameCitations(db, db');
    InvSplits(db');
  }

  /** A write the index lets through meets what it needs. */
  lemma AllowedDecay(db: Db, u: DecayWrite)
    requires u.id < |db.rows| && (u.archive ==> !Protected(db.rows[u.id].key.kind))
    requires Constraints(Apply(db, AsStmt(u)).rows)
    ensures Pre(|db.rows|, db, AsStmt(u))
  {
    hide RowOk;
    DecayUpdatesOne(db, u);
    var rows' := Apply(db, AsStmt(u)).rows;
    hide Apply;
    forall i | 0 <= i < |db.rows| && i != u.id ensures rows'[i] == db.rows[i] {
    }
  }

  lemma DecayBeside(w: State, u: DecayWrite, o: nat)
    requires WorldInv(w) && o in w.txs && !DecayWaits(w, u) && u.id < |w.committed.rows|
    requires Grows(w.committed, Apply(w.committed, AsStmt(u)))
    ensures Beside(w.committed, Apply(w.committed, AsStmt(u)), w.txs[o].locks)
  {
    hide Inv, Checked, SweepsOk, ScansOk, Grows, OpsReady, OpReady, AllGuarded, JobOk, Issued, IndexHolds;
    InvParts(w);
    var c, locks := w.committed, w.txs[o].locks;
    assert TxOk(c, w.txs[o]);
    DecayUpdatesOne(c, u);
    hide Apply;
    var c' := Apply(c, AsStmt(u));
    assert RowLock(u.id) !in locks by { assert !Held(w, RowLock(u.id)); }
    forall id: nat | RowLock(id) in locks ensures id < |c.rows| && c'.rows[id] == c.rows[id] {
      RowLockInRange(c.rows, locks, id);
    }
    forall key | KeyLock(key) in locks ensures NoLive(c'.rows, key) {
      assert Held(w, KeyLock(key));
      assert !Revives(c.rows, u, key) by { KeyHolds(w, key); }
      StillNone(c.rows, u, key);
    }
  }

  lemma KeyHolds(w: State, key: Key)
    requires Held(w, KeyLock(key))
    ensures IndexHolds(w, key)
  {
  }

  lemma StillNone(rows: seq<Memory>, u: DecayWrite, key: Key)
    requires NoLive(rows, key) && u.id < |rows| && !Revives(rows, u, key) && Supersedes(key.kind)
    ensures NoLive(rows[u.id := rows[u.id].(salience := u.salience, archived := u.archive)], key)
  {
  }

  lemma WrittenOk(w: State, s: nat)
    requires WorldInv(w)
    ensures WorldInv(Written(w, s)) && Grows(w.committed, Written(w, s).committed)
  {
    hide Inv, Checked, TxOk, Beside, ScansOk, Grows, Constraints, DecayWaits, Apply;
    GrowsReflexive(w.committed);
    if Lands(w, s) {
      var u := w.sweeps[s][0];
      var c' := Apply(w.committed, AsStmt(u));
      assert SweepOk(w.committed.rows, w.sweeps[s]);
      AllowedDecay(w.committed, u);
      DecayKeepsInv(w.committed, u);
      ConstraintsAreChecks(c'.rows);
      forall o | o in w.txs ensures Beside(w.committed, c', w.txs[o].locks) {
        DecayBeside(w, u, o);
      }
      var w' := w.(committed := c');
      CommittedMoves(w, w');
      SweepTail(w', s);
    } else {
      SweepGone(w, s);
    }
  }

  lemma ConstraintsAreChecks(rows: seq<Memory>)
    requires Constraints(rows)
    ensures Checked(rows)
  {
  }

  lemma SweepTail(w: State, s: nat)
    requires WorldInv(w) && s in w.sweeps && w.sweeps[s] != []
    ensures WorldInv(w.(sweeps := w.sweeps[s := w.sweeps[s][1..]]))
  {
    hide Inv, Checked, TxOk, ScansOk;
    assert SweepOk(w.committed.rows, w.sweeps[s]);
  }

  lemma SweepGone(w: State, s: nat)
    requires WorldInv(w)
    ensures WorldInv(WithoutSweep(w, s))
  {
    hide Inv, Checked, TxOk, ScansOk, SweepOk;
  }

  lemma NoSweep(rows: seq<Memory>)
    ensures SweepOk(rows, [])
  {
  }

  lemma {:induction false} SweepIsOk(rows: seq<Memory>, tenant: string, now: int, floor: real,
                                     factor: (Kind, int) -> real, n: nat)
    requires n <= |rows| && Checked(rows) && Fades(factor)
    ensures SweepOk(rows, Sweep(rows, tenant, now, floor, factor, n))
    ensures forall k :: 0 <= k < |Sweep(rows, tenant, now, floor, factor, n)| ==>
              Sweep(rows, tenant, now, floor, factor, n)[k].id < n
  {
    hide DecayOf, SweepOk, Checked, Fades;
    if n == 0 {
      NoSweep(rows);
    } else {
      SweepIsOk(rows, tenant, now, floor, factor, n - 1);
      var prior, u := Sweep(rows, tenant, now, floor, factor, n - 1), DecayOf(n - 1, rows[n - 1], now, floor, factor);
      if rows[n - 1].Live() && u.Some? {
        CheckedSalience(rows, n - 1);
        DecaySpares(n - 1, rows[n - 1], now, floor, factor);
        SweepOkSnoc(rows, prior, u.value);
      }
    }
  }

  lemma CheckedSalience(rows: seq<Memory>, i: nat)
    requires Checked(rows) && i < |rows|
    ensures rows[i].salience >= 0.0
  {
    assert RowOk(rows[i]);
  }

  lemma DecaySpares(id: nat, m: Memory, now: int, floor: real, factor: (Kind, int) -> real)
    requires m.salience >= 0.0 && Fades(factor)
    ensures var u := DecayOf(id, m, now, floor, factor);
            u.Some? ==>
              u.value.id == id && u.value.salience >= 0.0 && (u.value.archive ==> !Protected(m.key.kind))
  {
    hide Abs;
    if now - m.lastSeen > 0 {
      NotNegative(m.salience, factor(m.key.kind, now - m.lastSeen));
    }
  }

  lemma NotNegative(x: real, y: real)
    requires x >= 0.0 && y > 0.0
    ensures x * y >= 0.0
  {
  }

  lemma SweepOkSnoc(rows: seq<Memory>, prior: seq<DecayWrite>, u: DecayWrite)
    requires SweepOk(rows, prior) && u.id < |rows| && (u.archive ==> !Protected(rows[u.id].key.kind))
    requires u.salience >= 0.0 && forall k :: 0 <= k < |prior| ==> prior[k].id < u.id
    ensures SweepOk(rows, prior + [u])
  {
  }

  lemma ListKeyOk(w: State, minSize: int, key: Key)
    requires WorldInv(w)
    ensures WorldInv(Next(w, ListKey(minSize, key)))
  {
    hide Inv, Checked, TxOk, SweepOk, Counted;
    if Counted(w.committed.rows, minSize, key) {
      InvParts(w);
      ListedAreEvents(w.committed.rows, minSize, key);
    }
  }

  lemma ReadGroupOk(w: State, minSize: int, now: int, g: Group)
    requires WorldInv(w)
    ensures WorldInv(Next(w, ReadGroup(minSize, now, g)))
  {
    hide Inv, Checked, TxOk, SweepOk;
    if Listing(g.key, minSize) in w.listed && Reads(w.committed.rows, minSize, now, g) {
      InvParts(w);
      assert ScanOk(w.committed.rows, Scan(g, now));
    }
  }

  /** Every step keeps the invariant, and the committed history only grows. */
  lemma StepOk(w: State, e: Event)
    requires WorldInv(w)
    ensures WorldInv(Next(w, e)) && Grows(w.committed, Next(w, e).committed)
  {
    hide WorldInv, Inv, Grows, Decided, Looked, Resumed, Executed, Concluded, Committed, Written, Begin, Without;
    hide WithoutSweep;
    GrowsReflexive(w.committed);
    if !e.Commit? && !e.WriteNext? {
      SameCommitted(w, e);
    }
    match e {
      case BeginCommit(t, call) => if Proposable(call) { BeginOk(w, t, Write(call)); }
      case BeginConsolidate(t, scan, s, closedAt) => BeginConsolidateOk(w, t, scan, s, closedAt);
      case BeginInvalidate(t, tenant, document, at) => BeginInvalidateOk(w, t, tenant, document, at);
      case Decide(t) => DecidedOk(w, t);
      case Look(t) => LookedOk(w, t);
      case Resume(t) => ResumedOk(w, t);
      case Execute(t) => ExecutedOk(w, t);
      case Conclude(t) => ConcludeOk(w, t);
      case Commit(t) => CommittedOk(w, t);
      case Rollback(t) => WithoutOk(w, t);
      case WriteNext(s) => WrittenOk(w, s);
      case AbandonSweep(s) => SweepGone(w, s);
      case ListKey(minSize, key) => ListKeyOk(w, minSize, key);
      case ReadGroup(minSize, now, g) => ReadGroupOk(w, minSize, now, g);
      case BeginSweep(_, _, _, _, _) => BeginSweepOk(w, e);
    }
  }

  lemma BeginSweepOk(w: State, e: Event)
    requires WorldInv(w) && e.BeginSweep?
    ensures WorldInv(Next(w, e))
  {
    hide Inv, Checked, TxOk, SweepOk, ScansOk, Sweep;
    if Fades(e.factor) {
      SweepIsOk(w.committed.rows, e.tenant, e.now, Floor(e.floor), e.factor, |w.committed.rows|);
    }
  }

  /** Only a commit and a decay write change what other sessions see. */
  lemma SameCommitted(w: State, e: Event)
    requires !e.Commit? && !e.WriteNext?
    ensures Next(w, e).committed == w.committed
  {
    hide ConsolidatePlan, Deletion, Redecided, View, Issued, Apply, Constraints, Waits, Sweep, Counted, Reads, WithSeen,
         Further, FindLive, HeldByOther, Complete, ToLog, Proposable;
  }

  // ---- runs ----

  lemma {:induction false} RunOk(run: seq<State>, events: seq<Event>, i: nat)
    requires IsRun(run, events) && i < |run|
    ensures WorldInv(run[i])
  {
    hide WorldInv, Next;
    if i == 0 {
      StartOk();
    } else {
      RunOk(run, events, i - 1);
      RunStep(run, events, i);
    }
  }

  lemma RunStep(run: seq<State>, events: seq<Event>, i: nat)
    requires IsRun(run, events) && 0 < i < |run| && WorldInv(run[i - 1])
    ensures WorldInv(run[i]) && Grows(run[i - 1].committed, run[i].committed)
    ensures run[i] == Next(run[i - 1], events[i])
  {
    hide WorldInv, Next, Grows;
    assert Stepped(run, events, i);
    StepOk(run[i - 1], events[i]);
  }

  // ---- what holds in every run ----

  /** With any number of transactions and decay sweeps in flight, after every single statement: each superseding key has
      at most one live row, only closed rows are linked, and no decision or instruction is archived, in the committed
      state and in the state every transaction sees. */
  lemma OneCurrentAlways(run: seq<State>, events: seq<Event>, i: nat)
    requires IsRun(run, events) && i < |run|
    ensures Sound(run[i].committed.rows)
    ensures forall t :: t in run[i].txs ==> Sound(View(run[i].committed, run[i].txs[t]).rows)
  {
    hide Checked;
    hide IsRun, Sound, Acyclic, LedgerInRange, TxOk, SweepsOk, ScansOk, Paired, CitesInRange, FaithfulSummaries,
         View;
    RunOk(run, events, i);
    forall t | t in run[i].txs ensures Sound(View(run[i].committed, run[i].txs[t]).rows) {
      ViewOk(run[i].committed, run[i].txs[t]);
    }
  }

  /** Following superseded_by from any committed row never cycles: it ends at a row without a successor. */
  lemma LinksAlwaysEnd(run: seq<State>, events: seq<Event>, i: nat, r: nat) returns (n: nat)
    requires IsRun(run, events) && i < |run| && r < |run[i].committed.rows|
    ensures EndsWithin(run[i].committed.rows, r, n)
  {
    hide IsRun, LedgerInRange, TxOk, SweepsOk, ScansOk, Paired, CitesInRange, FaithfulSummaries, Checked;
    RunOk(run, events, i);
    n := LinksEnd(run[i].committed.rows, r);
  }

  /** The committed history is only ever added to: rows stay, with what they assert, when they began and every attribute
      value; confidence never falls; an end and a state row's successor are final; citations and ledger lines stay. */
  lemma {:induction false} HistoryOnlyGrows(run: seq<State>, events: seq<Event>, i: nat, j: nat)
    requires IsRun(run, events) && i <= j < |run|
    ensures Grows(run[i].committed, run[j].committed)
    decreases j
  {
    hide WorldInv, Grows, IsRun, Next;
    if i == j {
      GrowsReflexive(run[i].committed);
    } else {
      HistoryOnlyGrows(run, events, i, j - 1);
      RunOk(run, events, j - 1);
      RunStep(run, events, j);
      GrowsTransitive(run[i].committed, run[j - 1].committed, run[j].committed);
    }
  }

  /** Each superseded state row ends exactly where its successor begins, and exactly one ledger line records the pair,
      with that same end. */
  lemma LedgerMatchesLinks(run: seq<State>, events: seq<Event>, i: nat, r: nat, s: nat)
    requires IsRun(run, events) && i < |run|
    requires var rows := run[i].committed.rows;
             r < |rows| && Supersedes(rows[r].key.kind) && rows[r].supersededBy == Some(s)
    ensures s < |run[i].committed.rows| && Pair(run[i].committed, r, s)
  {
    hide IsRun, TxOk, SweepsOk, ScansOk, Sound, Acyclic, LedgerInRange, CitesInRange, FaithfulSummaries, Pair, Checked;
    RunOk(run, events, i);
  }

  /** Every committed row cites an episode; every summary cites exactly what its members cite and carries exactly their
      common groups. */
  lemma EverythingIsCited(run: seq<State>, events: seq<Event>, i: nat)
    requires IsRun(run, events) && i < |run|
    ensures var db := run[i].committed;
            && (forall r :: 0 <= r < |db.rows| ==> Episodes(db, r) != {})
            && FaithfulSummaries(db)
  {
    hide IsRun, TxOk, SweepsOk, ScansOk, Sound, Acyclic, LedgerInRange, Paired, Checked;
    RunOk(run, events, i);
  }

  /** Whenever the consolidation job lists a key, and whenever it then reads its members, it finds only events. */
  lemma OnlyEventsConsolidate(run: seq<State>, events: seq<Event>, i: nat, j: nat, minSize: int, now: int, g: Group)
    requires IsRun(run, events) && i < |run| && j < |run|
    requires Finds(run[i].committed.rows, run[j].committed.rows, minSize, now, g)
    ensures g.key.kind == Kind.Event && forall k :: 0 <= k < |g.members| ==> g.members[k].row.key.kind == Kind.Event
  {
    hide IsRun, WorldInv, Finds;
    RunOk(run, events, i);
    InvParts(run[i]);
    GroupsAreEvents(run[i].committed.rows, run[j].committed.rows, minSize, now, g);
  }

  /** In every run, whoever can read a summary can read all that was folded into it exactly when each group common to
      the members is, once trimmed, still a group of every member. */
  lemma SummaryReaders(run: seq<State>, events: seq<Event>, i: nat, s: nat)
    requires IsRun(run, events) && i < |run|
    requires var db := run[i].committed;
             s < |db.rows| && db.rows[s].key.kind == Kind.Event && FoldedInto(db.ledger, s) != {}
    ensures var db := run[i].committed;
            var members := FoldedInto(db.ledger, s);
            (forall r :: r in members ==> r < |db.rows|) &&
            ((forall reader, r :: r in members && Sees(reader, db.rows[s].acl) ==> Sees(reader, db.rows[r].acl)) <==>
             (forall x :: OnAll(x, db.rows, members) && TrimSpace(x) != "" ==> OnAll(TrimSpace(x), db.rows, members)))
  {
    hide IsRun, TxOk, SweepsOk, ScansOk, Sound, Acyclic, Paired, CitesInRange, TrimSpace, Checked;
    RunOk(run, events, i);
    var db := run[i].committed;
    var members := FoldedInto(db.ledger, s);
    forall r | r in members ensures r < |db.rows| {
      var k :| 0 <= k < |db.ledger| && db.ledger[k].successor == Some(s) && db.ledger[k].row == r;
      assert LineInRange(db.rows, db.ledger[k]);
    }
    assert FaithfulSummary(db, s);
    ReadersOfCommon(db.rows[s].acl, db.rows, members);
  }

  lemma ReadersOfCommon(acl: seq<string>, rows: seq<Memory>, members: set<nat>)
    requires CommonGroups(acl, rows, members) && forall r :: r in members ==> r < |rows|
    ensures (forall reader, r :: r in members && Sees(reader, acl) ==> Sees(reader, rows[r].acl)) <==>
            (forall x :: OnAll(x, rows, members) && TrimSpace(x) != "" ==> OnAll(TrimSpace(x), rows, members))
  {
    hide TrimSpace;
    if forall x :: OnAll(x, rows, members) && TrimSpace(x) != "" ==> OnAll(TrimSpace(x), rows, members) {
      forall reader, r | r in members && Sees(reader, acl) ensures Sees(reader, rows[r].acl) {
        var g :| g in acl && g in reader;
      }
    } else {
      var x :| OnAll(x, rows, members) && TrimSpace(x) != "" && !OnAll(TrimSpace(x), rows, members);
      var r :| r in members && TrimSpace(x) !in rows[r].acl;
      assert TrimSpace(x) in acl;
      assert Sees({TrimSpace(x)}, acl) && !Sees({TrimSpace(x)}, rows[r].acl);
    }
  }

  /** However its statements interleave with other transactions and sweeps, a commit leaves exactly what Commit, run
      alone on the state committed just before, would leave: READ COMMITTED with these locks is serializable, in the
      order of the commits. */
  lemma CommitsAreSerial(run: seq<State>, events: seq<Event>, i: nat, t: nat)
    requires IsRun(run, events) && 0 < i < |run| && events[i] == Commit(t)
    requires t in run[i - 1].txs && t !in run[i].txs && run[i - 1].txs[t].job.Write?
    ensures var call := run[i - 1].txs[t].job.call;
            run[i].committed == Committing.Commit(run[i - 1].committed, call.ep, call.ps, call.rejected)
  {
    hide WorldInv, View, TxOk, Committing.Commit, Issued;
    RunOk(run, events, i - 1);
    InvParts(run[i - 1]);
    assert Stepped(run, events, i);
    assert Committable(run[i - 1], t);
    WriteIsSerial(run[i - 1].committed, run[i - 1].txs[t]);
  }

  /** A consolidation or deletion takes effect whole, on the state committed just before, whatever was committed while
      it was under way. */
  lemma SinglesAreSerial(run: seq<State>, events: seq<Event>, i: nat, t: nat)
    requires IsRun(run, events) && 0 < i < |run| && events[i] == Commit(t)
    requires t in run[i - 1].txs && t !in run[i].txs && run[i - 1].txs[t].job.Single?
    ensures var db := run[i - 1].committed;
            run[i].committed == Run(db, StmtsOf(db, run[i - 1].txs[t].job.op))
  {
    hide WorldInv, View, TxOk, Issued, StmtsOf, Run;
    RunOk(run, events, i - 1);
    InvParts(run[i - 1]);
    assert Stepped(run, events, i);
    assert Committable(run[i - 1], t);
    ViewAtEnd(run[i - 1].committed, run[i - 1].txs[t]);
    OneOp(run[i - 1].committed, run[i - 1].txs[t].job.op);
  }

  lemma OneOp(c: Db, op: Op)
    ensures RunOps(c, [op]) == Run(c, StmtsOf(c, op))
  {
    hide Run, StmtsOf;
    assert [op][..0] == [];
    assert RunOps(c, []) == c;
  }
}
