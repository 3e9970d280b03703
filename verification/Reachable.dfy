/** What the world can come to: a commit goes through when nobody is in its way, so every serial history is reached;
    two commits that both look before either inserts collide on the index; two sweeps bring an archived row back. */
module Reachable {
  import opened Text
  import opened Records
  import opened Database
  import opened Committing
  import opened Timeline
  import opened Maintaining
  import opened Refusals
  import opened Sessions
  import opened World
  import opened Contention

  // ---- from events to runs ----

  ghost function Through(w: State, events: seq<Event>): State
    decreases |events|
  {
    if events == [] then w else Next(Through(w, events[..|events| - 1]), events[|events| - 1])
  }

  lemma {:induction false} ThroughAppend(w: State, a: seq<Event>, b: seq<Event>)
    ensures Through(w, a + b) == Through(Through(w, a), b)
    decreases |b|
  {
    hide Next;
    if b == [] {
      assert a + b == a;
    } else {
      assert (a + b)[..|a + b| - 1] == a + b[..|b| - 1];
      ThroughAppend(w, a, b[..|b| - 1]);
    }
  }

  lemma ThroughOne(w: State, e: Event, rest: seq<Event>)
    ensures Through(w, [e]) == Next(w, e) && Through(w, [e] + rest) == Through(Next(w, e), rest)
  {
    hide Next;
    assert [e][..0] == [];
    assert Through(w, []) == w;
    ThroughAppend(w, [e], rest);
  }

  /** The states along the events, from the start. */
  ghost function States(events: seq<Event>): (run: seq<State>)
    ensures |run| == |events| + 1 && forall i :: 0 <= i < |run| ==> run[i] == Through(START, events[..i])
  {
    seq(|events| + 1, i requires 0 <= i <= |events| => Through(START, events[..i]))
  }

  lemma StatesStep(events: seq<Event>, i: nat)
    requires 0 < i <= |events|
    ensures Through(START, events[..i]) == Next(Through(START, events[..i - 1]), events[i - 1])
  {
    hide Next;
    assert events[..i] == events[..i - 1] + [events[i - 1]];
  }

  lemma StatesEnds(events: seq<Event>)
    ensures States(events)[0] == START && States(events)[|events|] == Through(START, events)
  {
    assert events[..|events|] == events && events[..0] == [];
    assert Through(START, []) == START;
  }

  /** They are a run, and it ends where the events lead: whatever is reached through events is reached by a run. */
  lemma StatesRun(events: seq<Event>)
    ensures IsRun(States(events), [Rollback(0)] + events)
    ensures States(events)[|events|] == Through(START, events)
  {
    hide Next, Through;
    var run, all := States(events), [Rollback(0)] + events;
    StatesEnds(events);
    forall i | 0 < i < |run| ensures World.Stepped(run, all, i) {
      StatesStep(events, i);
    }
  }

  // ---- a commit nobody hinders ----

  /** No other transaction holds a lock. */
  predicate Unhindered(w: State, t: nat) {
    forall o :: o in w.txs && o != t ==> w.txs[o].locks == {}
  }

  lemma NothingToWaitFor(w: State, t: nat, rows: seq<Memory>, s: Stmt)
    requires Unhindered(w, t)
    ensures !Waits(w, t, rows, s)
  {
    hide View, LiveOn;
  }

  /** The commit is under way, waits for nothing, and what it found is still so. */
  ghost predicate InHand(w: State, t: nat, call: Call) {
    && WorldInv(w) && Unhindered(w, t)
    && t in w.txs && w.txs[t].job == Write(call) && w.txs[t].waiting.None?
    && (Blind(w.txs[t]) ==> !SomeLive(w.committed.rows, LastKey(w.txs[t])))
  }

  lemma ExecuteStep(w: State, t: nat, call: Call)
    requires InHand(w, t, call) && w.txs[t].at < |Issued(w.committed, w.txs[t])|
    ensures var w' := Next(w, Execute(t));
            && InHand(w', t, call) && w' == w.(txs := w.txs[t := w'.txs[t]])
            && w'.txs[t] == w.txs[t].(at := w.txs[t].at + 1, locks := w'.txs[t].locks)
  {
    hide WorldInv, Issued, View, Waits, Constraints, SomeLive, Taken;
    var s := NextStmt(w, t);
    NothingToWaitFor(w, t, View(w.committed, w.txs[t]).rows, s.value);
    CommitRefusedIff(w, t);
    StepOk(w, Execute(t));
  }

  lemma LookStep(w: State, t: nat, call: Call)
    requires InHand(w, t, call) && Complete(w.committed, w.txs[t])
    requires !w.txs[t].logging && |w.txs[t].seen| < |call.ps|
    ensures var w' := Next(w, Look(t));
            && InHand(w', t, call) && w' == w.(txs := w.txs[t := w'.txs[t]])
            && |w'.txs[t].seen| == |w.txs[t].seen| + 1 && w'.txs[t].logging == w.txs[t].logging
  {
    hide WorldInv, Issued, View, SomeLive, Blind, FindLive;
    StepOk(w, Look(t));
    assert Next(w, Look(t)) == Looked(w, t);
    var w' := Looked(w, t);
    assert |w'.txs[t].seen| == |w.txs[t].seen| + 1;
    if Blind(w'.txs[t]) {
      LookedBlind(w, t);
    }
  }

  lemma ConcludeStep(w: State, t: nat, call: Call)
    requires InHand(w, t, call) && Concludable(w, t)
    ensures var w' := Next(w, Conclude(t));
            InHand(w', t, call) && w' == w.(txs := w.txs[t := ToLog(w.txs[t])]) && w'.txs[t].logging
  {
    hide WorldInv, Issued, SomeLive;
    StepOk(w, Conclude(t));
    LogIsNext(w.txs[t]);
  }

  lemma CommitStep(w: State, t: nat, call: Call)
    requires InHand(w, t, call) && Complete(w.committed, w.txs[t]) && w.txs[t].logging
    ensures Next(w, Event.Commit(t)) ==
            Without(w, t).(committed := Committing.Commit(w.committed, call.ep, call.ps, call.rejected))
  {
    hide WorldInv, Issued, View, TxOk, SomeLive, Committing.Commit;
    InvParts(w);
    TxIn(w, t);
    WriteIsSerial(w.committed, w.txs[t]);
  }

  lemma StatementsLeft(w: State, t: nat, call: Call)
    requires InHand(w, t, call)
    ensures w.txs[t].at <= |Issued(w.committed, w.txs[t])| && |w.txs[t].seen| <= |call.ps|
    ensures w.txs[t].logging ==> |w.txs[t].seen| == |call.ps|
  {
    hide Issued, SomeLive, OpsReady, OpReady, LocksOk, AllGuarded;
    InvParts(w);
    TxIn(w, t);
  }

  lemma IssuedSame(c: Db, t: Tx, t': Tx)
    requires t' == t.(at := t'.at, locks := t'.locks)
    ensures Issued(c, t') == Issued(c, t)
  {
    hide StmtsOf, RunOps;
    SameOps(t, t');
  }

  lemma {:induction false} Finishes(w: State, t: nat, call: Call) returns (events: seq<Event>)
    requires InHand(w, t, call)
    ensures Through(w, events) ==
            Without(w, t).(committed := Committing.Commit(w.committed, call.ep, call.ps, call.rejected))
    decreases |call.ps| - |w.txs[t].seen|, if w.txs[t].logging then 0 else 1,
              |Issued(w.committed, w.txs[t])| - w.txs[t].at
  {
    hide InHand, Issued, Next, Committing.Commit, Through;
    StatementsLeft(w, t, call);
    InHandTx(w, t, call);
    var tx := w.txs[t];
    var e;
    if tx.at < |Issued(w.committed, tx)| {
      e := Execute(t);
      ExecuteStep(w, t, call);
      IssuedSame(w.committed, tx, Next(w, e).txs[t]);
    } else if tx.logging {
      CommitStep(w, t, call);
      ThroughOne(w, Event.Commit(t), []);
      return [Event.Commit(t)];
    } else if |tx.seen| < |call.ps| {
      e := Look(t);
      LookStep(w, t, call);
      StatementsLeft(Next(w, e), t, call);
    } else {
      e := Conclude(t);
      ConcludeStep(w, t, call);
    }
    var rest := Finishes(Next(w, e), t, call);
    ThroughOne(w, e, rest);
    WithoutEither(w, Next(w, e), t);
    events := [e] + rest;
  }

  lemma InHandTx(w: State, t: nat, call: Call)
    requires InHand(w, t, call)
    ensures t in w.txs && w.txs[t].job == Write(call) && w.txs[t].waiting.None?
  {
  }

  lemma WithoutEither(w: State, w': State, t: nat)
    requires t in w.txs && t in w'.txs && w' == w.(txs := w.txs[t := w'.txs[t]])
    ensures Without(w', t) == Without(w, t)
  {
    assert Without(w', t).txs == Without(w, t).txs;
  }

  /** A commit of proposals in range goes through, whatever they are and whatever is current, when no other transaction
      holds a lock: no statement of it has to wait and none is refused. */
  lemma GoesThrough(w: State, t: nat, call: Call) returns (events: seq<Event>)
    requires WorldInv(w) && t !in w.txs && Unhindered(w, t) && Proposable(call)
    ensures Through(w, events) ==
            w.(committed := Committing.Commit(w.committed, call.ep, call.ps, call.rejected))
  {
    hide WorldInv, Next, Committing.Commit, Through, SomeLive;
    var e := BeginCommit(t, call);
    StepOk(w, e);
    Begins(w, t, call);
    var rest := Finishes(Next(w, e), t, call);
    ThroughOne(w, e, rest);
    events := [e] + rest;
  }

  lemma Begins(w: State, t: nat, call: Call)
    requires t !in w.txs && Proposable(call)
    ensures var w' := Next(w, BeginCommit(t, call));
            && w' == w.(txs := w.txs[t := Tx(Write(call), [], false, 0, None, {})])
            && !Blind(w'.txs[t]) && Without(w', t) == w
  {
    assert Without(Next(w, BeginCommit(t, call)), t).txs == w.txs;
  }

  /** Every serial history of commits can be reached. */
  lemma {:induction false} SerialIsReached(calls: seq<Call>) returns (events: seq<Event>)
    requires forall c :: c in calls ==> Proposable(c)
    ensures Through(START, events) == START.(committed := After(EMPTY, calls))
    decreases |calls|
  {
    hide Next, Committing.Commit, Proposable;
    events := [];
    if calls != [] {
      var init, c := calls[..|calls| - 1], calls[|calls| - 1];
      events := SerialIsReached(init);
      ThroughKeepsInv(events);
      var more := GoesThrough(Through(START, events), 0, c);
      ThroughAppend(START, events, more);
      events := events + more;
    }
  }

  lemma {:induction false} ThroughKeepsInv(events: seq<Event>)
    ensures WorldInv(Through(START, events))
    decreases |events|
  {
    hide Next, WorldInv;
    if events == [] {
      StartOk();
    } else {
      ThroughKeepsInv(events[..|events| - 1]);
      StepOk(Through(START, events[..|events| - 1]), events[|events| - 1]);
    }
  }

  // ---- two commits that look before either inserts ----

  /** The transaction b has looked for the current row of its first proposal, in an empty store. */
  function Looking(b: Call): State {
    START.(txs := map[1 := Tx(Write(b), [None], false, 0, None, {})])
  }

  lemma SavesFirst(b: Call)
    ensures var tx := Tx(Write(b), [], false, 0, None, {});
            var w := START.(txs := map[1 := tx]);
            && Issued(EMPTY, tx) == [SaveEpisode(b.ep)] && View(EMPTY, tx) == EMPTY
            && Next(w, Execute(1)) == START.(txs := map[1 := tx.(at := 1)])
  {
    var tx := Tx(Write(b), [], false, 0, None, {});
    var w := START.(txs := map[1 := tx]);
    assert OpsOf(tx) == [Save(b.ep)] && Earlier(tx) == [];
    assert Issued(EMPTY, tx) == [SaveEpisode(b.ep)];
    assert View(EMPTY, tx) == Run(EMPTY, []) == EMPTY;
    NothingToWaitFor(w, 1, EMPTY.rows, SaveEpisode(b.ep));
    assert Taken(EMPTY, SaveEpisode(b.ep)) == {};
    hide Waits;
    assert Next(w, Execute(1)) == w.(txs := w.txs[1 := Further(EMPTY, tx, SaveEpisode(b.ep))]);
  }

  lemma ViewSaved(b: Call)
    ensures var tx := Tx(Write(b), [], false, 1, None, {});
            |Issued(EMPTY, tx)| == 1 && View(EMPTY, tx) == Apply(EMPTY, SaveEpisode(b.ep))
  {
    var tx, s := Tx(Write(b), [], false, 1, None, {}), SaveEpisode(b.ep);
    SavesFirst(b);
    SameOps(tx.(at := 0), tx);
    assert Base(EMPTY, tx) == EMPTY by { OpsNone(EMPTY); }
    assert Take([s], 1) == [s];
    hide Base, Issued;
    OneLeft(0, EMPTY, s);
  }

  lemma FindsNothing(b: Call)
    requires b.ps != [] && Supersedes(b.ps[0].draft.key.kind)
    ensures var tx := Tx(Write(b), [], false, 1, None, {});
            Next(START.(txs := map[1 := tx]), Look(1)) == Looking(b)
  {
    hide View, Issued;
    var tx := Tx(Write(b), [], false, 1, None, {});
    ViewSaved(b);
    assert View(EMPTY, tx).rows == [];
    assert FindLive([], b.ps[0].draft.key).None?;
    hide FindLive;
    assert WithSeen(tx, None, {}) == Tx(Write(b), [None], false, 0, None, {});
    assert Next(START.(txs := map[1 := tx]), Look(1)).txs == map[1 := WithSeen(tx, None, {})];
  }

  lemma LooksFirst(b: Call)
    requires Proposable(b) && b.ps != [] && Supersedes(b.ps[0].draft.key.kind)
    ensures Through(START, [BeginCommit(1, b), Execute(1), Look(1)]) == Looking(b)
  {
    hide Proposable, Through;
    var tx := Tx(Write(b), [], false, 0, None, {});
    SavesFirst(b);
    FindsNothing(b);
    assert Next(START, BeginCommit(1, b)) == START.(txs := map[1 := tx]);
    hide Next;
    ThroughOne(START, BeginCommit(1, b), [Execute(1), Look(1)]);
    ThroughOne(START.(txs := map[1 := tx]), Execute(1), [Look(1)]);
    ThroughOne(START.(txs := map[1 := tx.(at := 1)]), Look(1), []);
    assert [BeginCommit(1, b)] + [Execute(1), Look(1)] == [BeginCommit(1, b), Execute(1), Look(1)];
    assert [Execute(1)] + [Look(1)] == [Execute(1), Look(1)];
  }

  /** Any commit of one memory on a superseding key, and any commit that begins with a proposal on that key: when the
      second looks first and inserts last, it is refused and leaves nothing. */
  lemma CommitsCollide(a: Call, b: Call, p: Proposal) returns (events: seq<Event>)
    requires Proposable(a) && Proposable(b) && a.ps == [p] && b.ps != []
    requires b.ps[0].draft.key == p.draft.key && Supersedes(p.draft.key.kind)
    ensures var w, c := Through(START, events), Committing.Commit(EMPTY, a.ep, [p], a.rejected);
            && w.committed == c && 1 in w.txs && w.txs[1].job == Write(b)
            && NextStmt(w, 1).Some? && NextStmt(w, 1).value.InsertRow?
            && Next(w, Execute(1)) == START.(committed := c)
  {
    hide Next, Committing.Commit, Through, WorldInv, Stored, View, Issued, Waits, Constraints;
    LooksFirst(b);
    var first := [BeginCommit(1, b), Execute(1), Look(1)];
    ThroughKeepsInv(first);
    var rest := GoesThrough(Looking(b), 0, a);
    events := first + rest;
    ThroughAppend(START, first, rest);
    ThroughKeepsInv(events);
    OneMemory(a.ep, p, a.rejected);
    Collides(Through(START, events), b, p);
    assert Without(Through(START, events), 1).txs == START.txs;
  }

  lemma Collides(w: State, b: Call, p: Proposal)
    requires WorldInv(w) && w.txs == Looking(b).txs && b.ps != [] && b.ps[0].draft.key == p.draft.key
    requires Supersedes(p.draft.key.kind) && w.committed.rows == [Stored(p.draft, None, None)]
    ensures NextStmt(w, 1).Some? && NextStmt(w, 1).value.InsertRow? && Next(w, Execute(1)) == Without(w, 1)
  {
    hide WorldInv, View, Issued, Waits, Constraints, TxOk, WithSeen, Stored, SomeLive;
    var tx := w.txs[1];
    SeenIsNext(tx.(seen := []), None, {});
    SeenOnce(tx);
    InvParts(w);
    TxIn(w, 1);
    BlindInserts(w.committed, tx);
    BlindIsIssued(w.committed, tx);
    NothingToWaitFor(w, 1, View(w.committed, tx).rows, NextStmt(w, 1).value);
    StoredIsLive(w.committed.rows, p.draft);
    hide Blind;
    CommitRefusedIff(w, 1);
  }

  lemma SeenOnce(tx: Tx)
    requires tx.seen == [None] && tx.at == 0 && tx.waiting.None? && tx.locks == {}
    ensures tx == WithSeen(tx.(seen := []), None, {})
  {
  }

  lemma StoredIsLive(rows: seq<Memory>, d: Draft)
    requires rows == [Stored(d, None, None)]
    ensures SomeLive(rows, d.key)
  {
    assert LiveOn(rows, 0, d.key);
  }

  lemma BlindIsIssued(c: Db, t: Tx)
    requires Blind(t)
    ensures |Issued(c, t)| > 0
  {
    hide Base;
    LengthIs(Base(c, t), Last(t));
  }

  // ---- two sweeps ----

  /** A row of an empty store's first commit, as two sweeps find it: at now1 its salience has decayed, but not below the
      floor, at now2 it is below. */
  ghost predicate FallsBetween(m: Memory, now1: int, now2: int, floor: real, factor: (Kind, int) -> real) {
    && Fades(factor) && m.Live() && !Protected(m.key.kind) && m.lastSeen < now1 && m.lastSeen < now2
    && 0.0 <= Decayed(m, now2, factor) < Floor(floor) <= Decayed(m, now1, factor)
    && Decayed(m, now1, factor) <= m.salience - 0.001 && Decayed(m, now2, factor) <= m.salience - 0.001
  }

  lemma SweepsOne(m: Memory, tenant: string, now: int, floor: real, factor: (Kind, int) -> real)
    requires m.Live() && m.key.tenant == tenant && m.lastSeen < now && !Protected(m.key.kind)
    requires 0.0 <= Decayed(m, now, factor) <= m.salience - 0.001
    ensures Sweep([m], tenant, now, floor, factor, 1) ==
            [DecayWrite(0, Decayed(m, now, factor), Decayed(m, now, factor) < floor)]
  {
    hide Decayed;
    assert Sweep([m], tenant, now, floor, factor, 0) == [];
  }

  /** Two sweeps under way: the first decided to keep the row, the second to archive it. */
  lemma TwoSweepsBegun(c: Call, p: Proposal, now1: int, now2: int, floor: real, factor: (Kind, int) -> real)
    returns (events: seq<Event>, u1: DecayWrite, u2: DecayWrite)
    requires Proposable(c) && c.ps == [p] && FallsBetween(Stored(p.draft, None, None), now1, now2, floor, factor)
    ensures var db := Committing.Commit(EMPTY, c.ep, c.ps, c.rejected);
            && Through(START, events) == START.(committed := db, sweeps := map[0 := [u1], 1 := [u2]])
            && db.rows == [Stored(p.draft, None, None)] && RowOk(db.rows[0])
    ensures u1.id == 0 && u2.id == 0 && !u1.archive && u2.archive && u1.salience >= 0.0 && u2.salience >= 0.0
  {
    hide Next, Committing.Commit, Through, WorldInv, Stored, Decayed, Sweep;
    var m, tenant := Stored(p.draft, None, None), p.draft.key.tenant;
    var first := GoesThrough(START, 0, c) by { StartOk(); }
    var db := Committing.Commit(EMPTY, c.ep, c.ps, c.rejected);
    OneMemory(c.ep, p, c.rejected);
    KeyStored(p.draft);
    SweepsOne(m, tenant, now1, Floor(floor), factor);
    SweepsOne(m, tenant, now2, Floor(floor), factor);
    var sweeps := [BeginSweep(0, tenant, now1, floor, factor), BeginSweep(1, tenant, now2, floor, factor)];
    u1, u2 := DecayWrite(0, Decayed(m, now1, factor), false), DecayWrite(0, Decayed(m, now2, factor), true);
    TwoSweeps(db, m, tenant, now1, now2, floor, factor, u1, u2);
    events := first + sweeps;
    ThroughAppend(START, first, sweeps);
    ThroughOne(START.(committed := db), sweeps[0], sweeps[1..]);
    ThroughOne(Next(START.(committed := db), sweeps[0]), sweeps[1], []);
    assert sweeps == [sweeps[0]] + sweeps[1..] && sweeps[1..] == [sweeps[1]];
    assert RowOk(m) by { StoredPasses(p.draft); assert p in c.ps; }
  }

  /** A sweep that scanned before the row fell below the floor, and writes after one that scanned later and archived it,
      brings the row back: for any commit of one memory, and any decay that carries it across the floor between the two
      scans. */
  lemma SweepsRevive(c: Call, p: Proposal, now1: int, now2: int, floor: real, factor: (Kind, int) -> real)
    returns (events: seq<Event>)
    requires Proposable(c) && c.ps == [p] && FallsBetween(Stored(p.draft, None, None), now1, now2, floor, factor)
    ensures var w1 := Through(START, events);
            var w2 := Next(w1, WriteNext(1));
            var w3 := Next(w2, WriteNext(0));
            && |w1.committed.rows| == |w2.committed.rows| == |w3.committed.rows| == 1
            && w1.committed.rows[0].Live() && w2.committed.rows[0].archived && w3.committed.rows[0].Live()
  {
    hide Next, Committing.Commit, Through, Decayed, Proposable;
    var u1, u2;
    events, u1, u2 := TwoSweepsBegun(c, p, now1, now2, floor, factor);
    WritesOne(Committing.Commit(EMPTY, c.ep, c.ps, c.rejected), Stored(p.draft, None, None), u1, u2);
  }

  lemma KeyStored(d: Draft)
    ensures Stored(d, None, None).key == d.key
  {
  }

  lemma TwoSweeps(db: Db, m: Memory, tenant: string, now1: int, now2: int, floor: real, factor: (Kind, int) -> real,
                  u1: DecayWrite, u2: DecayWrite)
    requires db.rows == [m] && Fades(factor)
    requires Sweep([m], tenant, now1, Floor(floor), factor, 1) == [u1]
    requires Sweep([m], tenant, now2, Floor(floor), factor, 1) == [u2]
    ensures var w := START.(committed := db);
            Next(Next(w, BeginSweep(0, tenant, now1, floor, factor)), BeginSweep(1, tenant, now2, floor, factor)) ==
            w.(sweeps := map[0 := [u1], 1 := [u2]])
  {
    hide Sweep, Fades;
    var w := START.(committed := db);
    assert Next(w, BeginSweep(0, tenant, now1, floor, factor)) == w.(sweeps := map[0 := [u1]]);
  }

  lemma WritesOne(db: Db, m: Memory, u1: DecayWrite, u2: DecayWrite)
    requires db.rows == [m] && m.Live() && RowOk(m) && u1.id == 0 && u2.id == 0 && !u1.archive && u2.archive
    requires u1.salience >= 0.0 && u2.salience >= 0.0
    ensures var w1 := START.(committed := db, sweeps := map[0 := [u1], 1 := [u2]]);
            var w2 := Next(w1, WriteNext(1));
            var w3 := Next(w2, WriteNext(0));
            && w2.committed.rows == [m.(salience := u2.salience, archived := true)]
            && w3.committed.rows == [m.(salience := u1.salience, archived := false)]
  {
    var w1 := START.(committed := db, sweeps := map[0 := [u1], 1 := [u2]]);
    var w2 := Next(w1, WriteNext(1));
    DecayUpdatesOne(db, u2);
    OneWrite(w1, 1, u2);
    DecayUpdatesOne(w2.committed, u1);
    OneWrite(w2, 0, u1);
  }

  /** With one row and no transaction in flight a decay write neither waits nor breaks the index. */
  lemma OneWrite(w: State, s: nat, u: DecayWrite)
    requires |w.committed.rows| == 1 && RowOk(w.committed.rows[0]) && w.txs == map[] && u.id == 0 && u.salience >= 0.0
    requires s in w.sweeps && w.sweeps[s] == [u]
    ensures Next(w, WriteNext(s)).committed == Apply(w.committed, AsStmt(u))
    ensures Next(w, WriteNext(s)).sweeps == w.sweeps[s := []] && Next(w, WriteNext(s)).txs == w.txs
  {
    DecayUpdatesOne(w.committed, u);
    assert !DecayWaits(w, u);
    hide DecayWaits, AsStmt;
    assert [u][1..] == [];
    hide Apply;
    assert Constraints(Apply(w.committed, AsStmt(u)).rows);
  }
}
