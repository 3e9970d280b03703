/** Decay sweeps in each other's way: when an archived row comes back to life, and when the unique index prevents it. */
module Revival {
  import opened Text
  import opened Records
  import opened Database
  import opened Maintaining
  import opened History
  import opened Sessions
  import opened World

  // ---- what a sweep scanned ----

  lemma {:induction false} SweptIsLive(rows: seq<Memory>, tenant: string, now: int, floor: real,
                                       factor: (Kind, int) -> real, n: nat, u: DecayWrite)
    requires n <= |rows| && u in Sweep(rows, tenant, now, floor, factor, n)
    ensures u.id < n && rows[u.id].Live() && rows[u.id].key.tenant == tenant
    ensures DecayOf(u.id, rows[u.id], now, floor, factor) == Some(u)
  {
    hide Decayed, Abs;
    if u in Sweep(rows, tenant, now, floor, factor, n - 1) {
      SweptIsLive(rows, tenant, now, floor, factor, n - 1, u);
    }
  }

  /** In step i a write of sweep s to row r goes through. */
  ghost predicate LandsOn(run: seq<State>, events: seq<Event>, i: nat, r: nat, s: nat) {
    0 < i < |run| == |events| && events[i] == WriteNext(s) && Lands(run[i - 1], s) && run[i - 1].sweeps[s][0].id == r
  }

  /** And archives the row. */
  ghost predicate ArchivesAt(run: seq<State>, events: seq<Event>, i: nat, r: nat, s: nat) {
    LandsOn(run, events, i, r, s) && run[i - 1].sweeps[s][0].archive
  }

  ghost predicate Untouched(run: seq<State>, events: seq<Event>, r: nat, i: nat, j: nat) {
    forall k: nat, p: nat :: i < k <= j ==> !LandsOn(run, events, k, r, p)
  }

  /** Of the decay writes to row r in the steps after a and up to j there are some, and the last one, by a sweep other
      than `besides`, archives it. */
  ghost predicate LastArchives(run: seq<State>, events: seq<Event>, r: nat, a: nat, j: nat, besides: Option<nat>) {
    exists i: nat, o: nat :: a < i <= j && Some(o) != besides && ArchivesAt(run, events, i, r, o) &&
      Untouched(run, events, r, i, j)
  }

  // ---- the archived flag ----

  lemma DecayFlag(db: Db, u: DecayWrite, r: nat)
    requires r < |db.rows| && u.id < |db.rows|
    ensures Apply(db, AsStmt(u)).rows[r].archived == if r == u.id then u.archive else db.rows[r].archived
  {
  }

  /** Only a decay write that goes through changes whether a row is archived. */
  lemma FlagAfter(w: State, e: Event, r: nat)
    requires WorldInv(w) && r < |w.committed.rows|
    ensures r < |Next(w, e).committed.rows|
    ensures Next(w, e).committed.rows[r].archived ==
            if e.WriteNext? && Lands(w, e.s) && w.sweeps[e.s][0].id == r then w.sweeps[e.s][0].archive
            else w.committed.rows[r].archived
  {
    hide WorldInv, Lands, Written, Committed, Next;
    InvParts(w);
    if e.WriteNext? {
      WriteFlag(w, e.s, r);
    } else if e.Commit? {
      CommitFlag(w, e.t, r);
    } else {
      SameCommitted(w, e);
    }
  }

  lemma WriteFlag(w: State, s: nat, r: nat)
    requires WorldInv(w) && r < |w.committed.rows|
    ensures Next(w, WriteNext(s)) == Written(w, s) && r < |Written(w, s).committed.rows|
    ensures Written(w, s).committed.rows[r].archived ==
            if Lands(w, s) && w.sweeps[s][0].id == r then w.sweeps[s][0].archive else w.committed.rows[r].archived
  {
    hide Inv, Checked, TxsOk, Apart, ScansOk, DecayWaits, Constraints, AsStmt, Apply;
    if Lands(w, s) {
      assert SweepOk(w.committed.rows, w.sweeps[s]);
      DecayFlag(w.committed, w.sweeps[s][0], r);
      DecayUpdatesOne(w.committed, w.sweeps[s][0]);
    }
  }

  lemma CommitFlag(w: State, t: nat, r: nat)
    requires WorldInv(w) && r < |w.committed.rows|
    ensures Next(w, Commit(t)) == Committed(w, t) && r < |Committed(w, t).committed.rows|
    ensures Committed(w, t).committed.rows[r].archived == w.committed.rows[r].archived
  {
    hide Inv, Checked, TxOk, ScansOk, SweepsOk, View, Issued;
    if Committable(w, t) {
      assert TxOk(w.committed, w.txs[t]);
      TxContained(w.committed, w.txs[t]);
    }
  }

  /** From an unarchived start, a row is archived exactly when the last decay write to it since then archives it. */
  lemma {:induction false} FlagTracks(run: seq<State>, events: seq<Event>, a: nat, k: nat, r: nat)
    requires IsRun(run, events) && a <= k < |run|
    requires r < |run[a].committed.rows| && !run[a].committed.rows[r].archived
    ensures r < |run[k].committed.rows|
    ensures run[k].committed.rows[r].archived <==> LastArchives(run, events, r, a, k, None)
    decreases k
  {
    hide WorldInv, Next, LandsOn, Lands, IsRun;
    if k > a {
      RunStarted(run, events);
      RunOk(run, events, k - 1);
      RunStep(run, events, k);
      FlagTracks(run, events, a, k - 1, r);
      FlagAfter(run[k - 1], events[k], r);
      LastArchivesStep(run, events, a, k, r);
    }
  }

  lemma RunStarted(run: seq<State>, events: seq<Event>)
    requires IsRun(run, events)
    ensures |run| == |events| > 0 && run[0] == START
  {
  }

  lemma LastArchivesStep(run: seq<State>, events: seq<Event>, a: nat, k: nat, r: nat)
    requires a < k < |run| == |events|
    ensures LastArchives(run, events, r, a, k, None) <==>
            if events[k].WriteNext? && Lands(run[k - 1], events[k].s) && run[k - 1].sweeps[events[k].s][0].id == r
            then run[k - 1].sweeps[events[k].s][0].archive
            else LastArchives(run, events, r, a, k - 1, None)
  {
    hide DecayWaits, Constraints, Apply;
    if events[k].WriteNext? && Lands(run[k - 1], events[k].s) && run[k - 1].sweeps[events[k].s][0].id == r {
      assert LandsOn(run, events, k, r, events[k].s);
      if run[k - 1].sweeps[events[k].s][0].archive {
        assert ArchivesAt(run, events, k, r, events[k].s) && Untouched(run, events, r, k, k);
      }
    } else {
      forall p: nat ensures !LandsOn(run, events, k, r, p) {
      }
      if LastArchives(run, events, r, a, k - 1, None) {
        var i: nat, o: nat :| a < i <= k - 1 && ArchivesAt(run, events, i, r, o) && Untouched(run, events, r, i, k - 1);
        assert Untouched(run, events, r, i, k);
      }
      if LastArchives(run, events, r, a, k, None) {
        var i: nat, o: nat :| a < i <= k && ArchivesAt(run, events, i, r, o) && Untouched(run, events, r, i, k);
        assert Untouched(run, events, r, i, k - 1);
      }
    }
  }

  // ---- a sweep from its scan on ----

  /** Sweep s has been in flight since it scanned in step a. */
  ghost predicate Since(run: seq<State>, events: seq<Event>, s: nat, a: nat, j: nat) {
    && 0 < a <= j < |run| == |events| && events[a].BeginSweep? && events[a].s == s && s !in run[a - 1].sweeps
    && forall k :: a <= k <= j ==> s in run[k].sweeps
  }

  lemma SweepBefore(w: State, e: Event, s: nat)
    requires s in Next(w, e).sweeps
    ensures if s in w.sweeps then
              Next(w, e).sweeps[s] == w.sweeps[s] ||
              (e == WriteNext(s) && Lands(w, s) && Next(w, e).sweeps[s] == w.sweeps[s][1..])
            else
              e.BeginSweep? && e.s == s && Next(w, e).committed == w.committed &&
              Next(w, e).sweeps[s] ==
              Sweep(w.committed.rows, e.tenant, e.now, Floor(e.floor), e.factor, |w.committed.rows|)
    ensures e == WriteNext(s) && Lands(w, s) ==>
              s in w.sweeps && w.sweeps[s] != [] && Next(w, e).sweeps[s] == w.sweeps[s][1..]
  {
    hide ConsolidatePlan, Deletion, Redecided, View, Issued, Apply, Constraints, Waits, Sweep, Counted, Reads, Further,
         FindLive, HeldByOther, Complete, Proposable, DecayWaits, WithSeen, ToLog;
  }

  /** A write still to come was decided on a row that was not archived when the sweep scanned it, and the sweep has
      not written to that row since. */
  lemma {:induction false} Pending(run: seq<State>, events: seq<Event>, k: nat, s: nat, u: DecayWrite) returns (a: nat)
    requires IsRun(run, events) && k < |run| && s in run[k].sweeps && u in run[k].sweeps[s]
    ensures Since(run, events, s, a, k)
    ensures u.id < |run[a].committed.rows| && !run[a].committed.rows[u.id].archived
    ensures forall i: nat :: a < i <= k ==> !LandsOn(run, events, i, u.id, s)
    decreases k
  {
    hide WorldInv, Next, IsRun, Lands, Sweep;
    RunStarted(run, events);
    if k == 0 {
      assert false;
    } else {
      RunOk(run, events, k - 1);
      RunStep(run, events, k);
      var w, e := run[k - 1], events[k];
      SweepBefore(w, e, s);
      if s in w.sweeps {
        a := Pending(run, events, k - 1, s, u);
        OtherRow(run, events, k, s, u);
      } else {
        a := k;
        SweptIsLive(w.committed.rows, e.tenant, e.now, Floor(e.floor), e.factor, |w.committed.rows|, u);
      }
    }
  }

  lemma OtherRow(run: seq<State>, events: seq<Event>, k: nat, s: nat, u: DecayWrite)
    requires 0 < k < |run| == |events| && WorldInv(run[k - 1]) && run[k] == Next(run[k - 1], events[k])
    requires s in run[k].sweeps && s in run[k - 1].sweeps && u in run[k].sweeps[s] && u in run[k - 1].sweeps[s]
    ensures !LandsOn(run, events, k, u.id, s)
  {
    hide Inv, Checked, TxsOk, Apart, ScansOk, Next, DecayWaits, Constraints, Apply;
    SweepBefore(run[k - 1], events[k], s);
    assert SweepOk(run[k - 1].committed.rows, run[k - 1].sweeps[s]);
    TailIds(run[k - 1].committed.rows, run[k - 1].sweeps[s]);
  }

  lemma TailIds(rows: seq<Memory>, sweep: seq<DecayWrite>)
    requires SweepOk(rows, sweep) && sweep != []
    ensures forall u :: u in sweep[1..] ==> u.id != sweep[0].id
  {
    forall u | u in sweep[1..] ensures u.id != sweep[0].id {
      var i :| 0 <= i < |sweep[1..]| && sweep[1..][i] == u;
      assert sweep[i + 1] == u;
    }
  }

  /** A decay write that goes through revives its row exactly when it does not archive and, of the writes that landed
      on the row since the sweep scanned it in step a, the last one is another sweep's and archives. */
  lemma RevivalIff(run: seq<State>, events: seq<Event>, j: nat, s: nat, r: nat) returns (a: nat)
    requires IsRun(run, events) && LandsOn(run, events, j, r, s)
    ensures Since(run, events, s, a, j - 1)
    ensures r < |run[j - 1].committed.rows| && r < |run[j].committed.rows|
    ensures run[j - 1].committed.rows[r].archived && !run[j].committed.rows[r].archived <==>
            !run[j - 1].sweeps[s][0].archive && LastArchives(run, events, r, a, j - 1, Some(s))
  {
    hide WorldInv, Next, IsRun, Lands, Since, Untouched;
    RunStarted(run, events);
    var u := FirstOf(run, events, j, s, r);
    a := Pending(run, events, j - 1, s, u);
    assert a <= j - 1 by { SinceBounds(run, events, s, a, j - 1); }
    FlagTracks(run, events, a, j - 1, r);
    RunOk(run, events, j - 1);
    RunStep(run, events, j);
    FlagAfter(run[j - 1], events[j], r);
    OthersArchived(run, events, a, j - 1, r, s);
  }

  lemma SinceBounds(run: seq<State>, events: seq<Event>, s: nat, a: nat, j: nat)
    requires Since(run, events, s, a, j)
    ensures 0 < a <= j < |run|
  {
  }

  lemma FirstOf(run: seq<State>, events: seq<Event>, j: nat, s: nat, r: nat) returns (u: DecayWrite)
    requires LandsOn(run, events, j, r, s)
    ensures s in run[j - 1].sweeps && run[j - 1].sweeps[s] != [] && u == run[j - 1].sweeps[s][0]
    ensures u in run[j - 1].sweeps[s] && u.id == r
  {
    u := run[j - 1].sweeps[s][0];
  }

  // ---- what the index prevents ----

  /** Some other row is live on the key. */
  ghost predicate AnotherLive(rows: seq<Memory>, key: Key, r: nat) {
    exists o: nat :: o != r && LiveOn(rows, o, key)
  }

  /** A write that does not have to wait is refused, and ends its sweep, exactly when it would revive its row while the
      key has another live one: that is all the schema prevents. */
  lemma WriteRefusedIff(w: State, s: nat)
    requires WorldInv(w) && s in w.sweeps && w.sweeps[s] != [] && !DecayWaits(w, w.sweeps[s][0])
    ensures w.sweeps[s][0].id < |w.committed.rows|
    ensures var rows, u := w.committed.rows, w.sweeps[s][0];
            s !in Written(w, s).sweeps <==>
            Revives(rows, u, rows[u.id].key) && AnotherLive(rows, rows[u.id].key, u.id)
  {
    hide Inv, TxsOk, Apart, ScansOk, DecayWaits, Constraints, AsStmt, Apply, Revives, AnotherLive, Checked;
    InvParts(w);
    var c, u := w.committed, w.sweeps[s][0];
    assert SweepOk(c.rows, w.sweeps[s]);
    DecayUpdatesOne(c, u);
    DecayBreaksIff(c.rows, u);
  }

  /** Over a run: such a write is refused exactly when it does not archive, its row is a state row still open, the last
      of the writes that landed on that row since the sweep scanned it in step a is another sweep's and archives, and
      the key has another live row by now. */
  lemma RevivalRefusedIff(run: seq<State>, events: seq<Event>, j: nat, s: nat) returns (a: nat)
    requires IsRun(run, events) && 0 < j < |run| && events[j] == WriteNext(s)
    requires s in run[j - 1].sweeps && run[j - 1].sweeps[s] != []
    requires !DecayWaits(run[j - 1], run[j - 1].sweeps[s][0])
    ensures Since(run, events, s, a, j - 1)
    ensures var rows, u := run[j - 1].committed.rows, run[j - 1].sweeps[s][0];
            && u.id < |rows|
            && (s !in run[j].sweeps <==>
                && !u.archive && rows[u.id].validTo.None? && Supersedes(rows[u.id].key.kind)
                && LastArchives(run, events, u.id, a, j - 1, Some(s))
                && AnotherLive(rows, rows[u.id].key, u.id))
  {
    hide WorldInv, Next, IsRun, Lands, Since, Untouched, Written, AnotherLive, DecayWaits;
    RunStarted(run, events);
    var w, u := run[j - 1], run[j - 1].sweeps[s][0];
    assert u in w.sweeps[s];
    a := Pending(run, events, j - 1, s, u);
    SinceBounds(run, events, s, a, j - 1);
    FlagTracks(run, events, a, j - 1, u.id);
    RunOk(run, events, j - 1);
    RunStep(run, events, j);
    WritesNext(w, s);
    WriteRefusedIff(w, s);
    OthersArchived(run, events, a, j - 1, u.id, s);
  }

  lemma WritesNext(w: State, s: nat)
    ensures Next(w, WriteNext(s)) == Written(w, s)
  {
  }

  /** The last write to land was not the sweep's own, which has not written to the row yet. */
  lemma OthersArchived(run: seq<State>, events: seq<Event>, a: nat, j: nat, r: nat, s: nat)
    requires |run| == |events| && forall i: nat :: a < i <= j ==> !LandsOn(run, events, i, r, s)
    ensures LastArchives(run, events, r, a, j, None) <==> LastArchives(run, events, r, a, j, Some(s))
  {
    hide LandsOn, Untouched;
    if LastArchives(run, events, r, a, j, None) {
      var i: nat, o: nat :| a < i <= j && ArchivesAt(run, events, i, r, o) && Untouched(run, events, r, i, j);
      assert o != s;
      assert Some(o) != Some(s);
    }
    if LastArchives(run, events, r, a, j, Some(s)) {
      var i: nat, o: nat :| a < i <= j && Some(o) != Some(s) && ArchivesAt(run, events, i, r, o) &&
        Untouched(run, events, r, i, j);
      assert Some(o) != None;
    }
  }

  lemma DecayBreaksIff(rows: seq<Memory>, u: DecayWrite)
    requires OneLive(rows) && Checked(rows) && u.id < |rows| && u.salience >= 0.0
    ensures var key := rows[u.id].key;
            !Constraints(rows[u.id := rows[u.id].(salience := u.salience, archived := u.archive)]) <==>
            Revives(rows, u, key) && AnotherLive(rows, key, u.id)
  {
    var key := rows[u.id].key;
    var rows' := rows[u.id := rows[u.id].(salience := u.salience, archived := u.archive)];
    forall i | 0 <= i < |rows'| ensures RowOk(rows'[i]) {
      assert RowOk(rows[i]);
    }
    hide RowOk;
    forall i, j | 0 <= i < j < |rows'| && rows'[i].Live() && rows'[j].Live() && rows'[i].key == rows'[j].key
      ensures Supersedes(rows'[i].key.kind) ==> Revives(rows, u, key) && AnotherLive(rows, key, u.id)
    {
      if Supersedes(rows'[i].key.kind) {
        var o := if i == u.id then j else i;
        assert rows'[o] == rows[o] || o == u.id;
        assert LiveOn(rows, o, rows'[o].key);
      }
    }
    if Revives(rows, u, key) && AnotherLive(rows, key, u.id) {
      var o: nat :| o != u.id && LiveOn(rows, o, key);
      assert rows'[o].Live() && rows'[u.id].Live();
    }
  }

  // ---- one sweep at a time ----

  /** When no two sweeps are ever in flight together, archiving is final. */
  lemma OneSweepNeverRevives(run: seq<State>, events: seq<Event>, j: nat, r: nat)
    requires IsRun(run, events) && 0 < j < |run| && r < |run[j - 1].committed.rows|
    requires forall k, s, o :: 0 <= k < |run| && s in run[k].sweeps && o in run[k].sweeps ==> s == o
    ensures r < |run[j].committed.rows|
    ensures run[j - 1].committed.rows[r].archived ==> run[j].committed.rows[r].archived
  {
    hide WorldInv, Next, IsRun, Lands, Untouched;
    RunStarted(run, events);
    RunOk(run, events, j - 1);
    RunStep(run, events, j);
    FlagAfter(run[j - 1], events[j], r);
    if events[j].WriteNext? && LandsOn(run, events, j, r, events[j].s) {
      var a := RevivalIff(run, events, j, events[j].s, r);
      if LastArchives(run, events, r, a, j - 1, Some(events[j].s)) {
        var i: nat, o: nat :| a < i <= j - 1 && o != events[j].s && ArchivesAt(run, events, i, r, o);
        TwoInFlight(run, events, events[j].s, a, j - 1, i, o, r);
        assert false;
      }
    }
  }

  lemma TwoInFlight(run: seq<State>, events: seq<Event>, s: nat, a: nat, j: nat, i: nat, o: nat, r: nat)
    requires Since(run, events, s, a, j) && a < i <= j && o != s && ArchivesAt(run, events, i, r, o)
    ensures exists k, p, q :: 0 <= k < |run| && p in run[k].sweeps && q in run[k].sweeps && p != q
  {
    hide Lands;
    var u := FirstOf(run, events, i, o, r);
    assert s in run[i - 1].sweeps && o in run[i - 1].sweeps;
  }
}
