/** What a run of Commits makes of one supersession key: coverage of world time, as-of answers against a plain log,
    and order independence. */
module Timeline {
  import opened Text
  import opened Records
  import opened Database
  import opened Committing

  /** One call of Commit. */
  datatype Call = Call(ep: Episode, ps: seq<Proposal>, rejected: nat)

  /** One proposal on its way through commitOne. */
  datatype Arrival = Arrival(ep: Episode, p: Proposal)

  function After(db: Db, calls: seq<Call>): Db
    decreases |calls|
  {
    if calls == [] then db
    else
      var c := calls[|calls| - 1];
      Commit(After(db, calls[..|calls| - 1]), c.ep, c.ps, c.rejected)
  }

  function ArrivalsOf(ep: Episode, ps: seq<Proposal>): seq<Arrival> {
    seq(|ps|, i requires 0 <= i < |ps| => Arrival(ep, ps[i]))
  }

  /** All proposals of a run, in the order they are committed. */
  function Arrivals(calls: seq<Call>): seq<Arrival> {
    if calls == [] then []
    else
      var c := calls[|calls| - 1];
      Arrivals(calls[..|calls| - 1]) + ArrivalsOf(c.ep, c.ps)
  }

  // ---- the rows alone ----

  function OnlyRows(rows: seq<Memory>): Db {
    Db(rows, map[], [], map[], map[])
  }

  function CommitRows(rows: seq<Memory>, a: Arrival): seq<Memory> {
    CommitOne(OnlyRows(rows), a.ep, a.p).rows
  }

  function Replay(rows: seq<Memory>, arrivals: seq<Arrival>): seq<Memory>
    decreases |arrivals|
  {
    if arrivals == [] then rows
    else CommitRows(Replay(rows, arrivals[..|arrivals| - 1]), arrivals[|arrivals| - 1])
  }

  /** commitOne looks at no other table. */
  lemma RowsSuffice(db: Db, ep: Episode, p: Proposal)
    ensures CommitOne(db, ep, p).rows == CommitRows(db.rows, Arrival(ep, p))
    ensures PlanFor(db, ep, p) == PlanFor(OnlyRows(db.rows), ep, p)
  {
    hide IsRestatement, FindLive;
    var other := OnlyRows(db.rows);
    match PlanFor(db, ep, p).outcome
    case Created => CreateShape(db, ep, p); CreateShape(other, ep, p);
    case Reinforced => ReinforceShape(db, ep, p); ReinforceShape(other, ep, p);
    case Backfill => BackfillShape(db, ep, p); BackfillShape(other, ep, p);
    case Superseding => SupersedeShape(db, ep, p); SupersedeShape(other, ep, p);
  }

  lemma {:induction false} ReplayAppend(rows: seq<Memory>, a: seq<Arrival>, b: seq<Arrival>)
    ensures Replay(rows, a + b) == Replay(Replay(rows, a), b)
    decreases |b|
  {
    hide CommitRows;
    if b == [] {
      assert a + b == a;
    } else {
      assert (a + b)[..|a + b| - 1] == a + b[..|b| - 1];
      ReplayAppend(rows, a, b[..|b| - 1]);
    }
  }

  lemma ReplayNone(rows: seq<Memory>)
    ensures Replay(rows, []) == rows
  {
  }

  lemma ReplayOne(rows: seq<Memory>, a: Arrival)
    ensures Replay(rows, [a]) == CommitRows(rows, a)
  {
    hide CommitRows;
    assert [a][..0] == [];
  }

  lemma {:induction false} CommitAllReplays(db: Db, ep: Episode, ps: seq<Proposal>)
    ensures CommitAll(db, ep, ps).rows == Replay(db.rows, ArrivalsOf(ep, ps))
    decreases |ps|
  {
    hide CommitRows, CommitOne, Replay, PlanFor;
    if ps == [] {
      ReplayNone(db.rows);
    } else {
      RowsSuffice(db, ep, ps[0]);
      CommitAllReplays(CommitOne(db, ep, ps[0]), ep, ps[1..]);
      var first := [Arrival(ep, ps[0])];
      assert ArrivalsOf(ep, ps) == first + ArrivalsOf(ep, ps[1..]);
      ReplayAppend(db.rows, first, ArrivalsOf(ep, ps[1..]));
      ReplayOne(db.rows, first[0]);
    }
  }

  lemma CommitReplays(db: Db, c: Call)
    ensures Commit(db, c.ep, c.ps, c.rejected).rows == Replay(db.rows, ArrivalsOf(c.ep, c.ps))
  {
    hide CommitAll, Replay;
    CommitAllReplays(Apply(db, SaveEpisode(c.ep)), c.ep, c.ps);
  }

  /** A run of Commits is a replay of its arrivals. */
  lemma {:induction false} RunReplays(db: Db, calls: seq<Call>)
    ensures After(db, calls).rows == Replay(db.rows, Arrivals(calls))
    decreases |calls|
  {
    hide Commit, CommitRows;
    if calls != [] {
      var init, c := calls[..|calls| - 1], calls[|calls| - 1];
      RunReplays(db, init);
      CommitReplays(After(db, init), c);
      ReplayAppend(db.rows, Arrivals(init), ArrivalsOf(c.ep, c.ps));
    }
  }

  /** How commitOne changes the rows, by outcome. */
  ghost predicate Stepped(rows: seq<Memory>, a: Arrival, rows': seq<Memory>) {
    var d, live := a.p.draft, FindLive(rows, a.p.draft.key);
    match PlanFor(OnlyRows(rows), a.ep, a.p).outcome
    case Created => (Supersedes(d.key.kind) ==> live.None?) && rows' == rows + [Stored(d, None, None)]
    case Reinforced =>
      Supersedes(d.key.kind) && live.Some? && IsRestatement(rows[live.value], d) &&
      rows' == rows[live.value := ReinforcedRow(rows[live.value], d, a.ep)]
    case Backfill =>
      Supersedes(d.key.kind) && live.Some? && !IsRestatement(rows[live.value], d) &&
      d.validFrom < rows[live.value].validFrom &&
      rows' == rows + [Stored(d, Some(rows[live.value].validFrom), live)]
    case Superseding =>
      Supersedes(d.key.kind) && live.Some? && !IsRestatement(rows[live.value], d) &&
      rows[live.value].validFrom <= d.validFrom &&
      rows' == rows[live.value := rows[live.value].(validTo := Some(d.validFrom), supersededBy := Some(|rows|))] +
               [Stored(d, None, None)]
  }

  lemma CommitRowsSteps(rows: seq<Memory>, a: Arrival)
    ensures Stepped(rows, a, CommitRows(rows, a))
  {
    hide IsRestatement, FindLive;
    var db := OnlyRows(rows);
    match PlanFor(db, a.ep, a.p).outcome
    case Created => CreateShape(db, a.ep, a.p);
    case Reinforced => ReinforceShape(db, a.ep, a.p);
    case Backfill => BackfillShape(db, a.ep, a.p);
    case Superseding => SupersedeShape(db, a.ep, a.p);
  }

  // ---- coverage ----

  ghost predicate Known(rows: seq<Memory>, key: Key, i: int) {
    0 <= i < |rows| && rows[i].key == key
  }

  /** Some row of the key was valid at t. */
  ghost predicate HeldAt(rows: seq<Memory>, key: Key, t: int) {
    exists i :: Known(rows, key, i) && rows[i].CurrentAt(t)
  }

  /** Some row of the key starts at or before t. */
  ghost predicate StartedBy(rows: seq<Memory>, key: Key, t: int) {
    exists i :: Known(rows, key, i) && rows[i].validFrom <= t
  }

  /** c is the only open row of the key, and every other row ended no later than c began. */
  ghost predicate CurrentRow(rows: seq<Memory>, key: Key, c: int) {
    && Known(rows, key, c) && rows[c].validTo.None?
    && forall i :: Known(rows, key, i) && i != c ==>
         rows[i].validTo.Some? && rows[i].validTo.value <= rows[c].validFrom
  }

  ghost predicate Covered(rows: seq<Memory>, key: Key) {
    && (forall i :: Known(rows, key, i) ==> !rows[i].archived)
    && (forall i :: Known(rows, key, i) ==> exists c :: CurrentRow(rows, key, c))
    && (forall t :: StartedBy(rows, key, t) ==> HeldAt(rows, key, t))
  }

  lemma LiveIsCurrent(rows: seq<Memory>, key: Key, c: int)
    requires Covered(rows, key) && CurrentRow(rows, key, c)
    ensures FindLive(rows, key) == Some(c)
  {
    FindLiveFromMisses(rows, key, 0, c);
  }

  lemma NoneLiveMeansUnknown(rows: seq<Memory>, key: Key)
    requires Covered(rows, key) && FindLive(rows, key).None?
    ensures forall i :: !Known(rows, key, i)
  {
    forall i | Known(rows, key, i) ensures false {
      var c :| CurrentRow(rows, key, c);
      LiveIsCurrent(rows, key, c);
    }
  }

  /** Rows of the key are the same in both, up to appended rows of other keys. */
  ghost predicate SameOnKey(rows: seq<Memory>, rows': seq<Memory>, key: Key) {
    && |rows| <= |rows'|
    && (forall i :: 0 <= i < |rows| && (rows[i].key == key || rows'[i].key == key) ==> rows'[i] == rows[i])
    && (forall i :: |rows| <= i < |rows'| ==> rows'[i].key != key)
  }

  lemma SameOnKeyCovered(rows: seq<Memory>, rows': seq<Memory>, key: Key)
    requires Covered(rows, key) && SameOnKey(rows, rows', key)
    ensures Covered(rows', key)
  {
    assert forall i :: Known(rows, key, i) <==> Known(rows', key, i);
    assert forall i :: Known(rows', key, i) ==> rows'[i] == rows[i];
    forall c | CurrentRow(rows, key, c) ensures CurrentRow(rows', key, c) {
    }
    forall t | StartedBy(rows', key, t) ensures HeldAt(rows', key, t) {
      var i :| Known(rows', key, i) && rows'[i].validFrom <= t;
      assert Known(rows, key, i);
      assert HeldAt(rows, key, t);
      var j :| Known(rows, key, j) && rows[j].CurrentAt(t);
      assert Known(rows', key, j);
    }
  }

  /** One commitOne, on this key or another, keeps a superseding key covered. */
  lemma StepKeepsCovered(rows: seq<Memory>, a: Arrival, key: Key)
    requires Supersedes(key.kind) && Covered(rows, key)
    ensures Covered(CommitRows(rows, a), key)
  {
    hide IsRestatement, FindLive, PlanFor, CommitRows;
    var rows' := CommitRows(rows, a);
    CommitRowsSteps(rows, a);
    if a.p.draft.key != key {
      assert SameOnKey(rows, rows', key) by { hide CurrentRow, Covered, HeldAt; }
      SameOnKeyCovered(rows, rows', key);
    } else if FindLive(rows, key).None? {
      NoneLiveMeansUnknown(rows, key);
      FirstRowCovers(rows, rows', key);
    } else {
      assert Known(rows, key, FindLive(rows, key).value);
      var c :| CurrentRow(rows, key, c);
      LiveIsCurrent(rows, key, c);
      match PlanFor(OnlyRows(rows), a.ep, a.p).outcome
      case Reinforced => ReinforceKeepsCovered(rows, rows', key, c);
      case Backfill => BackfillKeepsCovered(rows, rows', key, c);
      case Superseding => SupersedeKeepsCovered(rows, rows', key, c);
    }
  }

  lemma FirstRowCovers(rows: seq<Memory>, rows': seq<Memory>, key: Key)
    requires forall i :: !Known(rows, key, i)
    requires |rows'| == |rows| + 1 && rows'[..|rows|] == rows
    requires var m := rows'[|rows|]; m.key == key && m.validTo.None? && !m.archived
    ensures Covered(rows', key)
  {
    var n := |rows|;
    forall i | 0 <= i < n ensures !Known(rows', key, i) {
      assert rows'[i] == rows'[..n][i] && !Known(rows, key, i);
    }
    assert CurrentRow(rows', key, n);
    forall t | StartedBy(rows', key, t) ensures HeldAt(rows', key, t) {
      assert Known(rows', key, n) && rows'[n].CurrentAt(t);
    }
  }

  lemma ReinforceKeepsCovered(rows: seq<Memory>, rows': seq<Memory>, key: Key, c: nat)
    requires Covered(rows, key) && CurrentRow(rows, key, c)
    requires |rows'| == |rows| && (forall i :: 0 <= i < |rows| && i != c ==> rows'[i] == rows[i])
    requires rows'[c].key == key && rows'[c].validFrom == rows[c].validFrom && rows'[c].validTo.None?
    requires !rows'[c].archived
    ensures Covered(rows', key)
  {
    assert forall i :: Known(rows, key, i) <==> Known(rows', key, i);
    assert CurrentRow(rows', key, c);
    forall t | StartedBy(rows', key, t) ensures HeldAt(rows', key, t) {
      assert StartedBy(rows, key, t);
      var j :| Known(rows, key, j) && rows[j].CurrentAt(t);
      assert Known(rows', key, j) && rows'[j].CurrentAt(t);
    }
  }

  lemma BackfillKeepsCovered(rows: seq<Memory>, rows': seq<Memory>, key: Key, c: nat)
    requires Covered(rows, key) && CurrentRow(rows, key, c)
    requires |rows'| == |rows| + 1 && rows'[..|rows|] == rows
    requires var m := rows'[|rows|];
             m.key == key && m.validTo == Some(rows[c].validFrom) && m.validFrom < rows[c].validFrom && !m.archived
    ensures Covered(rows', key)
  {
    var n := |rows|;
    assert forall i :: 0 <= i < n ==> rows'[i] == rows[i];
    assert forall i :: Known(rows', key, i) <==> Known(rows, key, i) || i == n;
    assert CurrentRow(rows', key, c);
    forall t | StartedBy(rows', key, t) ensures HeldAt(rows', key, t) {
      if t >= rows[c].validFrom {
        assert Known(rows', key, c) && rows'[c].CurrentAt(t);
      } else if t >= rows'[n].validFrom {
        assert Known(rows', key, n) && rows'[n].CurrentAt(t);
      } else {
        assert StartedBy(rows, key, t);
        var j :| Known(rows, key, j) && rows[j].CurrentAt(t);
        assert Known(rows', key, j) && rows'[j].CurrentAt(t);
      }
    }
  }

  lemma SupersedeKeepsCovered(rows: seq<Memory>, rows': seq<Memory>, key: Key, c: nat)
    requires Covered(rows, key) && CurrentRow(rows, key, c)
    requires |rows'| == |rows| + 1 && (forall i :: 0 <= i < |rows| && i != c ==> rows'[i] == rows[i])
    requires var m := rows'[|rows|];
             && m.key == key && m.validTo.None? && rows[c].validFrom <= m.validFrom && !m.archived
             && rows'[c] == rows[c].(validTo := Some(m.validFrom), supersededBy := rows'[c].supersededBy)
    ensures Covered(rows', key)
  {
    var n := |rows|;
    assert forall i :: Known(rows', key, i) <==> Known(rows, key, i) || i == n;
    assert CurrentRow(rows', key, n);
    forall t | StartedBy(rows', key, t) ensures HeldAt(rows', key, t) {
      if t >= rows'[n].validFrom {
        assert Known(rows', key, n) && rows'[n].CurrentAt(t);
      } else if t >= rows[c].validFrom {
        assert Known(rows', key, c) && rows'[c].CurrentAt(t);
      } else {
        assert StartedBy(rows, key, t);
        var j :| Known(rows, key, j) && rows[j].CurrentAt(t);
        assert Known(rows', key, j) && rows'[j].CurrentAt(t);
      }
    }
  }

  lemma {:induction false} ReplayKeepsCovered(rows: seq<Memory>, arrivals: seq<Arrival>, key: Key)
    requires Supersedes(key.kind) && Covered(rows, key)
    ensures Covered(Replay(rows, arrivals), key)
    decreases |arrivals|
  {
    hide CommitRows, Covered;
    if arrivals != [] {
      var init := arrivals[..|arrivals| - 1];
      ReplayKeepsCovered(rows, init, key);
      StepKeepsCovered(Replay(rows, init), arrivals[|arrivals| - 1], key);
    }
  }

  /** In every run of Commits, backfills included, the rows of a superseding key cover world time without a gap from
      the earliest start on; and from the current row's start on, that row alone is valid. */
  lemma TimelineHasNoGaps(calls: seq<Call>, key: Key)
    requires Supersedes(key.kind)
    ensures var rows := After(EMPTY, calls).rows;
            && (forall t :: HeldAt(rows, key, t) <==> StartedBy(rows, key, t))
            && ((exists i :: Known(rows, key, i)) ==>
                  exists c :: CurrentRow(rows, key, c) && rows[c].Live() &&
                    forall t, i :: rows[c].validFrom <= t && Known(rows, key, i) ==> (rows[i].CurrentAt(t) <==> i == c))
  {
    hide Replay;
    var rows := After(EMPTY, calls).rows;
    RunReplays(EMPTY, calls);
    assert Covered([], key);
    ReplayKeepsCovered([], Arrivals(calls), key);
    assert Replay([], Arrivals(calls)) == rows;
    forall t | HeldAt(rows, key, t) ensures StartedBy(rows, key, t) {
    }
    if i :| Known(rows, key, i) {
      var c :| CurrentRow(rows, key, c);
      forall t, i | rows[c].validFrom <= t && Known(rows, key, i) ensures rows[i].CurrentAt(t) <==> i == c {
      }
    }
  }
}
