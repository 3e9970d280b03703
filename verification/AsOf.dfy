/** The interval store against a plain append-only log: when nothing arrives out of order, an as-of query on the rows
    answers what the log says. */
module AsOf {
  import opened Text
  import opened Records
  import opened Database
  import opened Committing
  import opened Timeline

  /** The log of one key: each assertion as it was stored; a restatement touches up the last entry. */
  function LogStep(log: seq<Memory>, a: Arrival, key: Key): seq<Memory> {
    var d, n := a.p.draft, |log|;
    if d.key != key then log
    else if n > 0 && IsRestatement(log[n - 1], d) then log[n - 1 := ReinforcedRow(log[n - 1], d, a.ep)]
    else log + [Stored(d, None, None)]
  }

  function LogOf(arrivals: seq<Arrival>, key: Key): seq<Memory> {
    if arrivals == [] then []
    else LogStep(LogOf(arrivals[..|arrivals| - 1], key), arrivals[|arrivals| - 1], key)
  }

  /** The arrival is not older than the last assertion of the log, unless it restates it. */
  predicate Timely(log: seq<Memory>, a: Arrival, key: Key) {
    var d, n := a.p.draft, |log|;
    d.key == key && n > 0 && !IsRestatement(log[n - 1], d) ==> log[n - 1].validFrom <= d.validFrom
  }

  /** No arrival on the key is a backfill. */
  predicate AllTimely(arrivals: seq<Arrival>, key: Key) {
    arrivals == [] ||
    var init := arrivals[..|arrivals| - 1];
    AllTimely(init, key) && Timely(LogOf(init, key), arrivals[|arrivals| - 1], key)
  }

  /** The last entry of the log that had started by t. */
  function LogAsOf(log: seq<Memory>, t: int): (k: Option<nat>)
    ensures k.Some? ==> k.value < |log| && log[k.value].validFrom <= t
    ensures forall j :: (if k.Some? then k.value else -1) < j < |log| ==> t < log[j].validFrom
  {
    var n := |log|;
    if n == 0 then None
    else if log[n - 1].validFrom <= t then Some(n - 1)
    else LogAsOf(log[..n - 1], t)
  }

  /** The rows the as-of filter returns for the key at t. */
  ghost function AsOfRows(rows: seq<Memory>, key: Key, t: int): set<int> {
    set i | 0 <= i < |rows| && rows[i].key == key && !rows[i].archived && rows[i].CurrentAt(t)
  }

  /** Ids of the key's rows, oldest first. */
  function IdsOn(rows: seq<Memory>, key: Key): seq<nat> {
    if rows == [] then []
    else
      var n := |rows| - 1;
      IdsOn(rows[..n], key) + (if rows[n].key == key then [n] else [])
  }

  /** ids are the positions of the key's rows, in order. */
  ghost predicate ListsKnown(rows: seq<Memory>, key: Key, ids: seq<nat>) {
    && (forall k :: 0 <= k < |ids| ==> Known(rows, key, ids[k]))
    && (forall j, k :: 0 <= j < k < |ids| ==> ids[j] < ids[k])
    && (forall i :: Known(rows, key, i) ==> i in ids)
  }

  lemma {:induction false} IdsOnExact(rows: seq<Memory>, key: Key)
    ensures ListsKnown(rows, key, IdsOn(rows, key))
  {
    hide ListsKnown;
    if rows == [] {
      NothingKnown(key);
    } else {
      IdsOnExact(rows[..|rows| - 1], key);
      ListsKnownSnoc(rows, key, IdsOn(rows[..|rows| - 1], key));
    }
  }

  lemma NothingKnown(key: Key)
    ensures ListsKnown([], key, [])
  {
  }

  lemma ListsKnownSnoc(rows: seq<Memory>, key: Key, prior: seq<nat>)
    requires rows != [] && ListsKnown(rows[..|rows| - 1], key, prior)
    ensures ListsKnown(rows, key, prior + (if rows[|rows| - 1].key == key then [|rows| - 1] else []))
  {
    var n := |rows| - 1;
    var ids := prior + (if rows[n].key == key then [n] else []);
    forall i | Known(rows, key, i) ensures i in ids {
      assert i == n || Known(rows[..n], key, i);
    }
    forall k | 0 <= k < |ids| ensures Known(rows, key, ids[k]) {
      if k < |prior| { assert Known(rows[..n], key, prior[k]); }
    }
  }

  lemma {:induction false} IdsOnSameKeys(rows: seq<Memory>, rows': seq<Memory>, key: Key)
    requires |rows'| == |rows| && forall i :: 0 <= i < |rows| ==> rows'[i].key == rows[i].key
    ensures IdsOn(rows', key) == IdsOn(rows, key)
  {
    if rows != [] {
      IdsOnSameKeys(rows[..|rows| - 1], rows'[..|rows| - 1], key);
    }
  }

  lemma IdsOnSnoc(rows: seq<Memory>, m: Memory, key: Key)
    ensures IdsOn(rows + [m], key) == IdsOn(rows, key) + (if m.key == key then [|rows|] else [])
  {
    assert (rows + [m])[..|rows|] == rows;
  }

  /** Entry k as the store holds it: closed where entry k + 1 starts, and linked to its row. */
  function Held(log: seq<Memory>, ids: seq<nat>, k: nat): Memory
    requires k < |log| && |ids| == |log|
  {
    if k + 1 < |log| then log[k].(validTo := Some(log[k + 1].validFrom), supersededBy := Some(ids[k + 1])) else log[k]
  }

  /** An open log entry of the key. */
  predicate Entry(m: Memory, key: Key) {
    m.key == key && m.validTo.None? && m.supersededBy.None? && !m.archived
  }

  /** The abstraction relation between the key's rows and its log. */
  ghost predicate Mirrors(rows: seq<Memory>, key: Key, log: seq<Memory>) {
    MirrorsAt(rows, key, log, IdsOn(rows, key))
  }

  ghost predicate MirrorsAt(rows: seq<Memory>, key: Key, log: seq<Memory>, ids: seq<nat>) {
    && |ids| == |log|
    && (forall k :: 0 <= k < |log| ==> Entry(log[k], key))
    && (forall k :: 0 <= k < |log| ==> ids[k] < |rows| && rows[ids[k]] == Held(log, ids, k))
    && (forall j, k :: 0 <= j < k < |log| ==> log[j].validFrom <= log[k].validFrom)
  }

  ghost predicate Increasing(ids: seq<nat>) {
    forall j, k :: 0 <= j < k < |ids| ==> ids[j] < ids[k]
  }

  lemma MirrorsLive(rows: seq<Memory>, key: Key, log: seq<Memory>)
    requires Mirrors(rows, key, log)
    ensures FindLive(rows, key) == if log == [] then None else Some(IdsOn(rows, key)[|log| - 1])
  {
    var ids := IdsOn(rows, key);
    IdsOnExact(rows, key);
    forall i | Known(rows, key, i) && rows[i].Live() ensures log != [] && i == ids[|log| - 1] {
      var k :| 0 <= k < |ids| && ids[k] == i;
    }
    if log != [] {
      FindLiveFromMisses(rows, key, 0, ids[|log| - 1]);
    }
    if FindLive(rows, key).Some? {
      assert Known(rows, key, FindLive(rows, key).value);
    }
  }

  lemma OtherKeyMirrors(rows: seq<Memory>, rows': seq<Memory>, key: Key, log: seq<Memory>)
    requires Mirrors(rows, key, log)
    requires |rows| <= |rows'| <= |rows| + 1
    requires forall i :: 0 <= i < |rows| ==> rows'[i].key == rows[i].key
    requires forall i :: 0 <= i < |rows| && rows[i].key == key ==> rows'[i] == rows[i]
    requires |rows'| > |rows| ==> rows'[|rows|].key != key
    ensures Mirrors(rows', key, log)
  {
    IdsOnSameKeys(rows, rows'[..|rows|], key);
    IdsOnExact(rows, key);
    if |rows'| > |rows| {
      assert rows' == rows'[..|rows|] + [rows'[|rows|]];
      IdsOnSnoc(rows'[..|rows|], rows'[|rows|], key);
    } else {
      assert rows'[..|rows|] == rows';
    }
    var ids := IdsOn(rows, key);
    assert forall k :: 0 <= k < |ids| ==> Known(rows, key, ids[k]);
  }

  lemma ReinforcedMirrors(rows: seq<Memory>, key: Key, log: seq<Memory>, r: Memory)
    requires Mirrors(rows, key, log) && log != [] && Entry(r, key)
    requires r.validFrom == log[|log| - 1].validFrom
    ensures var ids := IdsOn(rows, key);
            |ids| == |log| && ids[|log| - 1] < |rows| && Mirrors(rows[ids[|log| - 1] := r], key, log[|log| - 1 := r])
  {
    hide IdsOn;
    var ids := IdsOn(rows, key);
    IdsOnExact(rows, key);
    LastIsLive(rows, key, log);
    IdsOnSameKeys(rows, rows[ids[|log| - 1] := r], key);
    ReinforcedMirrorsAt(rows, key, log, ids, r);
  }

  lemma ReinforcedMirrorsAt(rows: seq<Memory>, key: Key, log: seq<Memory>, ids: seq<nat>, r: Memory)
    requires MirrorsAt(rows, key, log, ids) && Increasing(ids) && log != [] && Entry(r, key)
    requires r.validFrom == log[|log| - 1].validFrom
    ensures MirrorsAt(rows[ids[|log| - 1] := r], key, log[|log| - 1 := r], ids)
  {
    hide Entry;
    var n := |log|;
    var rows', log' := rows[ids[n - 1] := r], log[n - 1 := r];
    forall k | 0 <= k < n ensures rows'[ids[k]] == Held(log', ids, k) {
      if k < n - 1 {
        assert rows'[ids[k]] == rows[ids[k]] == Held(log, ids, k);
      }
    }
  }

  lemma CreatedMirrors(rows: seq<Memory>, key: Key, m: Memory)
    requires Mirrors(rows, key, []) && Entry(m, key)
    ensures Mirrors(rows + [m], key, [m])
  {
    IdsOnSnoc(rows, m, key);
  }

  lemma SupersededMirrors(rows: seq<Memory>, key: Key, log: seq<Memory>, m: Memory)
    requires Mirrors(rows, key, log) && log != [] && Entry(m, key) && log[|log| - 1].validFrom <= m.validFrom
    ensures var ids := IdsOn(rows, key);
            |ids| == |log| && ids[|log| - 1] < |rows| &&
            Mirrors(Superseded(rows, ids[|log| - 1], m), key, log + [m])
  {
    hide IdsOn;
    var ids := IdsOn(rows, key);
    IdsOnExact(rows, key);
    LastIsLive(rows, key, log);
    var closed := Closed(rows, ids[|log| - 1], m.validFrom);
    IdsOnSameKeys(rows, closed, key);
    IdsOnSnoc(closed, m, key);
    SupersededMirrorsAt(rows, key, log, ids, m);
  }

  function Closed(rows: seq<Memory>, c: nat, at: int): seq<Memory>
    requires c < |rows|
  {
    rows[c := rows[c].(validTo := Some(at), supersededBy := Some(|rows|))]
  }

  function Superseded(rows: seq<Memory>, c: nat, m: Memory): seq<Memory>
    requires c < |rows|
  {
    Closed(rows, c, m.validFrom) + [m]
  }

  lemma SupersededMirrorsAt(rows: seq<Memory>, key: Key, log: seq<Memory>, ids: seq<nat>, m: Memory)
    requires MirrorsAt(rows, key, log, ids) && Increasing(ids) && log != []
    requires Entry(m, key) && log[|log| - 1].validFrom <= m.validFrom
    ensures MirrorsAt(Superseded(rows, ids[|log| - 1], m), key, log + [m], ids + [|rows|])
  {
    hide Held, Entry;
    var n := |log|;
    var rows', log', ids' := Superseded(rows, ids[n - 1], m), log + [m], ids + [|rows|];
    forall k | 0 <= k < n + 1 ensures ids'[k] < |rows'| && rows'[ids'[k]] == Held(log', ids', k) {
      HeldSnoc(log, ids, m, |rows|, k);
      if k < n - 1 {
        assert ids'[k] == ids[k] < ids[n - 1];
      } else if k == n - 1 {
        assert rows[ids[k]] == Held(log, ids, k);
      }
    }
    StaysOrdered(log, m);
  }

  lemma HeldSnoc(log: seq<Memory>, ids: seq<nat>, m: Memory, id: nat, k: nat)
    requires |ids| == |log| && k <= |log|
    ensures var n, r := |log|, Held(log + [m], ids + [id], k);
            && (k + 1 < n ==> r == Held(log, ids, k))
            && (k + 1 == n ==> r == Held(log, ids, k).(validTo := Some(m.validFrom), supersededBy := Some(id)))
            && (k == n ==> r == m)
  {
  }

  lemma StaysOrdered(log: seq<Memory>, m: Memory)
    requires forall j, k :: 0 <= j < k < |log| ==> log[j].validFrom <= log[k].validFrom
    requires log != [] && log[|log| - 1].validFrom <= m.validFrom
    ensures var log' := log + [m];
            forall j, k :: 0 <= j < k < |log'| ==> log'[j].validFrom <= log'[k].validFrom
  {
    var n, log' := |log|, log + [m];
    forall j, k | 0 <= j < k < n + 1 ensures log'[j].validFrom <= log'[k].validFrom {
      assert k == n ==> log'[j].validFrom <= log[n - 1].validFrom;
    }
  }

  lemma StepMirrors(rows: seq<Memory>, a: Arrival, key: Key, log: seq<Memory>)
    requires Supersedes(key.kind) && Mirrors(rows, key, log) && Timely(log, a, key)
    ensures Mirrors(CommitRows(rows, a), key, LogStep(log, a, key))
  {
    hide IsRestatement, FindLive, PlanFor, CommitRows, Mirrors, IdsOn, MergeStrings;
    var rows', d, n := CommitRows(rows, a), a.p.draft, |log|;
    CommitRowsSteps(rows, a);
    if d.key != key {
      OtherKeyMirrors(rows, rows', key, log);
    } else {
      MirrorsLive(rows, key, log);
      if log == [] {
        CreatedMirrors(rows, key, Stored(d, None, None));
        assert LogStep(log, a, key) == [Stored(d, None, None)];
      } else {
        LastIsLive(rows, key, log);
        if IsRestatement(log[n - 1], d) {
          ReinforcedMirrors(rows, key, log, ReinforcedRow(log[n - 1], d, a.ep));
        } else {
          SupersededMirrors(rows, key, log, Stored(d, None, None));
          assert rows' == Superseded(rows, IdsOn(rows, key)[n - 1], Stored(d, None, None));
        }
      }
    }
  }

  lemma LastIsLive(rows: seq<Memory>, key: Key, log: seq<Memory>)
    requires Mirrors(rows, key, log) && log != []
    ensures var ids := IdsOn(rows, key);
            |ids| == |log| && ids[|log| - 1] < |rows| && rows[ids[|log| - 1]] == log[|log| - 1]
    ensures Entry(log[|log| - 1], key)
  {
  }

  lemma {:induction false} ReplayMirrors(arrivals: seq<Arrival>, key: Key)
    requires Supersedes(key.kind) && AllTimely(arrivals, key)
    ensures Mirrors(Replay([], arrivals), key, LogOf(arrivals, key))
    decreases |arrivals|
  {
    hide CommitRows, LogStep, Timely;
    if arrivals != [] {
      var init := arrivals[..|arrivals| - 1];
      ReplayMirrors(init, key);
      StepMirrors(Replay([], init), arrivals[|arrivals| - 1], key, LogOf(init, key));
    }
  }

  /** The as-of filter returns nothing where the log has no answer, and otherwise exactly the row of the log's answer,
      with the entry's contents. */
  ghost predicate AnswersLike(rows: seq<Memory>, key: Key, log: seq<Memory>, t: int) {
    match LogAsOf(log, t)
    case None => AsOfRows(rows, key, t) == {}
    case Some(k) =>
      exists i :: 0 <= i < |rows| && AsOfRows(rows, key, t) == {i} &&
        rows[i].(validTo := None, supersededBy := None) == log[k]
  }

  lemma MirrorsAsOf(rows: seq<Memory>, key: Key, log: seq<Memory>, t: int)
    requires Mirrors(rows, key, log)
    ensures AnswersLike(rows, key, log, t)
  {
    hide IdsOn;
    var k, ids := LogAsOf(log, t), IdsOn(rows, key);
    forall i | Known(rows, key, i)
      ensures !rows[i].archived && (rows[i].CurrentAt(t) <==> k.Some? && i == ids[k.value])
    {
      RowCurrent(rows, key, log, t, i);
    }
    if k.Some? {
      IdsOnExact(rows, key);
      assert Known(rows, key, ids[k.value]);
      assert AsOfRows(rows, key, t) == {ids[k.value] as int};
      assert Entry(log[k.value], key);
    } else {
      assert AsOfRows(rows, key, t) == {};
    }
  }

  lemma RowCurrent(rows: seq<Memory>, key: Key, log: seq<Memory>, t: int, i: int)
    requires Mirrors(rows, key, log) && Known(rows, key, i)
    ensures !rows[i].archived
    ensures rows[i].CurrentAt(t) <==> LogAsOf(log, t).Some? && i == IdsOn(rows, key)[LogAsOf(log, t).value]
  {
    hide IdsOn, LogAsOf;
    var ids := IdsOn(rows, key);
    IdsOnExact(rows, key);
    var j :| 0 <= j < |ids| && ids[j] == i;
    EntryCurrent(rows, key, log, ids, t, j);
    assert rows[i] == Held(log, ids, j) && Entry(log[j], key);
  }

  /** Entry j's row is valid at t exactly when the log's answer at t is entry j. */
  lemma EntryCurrent(rows: seq<Memory>, key: Key, log: seq<Memory>, ids: seq<nat>, t: int, j: nat)
    requires MirrorsAt(rows, key, log, ids) && j < |log|
    ensures rows[ids[j]].CurrentAt(t) <==> LogAsOf(log, t) == Some(j)
  {
    assert rows[ids[j]] == Held(log, ids, j) && Entry(log[j], key);
    var k := LogAsOf(log, t);
    if k.Some? && j < k.value {
      assert log[j + 1].validFrom <= log[k.value].validFrom;
    }
  }

  /** In every run of Commits without a backfill on the key, the as-of filter at t returns nothing before the first
      assertion and exactly one row from then on: the row of the last logged assertion that had started by t, with
      the log entry's contents. */
  lemma AsOfRefinesLog(calls: seq<Call>, key: Key, t: int)
    requires Supersedes(key.kind) && AllTimely(Arrivals(calls), key)
    ensures AnswersLike(After(EMPTY, calls).rows, key, LogOf(Arrivals(calls), key), t)
    ensures var log := LogOf(Arrivals(calls), key); LogAsOf(log, t).Some? <==> log != [] && log[0].validFrom <= t
  {
    hide Replay, LogOf, IdsOn, AnswersLike;
    var rows, log := After(EMPTY, calls).rows, LogOf(Arrivals(calls), key);
    RunReplays(EMPTY, calls);
    ReplayMirrors(Arrivals(calls), key);
    MirrorsAsOf(rows, key, log, t);
  }

  // ---- with decay ----

  lemma {:induction false} DecayKeeps(db: Db, todo: seq<Stmt>)
    requires forall s :: s in todo ==> s.WriteDecay?
    ensures var rows, rows' := db.rows, Run(db, todo).rows;
            |rows'| == |rows| &&
            forall i :: 0 <= i < |rows| ==>
              rows'[i] == rows[i].(salience := rows'[i].salience, archived := rows'[i].archived)
    decreases |todo|
  {
    if todo != [] {
      assert todo[0] in todo && forall s :: s in todo[1..] ==> s in todo;
      DecayKeeps(Apply(db, todo[0]), todo[1..]);
    }
  }

  /** Whatever decay writes follow such a run, the as-of filter gives the log's answer still, unless its row has been
      archived by then: in that case it gives nothing. */
  lemma AsOfAfterDecay(calls: seq<Call>, todo: seq<Stmt>, key: Key, t: int)
    requires Supersedes(key.kind) && AllTimely(Arrivals(calls), key)
    requires forall s :: s in todo ==> s.WriteDecay?
    ensures var rows, rows' := After(EMPTY, calls).rows, Run(After(EMPTY, calls), todo).rows;
            && |rows'| == |rows| && AnswersLike(rows, key, LogOf(Arrivals(calls), key), t)
            && (forall i :: i in AsOfRows(rows, key, t) ==>
                  rows'[i] == rows[i].(salience := rows'[i].salience, archived := rows'[i].archived))
            && (forall i :: i in AsOfRows(rows', key, t) <==> i in AsOfRows(rows, key, t) && !rows'[i].archived)
  {
    hide Replay, LogOf, IdsOn, AnswersLike, Run, Mirrors;
    var rows, log := After(EMPTY, calls).rows, LogOf(Arrivals(calls), key);
    AsOfRefinesLog(calls, key, t);
    DecayKeeps(After(EMPTY, calls), todo);
    RunReplays(EMPTY, calls);
    ReplayMirrors(Arrivals(calls), key);
    forall i | Known(rows, key, i) ensures !rows[i].archived {
      RowCurrent(rows, key, log, t, i);
    }
  }
}
