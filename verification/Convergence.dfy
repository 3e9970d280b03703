/** Which assertion ends up current: one-current under the resolver, order independence, and what the verifier's
    screen carries into the store. */
module Convergence {
  import opened Text
  import opened Records
  import opened Similarity
  import opened Merging
  import opened Verifying
  import opened Database
  import opened Committing
  import opened Timeline

  /** The current assertion of a key. */
  function CurrentOf(rows: seq<Memory>, key: Key): Option<Memory> {
    var c := FindLive(rows, key);
    if c.None? then None else Some(rows[c.value])
  }

  /** The conflict rule: nothing current, corroboration, older news, or newer news. */
  function Resolve(current: Option<Memory>, a: Arrival): Memory {
    var d := a.p.draft;
    if current.None? then Stored(d, None, None)
    else if IsRestatement(current.value, d) then ReinforcedRow(current.value, d, a.ep)
    else if d.validFrom < current.value.validFrom then current.value
    else Stored(d, None, None)
  }

  /** Closing the current row before inserting its successor keeps the index satisfied after every outcome. */
  lemma StepKeepsOneLive(rows: seq<Memory>, a: Arrival)
    requires OneLive(rows)
    ensures OneLive(CommitRows(rows, a))
  {
    hide IsRestatement, PlanFor, CommitRows, MergeStrings, MergeAttrs;
    var rows', key := CommitRows(rows, a), a.p.draft.key;
    CommitRowsSteps(rows, a);
    forall i, j | 0 <= i < j < |rows'| && rows'[i].Live() && rows'[j].Live() && rows'[i].key == rows'[j].key
      ensures !Supersedes(rows'[i].key.kind)
    {
      if Supersedes(rows'[i].key.kind) {
        StepLive(rows, a, i);
        StepLive(rows, a, j);
      }
    }
  }

  /** Which rows are live after a step: those that were, but for a superseded row, and the new row unless it was
      filed into history. */
  lemma StepLive(rows: seq<Memory>, a: Arrival, i: nat)
    requires OneLive(rows) && i < |CommitRows(rows, a)| && CommitRows(rows, a)[i].Live()
    requires Supersedes(CommitRows(rows, a)[i].key.kind)
    ensures i < |rows| ==> rows[i].Live() && rows[i].key == CommitRows(rows, a)[i].key
    ensures CommitRows(rows, a)[i].key == a.p.draft.key ==>
              (forall j :: 0 <= j < |rows| && rows[j].Live() && rows[j].key == a.p.draft.key && j != i ==>
                 j < |CommitRows(rows, a)| && !CommitRows(rows, a)[j].Live())
    ensures i >= |rows| ==> i == |rows| && CommitRows(rows, a)[i].key == a.p.draft.key
  {
    hide IsRestatement, PlanFor, CommitRows, MergeStrings, MergeAttrs, FindLive;
    var rows', key := CommitRows(rows, a), a.p.draft.key;
    CommitRowsSteps(rows, a);
    if rows'[i].key == key {
      forall j | 0 <= j < |rows| && rows[j].Live() && rows[j].key == key && j != i
        ensures j < |rows'| && !rows'[j].Live()
      {
        FindLiveExact(rows, key, j);
        if i < |rows| { FindLiveExact(rows, key, i); }
      }
    }
  }

  /** commitOne on a superseding key replaces the current assertion by Resolve's choice. */
  lemma StepResolves(rows: seq<Memory>, a: Arrival)
    requires OneLive(rows) && Supersedes(a.p.draft.key.kind)
    ensures CurrentOf(CommitRows(rows, a), a.p.draft.key) == Some(Resolve(CurrentOf(rows, a.p.draft.key), a))
  {
    hide IsRestatement, PlanFor, CommitRows, MergeStrings, MergeAttrs, FindLive;
    var rows', key := CommitRows(rows, a), a.p.draft.key;
    CommitRowsSteps(rows, a);
    StepKeepsOneLive(rows, a);
    var c := FindLive(rows, key);
    if c.Some? && (IsRestatement(rows[c.value], a.p.draft) || a.p.draft.validFrom < rows[c.value].validFrom) {
      FindLiveExact(rows', key, c.value);
    } else {
      FindLiveExact(rows', key, |rows|);
    }
  }

  lemma {:induction false} ReplayKeepsOneLive(rows: seq<Memory>, arrivals: seq<Arrival>)
    requires OneLive(rows)
    ensures OneLive(Replay(rows, arrivals))
    decreases |arrivals|
  {
    hide CommitRows, OneLive;
    if arrivals != [] {
      ReplayKeepsOneLive(rows, arrivals[..|arrivals| - 1]);
      StepKeepsOneLive(Replay(rows, arrivals[..|arrivals| - 1]), arrivals[|arrivals| - 1]);
    }
  }

  // ---- order independence ----

  function AsStored(a: Arrival): Memory {
    Stored(a.p.draft, None, None)
  }

  /** Assertions on one key that all disagree and start at different times; `current`, if any, is one of them. */
  ghost predicate Contest(current: Option<Memory>, arrivals: seq<Arrival>, key: Key) {
    && (forall i :: 0 <= i < |arrivals| ==> arrivals[i].p.draft.key == key)
    && (forall i, j :: 0 <= i < |arrivals| && 0 <= j < |arrivals| && i != j ==>
          arrivals[i].p.draft.validFrom != arrivals[j].p.draft.validFrom &&
          !IsRestatement(AsStored(arrivals[i]), arrivals[j].p.draft))
    && (current.Some? ==> forall j :: 0 <= j < |arrivals| ==>
          current.value.validFrom != arrivals[j].p.draft.validFrom &&
          !IsRestatement(current.value, arrivals[j].p.draft))
  }

  /** m is the contender that starts last. */
  ghost predicate Latest(current: Option<Memory>, arrivals: seq<Arrival>, m: Memory) {
    && (current == Some(m) || exists k :: 0 <= k < |arrivals| && AsStored(arrivals[k]) == m)
    && (current.Some? ==> current.value.validFrom <= m.validFrom)
    && forall k :: 0 <= k < |arrivals| ==> arrivals[k].p.draft.validFrom <= m.validFrom
  }

  /** Whatever the order of arrival, the contender that starts last is current in the end. */
  lemma {:induction false} LatestWins(rows: seq<Memory>, arrivals: seq<Arrival>, key: Key)
    requires OneLive(rows) && Supersedes(key.kind) && Contest(CurrentOf(rows, key), arrivals, key)
    ensures CurrentOf(rows, key).Some? || arrivals != [] ==>
              CurrentOf(Replay(rows, arrivals), key).Some? &&
              Latest(CurrentOf(rows, key), arrivals, CurrentOf(Replay(rows, arrivals), key).value)
    ensures CurrentOf(rows, key).None? && arrivals == [] ==> CurrentOf(Replay(rows, arrivals), key).None?
    decreases |arrivals|
  {
    hide CommitRows, CurrentOf, IsRestatement, OneLive;
    if arrivals != [] {
      var init, a := arrivals[..|arrivals| - 1], arrivals[|arrivals| - 1];
      LatestWins(rows, init, key);
      ReplayKeepsOneLive(rows, init);
      var mid := Replay(rows, init);
      StepResolves(mid, a);
      if CurrentOf(mid, key).Some? {
        LatestStep(CurrentOf(rows, key), init, a, CurrentOf(mid, key).value, key);
      } else {
        assert AsStored(arrivals[0]) == AsStored(a);
      }
    }
  }

  lemma LatestStep(current: Option<Memory>, init: seq<Arrival>, a: Arrival, m: Memory, key: Key)
    requires Contest(current, init + [a], key) && Latest(current, init, m)
    ensures Latest(current, init + [a], Resolve(Some(m), a))
  {
    hide IsRestatement;
    var all, n := init + [a], |init|;
    assert all[n] == a && forall k :: 0 <= k < n ==> all[k] == init[k];
    assert !IsRestatement(m, a.p.draft) by {
      if current != Some(m) {
        var k :| 0 <= k < n && AsStored(init[k]) == m;
        assert AsStored(all[k]) == m;
      }
    }
    var r := Resolve(Some(m), a);
    if r == m {
      if current != Some(m) {
        var k :| 0 <= k < n && AsStored(init[k]) == m;
        assert AsStored(all[k]) == m;
      }
    } else {
      assert AsStored(all[n]) == r;
    }
    forall k | 0 <= k < |all| ensures all[k].p.draft.validFrom <= r.validFrom {
    }
  }

  lemma LatestUnique(current: Option<Memory>, arrivals: seq<Arrival>, key: Key, m: Memory, m': Memory)
    requires Contest(current, arrivals, key) && Latest(current, arrivals, m) && Latest(current, arrivals, m')
    ensures m == m'
  {
    hide IsRestatement;
  }

  /** Permuting a set of disagreeing assertions with different starts does not change what ends up current. */
  lemma OrderIndependent(rows: seq<Memory>, a: seq<Arrival>, b: seq<Arrival>, key: Key)
    requires OneLive(rows) && Supersedes(key.kind)
    requires Contest(CurrentOf(rows, key), a, key) && multiset(a) == multiset(b)
    ensures CurrentOf(Replay(rows, a), key) == CurrentOf(Replay(rows, b), key)
  {
    hide CommitRows, CurrentOf, IsRestatement, Replay, OneLive;
    var current := CurrentOf(rows, key);
    PermutedContest(current, a, b, key);
    LatestWins(rows, a, key);
    LatestWins(rows, b, key);
    assert |a| == |multiset(a)| == |multiset(b)| == |b|;
    if current.Some? || a != [] {
      PermutedLatest(current, a, b, CurrentOf(Replay(rows, b), key).value);
      LatestUnique(current, a, key, CurrentOf(Replay(rows, a), key).value, CurrentOf(Replay(rows, b), key).value);
    }
  }

  lemma PermutedLatest(current: Option<Memory>, a: seq<Arrival>, b: seq<Arrival>, m: Memory)
    requires multiset(a) == multiset(b) && Latest(current, b, m)
    ensures Latest(current, a, m)
  {
    if current != Some(m) {
      var k :| 0 <= k < |b| && AsStored(b[k]) == m;
      assert b[k] in multiset(b);
      assert b[k] in a;
      var j :| 0 <= j < |a| && a[j] == b[k];
    }
    forall k | 0 <= k < |a| ensures a[k].p.draft.validFrom <= m.validFrom {
      assert a[k] in multiset(a);
      assert a[k] in b;
    }
  }

  lemma PermutedContest(current: Option<Memory>, a: seq<Arrival>, b: seq<Arrival>, key: Key)
    requires multiset(a) == multiset(b) && Contest(current, a, key)
    ensures Contest(current, b, key)
  {
    hide IsRestatement;
    forall i | 0 <= i < |b| ensures b[i] in a {
      assert b[i] in multiset(b);
    }
    forall i, j | 0 <= i < |b| && 0 <= j < |b| && i != j ensures b[i] != b[j] {
      if b[i] == b[j] {
        TwiceInMultiset(b, i, j);
        OnceInMultiset(current, a, key, b[i]);
      }
    }
  }

  lemma TwiceInMultiset(b: seq<Arrival>, i: nat, j: nat)
    requires i < |b| && j < |b| && i != j && b[i] == b[j]
    ensures multiset(b)[b[i]] >= 2
  {
    var lo, hi := if i < j then i else j, if i < j then j else i;
    assert b == b[..lo] + [b[lo]] + b[lo + 1..hi] + [b[hi]] + b[hi + 1..];
  }

  lemma {:induction false} OnceInMultiset(current: Option<Memory>, a: seq<Arrival>, key: Key, x: Arrival)
    requires Contest(current, a, key)
    ensures multiset(a)[x] <= 1
    decreases |a|
  {
    hide IsRestatement;
    if a != [] {
      var n := |a| - 1;
      assert a == a[..n] + [a[n]];
      if a[n] == x {
        assert x !in a[..n];
      } else {
        assert Contest(current, a[..n], key);
        OnceInMultiset(current, a[..n], key, x);
      }
    }
  }

  // ---- backfills and overlapping history ----

  /** At no time are two rows of the key valid together. */
  ghost predicate Disjoint(rows: seq<Memory>, key: Key) {
    forall t, i, j :: Known(rows, key, i) && Known(rows, key, j) && rows[i].CurrentAt(t) && rows[j].CurrentAt(t) ==>
      i == j
  }

  /** Some row of the key, current one aside, was still valid at or after t. */
  ghost predicate ReachesPast(rows: seq<Memory>, key: Key, t: int) {
    exists i :: Known(rows, key, i) && rows[i].validTo.Some? &&
      rows[i].validFrom < rows[i].validTo.value && t < rows[i].validTo.value
  }

  /** A backfill always runs up to the current row's start, so it overlaps older history exactly when some older row
      reached past the backfilled start. */
  lemma BackfillOverlaps(rows: seq<Memory>, a: Arrival, key: Key)
    requires Supersedes(key.kind) && a.p.draft.key == key && Covered(rows, key) && Disjoint(rows, key)
    requires PlanFor(OnlyRows(rows), a.ep, a.p).outcome == Backfill
    ensures Disjoint(CommitRows(rows, a), key) <==> !ReachesPast(rows, key, a.p.draft.validFrom)
  {
    hide IsRestatement, PlanFor, CommitRows, FindLive;
    var rows', n := CommitRows(rows, a), |rows|;
    CommitRowsSteps(rows, a);
    assert Known(rows, key, FindLive(rows, key).value);
    var c :| CurrentRow(rows, key, c);
    LiveIsCurrent(rows, key, c);
    assert forall i :: Known(rows', key, i) <==> Known(rows, key, i) || i == n;
    assert forall i :: Known(rows, key, i) ==> rows'[i] == rows[i];
    if ReachesPast(rows, key, a.p.draft.validFrom) {
      var i :| Known(rows, key, i) && rows[i].validTo.Some? &&
        rows[i].validFrom < rows[i].validTo.value && a.p.draft.validFrom < rows[i].validTo.value;
      var t := if rows[i].validFrom > a.p.draft.validFrom then rows[i].validFrom else a.p.draft.validFrom;
      assert rows'[i].CurrentAt(t) && rows'[n].CurrentAt(t) && Known(rows', key, n) && Known(rows', key, i);
    } else {
      forall t, i, j | Known(rows', key, i) && Known(rows', key, j) && rows'[i].CurrentAt(t) && rows'[j].CurrentAt(t)
        ensures i == j
      {
      }
    }
  }

  /** The k-th arrival of a run is a backfill on the key, and some older row reached past its start. */
  ghost predicate Overlaps(arrivals: seq<Arrival>, key: Key, k: nat) {
    k < |arrivals| &&
    var rows, a := Replay([], arrivals[..k]), arrivals[k];
    Overreaches(rows, a, key)
  }

  ghost predicate Overreaches(rows: seq<Memory>, a: Arrival, key: Key) {
    a.p.draft.key == key && PlanFor(OnlyRows(rows), a.ep, a.p).outcome == Backfill &&
    ReachesPast(rows, key, a.p.draft.validFrom)
  }

  /** The history of a key is free of overlaps after a run exactly when no backfill of the run started before the end of
      an older row. */
  lemma {:induction false} HistoryDisjointIff(arrivals: seq<Arrival>, key: Key)
    requires Supersedes(key.kind)
    ensures Disjoint(Replay([], arrivals), key) <==> forall k: nat :: !Overlaps(arrivals, key, k)
    decreases |arrivals|
  {
    hide CommitRows, Covered, Disjoint, Overreaches, OneLive;
    if arrivals == [] {
      NothingOverlaps(key);
    } else {
      var n := |arrivals| - 1;
      var init := arrivals[..n];
      HistoryDisjointIff(init, key);
      assert Covered([], key) by { NothingCovered(key); }
      ReplayKeepsCovered([], init, key);
      assert OneLive([]) by { NothingLive(); }
      StepDisjointIff(Replay([], init), arrivals[n], key);
      forall k: nat | k < n ensures Overlaps(arrivals, key, k) <==> Overlaps(init, key, k) {
        assert arrivals[..k] == init[..k] && arrivals[k] == init[k];
      }
      assert Overlaps(arrivals, key, n) <==> Overreaches(Replay([], init), arrivals[n], key);
    }
  }

  /** The same of a run of commits. */
  lemma CommitsDisjointIff(calls: seq<Call>, key: Key)
    requires Supersedes(key.kind)
    ensures Disjoint(After(EMPTY, calls).rows, key) <==> forall k: nat :: !Overlaps(Arrivals(calls), key, k)
  {
    hide Replay, Disjoint, Overlaps;
    RunReplays(EMPTY, calls);
    HistoryDisjointIff(Arrivals(calls), key);
  }

  lemma NothingOverlaps(key: Key)
    ensures Disjoint(Replay([], []), key)
  {
  }

  lemma NothingCovered(key: Key)
    ensures Covered([], key)
  {
  }

  lemma NothingLive()
    ensures OneLive([])
  {
  }

  /** Only such a backfill brings an overlap in, and nothing takes one away. */
  lemma StepDisjointIff(rows: seq<Memory>, a: Arrival, key: Key)
    requires Supersedes(key.kind) && Covered(rows, key)
    ensures Disjoint(CommitRows(rows, a), key) <==> Disjoint(rows, key) && !Overreaches(rows, a, key)
  {
    hide IsRestatement, PlanFor, CommitRows, FindLive, Covered, Disjoint, ReachesPast, CurrentRow;
    var rows' := CommitRows(rows, a);
    CommitRowsSteps(rows, a);
    if a.p.draft.key != key || PlanFor(OnlyRows(rows), a.ep, a.p).outcome == Reinforced {
      SpansDisjoint(rows, rows', key);
    } else if FindLive(rows, key).None? {
      FirstDisjoint(rows, rows', key);
    } else {
      var c := LiveCurrent(rows, key);
      if PlanFor(OnlyRows(rows), a.ep, a.p).outcome == Superseding {
        SupersedeDisjoint(rows, rows', key, c);
      } else if Disjoint(rows, key) {
        BackfillOverlaps(rows, a, key);
      } else {
        StillOverlaps(rows, rows', key);
      }
    }
  }

  lemma LiveCurrent(rows: seq<Memory>, key: Key) returns (c: nat)
    requires Covered(rows, key) && FindLive(rows, key).Some?
    ensures CurrentRow(rows, key, c) && FindLive(rows, key) == Some(c)
  {
    assert Known(rows, key, FindLive(rows, key).value);
    c :| CurrentRow(rows, key, c);
    LiveIsCurrent(rows, key, c);
  }

  /** The rows of the key are the same, and valid at the same times. */
  ghost predicate SameSpans(rows: seq<Memory>, rows': seq<Memory>, key: Key) {
    forall i :: (Known(rows, key, i) <==> Known(rows', key, i)) &&
      (Known(rows, key, i) ==> rows'[i].validFrom == rows[i].validFrom && rows'[i].validTo == rows[i].validTo)
  }

  lemma SpansDisjoint(rows: seq<Memory>, rows': seq<Memory>, key: Key)
    requires SameSpans(rows, rows', key)
    ensures Disjoint(rows, key) <==> Disjoint(rows', key)
  {
    assert forall t, i :: Known(rows, key, i) ==> (rows[i].CurrentAt(t) <==> rows'[i].CurrentAt(t));
  }

  lemma FirstDisjoint(rows: seq<Memory>, rows': seq<Memory>, key: Key)
    requires Covered(rows, key) && FindLive(rows, key).None?
    requires |rows'| == |rows| + 1 && rows'[..|rows|] == rows
    ensures Disjoint(rows, key) && Disjoint(rows', key)
  {
    NoneLiveMeansUnknown(rows, key);
    forall i | 0 <= i < |rows| ensures !Known(rows', key, i) {
      assert rows'[i] == rows'[..|rows|][i] && !Known(rows, key, i);
    }
  }

  /** The current row never overlaps with another, closed or not: the others have ended by its start. */
  lemma SupersedeDisjoint(rows: seq<Memory>, rows': seq<Memory>, key: Key, c: nat)
    requires CurrentRow(rows, key, c)
    requires |rows'| == |rows| + 1 && (forall i :: 0 <= i < |rows| && i != c ==> rows'[i] == rows[i])
    requires var m := rows'[|rows|];
             && m.key == key && m.validTo.None? && rows[c].validFrom <= m.validFrom
             && rows'[c] == rows[c].(validTo := Some(m.validFrom), supersededBy := rows'[c].supersededBy)
    ensures Disjoint(rows, key) <==> Disjoint(rows', key)
  {
    var n := |rows|;
    assert forall i :: Known(rows', key, i) <==> Known(rows, key, i) || i == n;
    if Disjoint(rows, key) {
      forall t, i, j | Known(rows', key, i) && Known(rows', key, j) && rows'[i].CurrentAt(t) && rows'[j].CurrentAt(t)
        ensures i == j
      {
        assert i < n ==> rows[i].CurrentAt(t);
        assert j < n ==> rows[j].CurrentAt(t);
      }
    } else {
      var t, i, j :| Known(rows, key, i) && Known(rows, key, j) && rows[i].CurrentAt(t) && rows[j].CurrentAt(t) &&
        i != j;
      assert i != c && j != c;
      assert rows'[i].CurrentAt(t) && rows'[j].CurrentAt(t);
    }
  }

  lemma StillOverlaps(rows: seq<Memory>, rows': seq<Memory>, key: Key)
    requires !Disjoint(rows, key) && |rows| <= |rows'| && forall i :: 0 <= i < |rows| ==> rows'[i] == rows[i]
    ensures !Disjoint(rows', key)
  {
    var t, i, j :| Known(rows, key, i) && Known(rows, key, j) && rows[i].CurrentAt(t) && rows[j].CurrentAt(t) && i != j;
    assert Known(rows', key, i) && Known(rows', key, j) && rows'[i].CurrentAt(t) && rows'[j].CurrentAt(t);
  }

  /** Three assertions on a key, each disagreeing with the one before, the last to arrive starting between the other
      two: the history was free of overlaps, and now two rows are valid together. */
  lemma LateArrivalOverlaps(a: Arrival, b: Arrival, c: Arrival, key: Key)
    requires Supersedes(key.kind) && a.p.draft.key == b.p.draft.key == c.p.draft.key == key
    requires a.p.draft.validFrom < c.p.draft.validFrom < b.p.draft.validFrom
    requires !IsRestatement(AsStored(a), b.p.draft) && !IsRestatement(AsStored(b), c.p.draft)
    ensures Disjoint(CommitRows(CommitRows([], a), b), key)
    ensures !Disjoint(CommitRows(CommitRows(CommitRows([], a), b), c), key)
  {
    hide IsRestatement, PlanFor, CommitRows, FindLive;
    CommitRowsSteps([], a);
    var one := CommitRows([], a);
    FindLiveExact(one, key, 0);
    CommitRowsSteps(one, b);
    var two := CommitRows(one, b);
    FindLiveExact(two, key, 1);
    CommitRowsSteps(two, c);
    var three, t := CommitRows(two, c), c.p.draft.validFrom;
    assert Known(three, key, 0) && Known(three, key, 2) && three[0].CurrentAt(t) && three[2].CurrentAt(t);
  }

  /** A commit of one decision: who owns the service, from when on. */
  function OwnerCall(who: string, from: int): Call {
    Call(Episode(who, "acme", who, who, "wiki", "", "", "", ["all"], from, from),
         [Proposal(Draft(Key("acme", Decision, "owner"), "owner", who + " owns the service", map["owner" := who], [],
                         Unset, 1.0, 1.0, from, from, ["all"], from), "", "broad")], 0)
  }

  lemma OwnersDisagree(a: string, b: string, x: int, y: int)
    requires |a| == 1 && |b| == 1 && !IsSpace(a[0]) && !IsSpace(b[0]) && Lower(a[0]) != Lower(b[0])
    ensures !IsRestatement(AsStored(Arrival(OwnerCall(a, x).ep, OwnerCall(a, x).ps[0])), OwnerCall(b, y).ps[0].draft)
  {
    hide StatementSimilarity;
    assert TrimSpace(a) == a && TrimSpace(b) == b;
    assert ToLower(a)[0] != ToLower(b)[0];
    assert Contradicts(map["owner" := a], map["owner" := b]) by {
      assert "owner" in map["owner" := a] && "owner" in map["owner" := b];
    }
  }

  /** Three commits into an empty store, of decisions that start at 0, 10 and 5, leave two owners valid at 5. */
  lemma CommitsCanOverlap()
    ensures var calls := [OwnerCall("a", 0), OwnerCall("b", 10), OwnerCall("c", 5)];
            var key := Key("acme", Decision, "owner");
            Disjoint(After(EMPTY, calls[..2]).rows, key) && !Disjoint(After(EMPTY, calls).rows, key)
  {
    hide CommitRows, Commit, IsRestatement, Disjoint, After;
    var calls, key := [OwnerCall("a", 0), OwnerCall("b", 10), OwnerCall("c", 5)], Key("acme", Decision, "owner");
    var a := Arrival(calls[0].ep, calls[0].ps[0]);
    var b := Arrival(calls[1].ep, calls[1].ps[0]);
    var c := Arrival(calls[2].ep, calls[2].ps[0]);
    OwnersDisagree("a", "b", 0, 10);
    OwnersDisagree("b", "c", 10, 5);
    LateArrivalOverlaps(a, b, c, key);
    RunReplays(EMPTY, calls[..2]);
    RunReplays(EMPTY, calls);
    ThreeArrivals(calls);
    ReplaysThree(a, b, c);
  }

  lemma ThreeArrivals(calls: seq<Call>)
    requires |calls| == 3 && forall i :: 0 <= i < 3 ==> |calls[i].ps| == 1
    ensures var a := seq(3, i requires 0 <= i < 3 => Arrival(calls[i].ep, calls[i].ps[0]));
            Arrivals(calls) == [a[0], a[1], a[2]] && Arrivals(calls[..2]) == [a[0], a[1]]
  {
    assert calls[..2][..1] == calls[..1] && calls[..1][..0] == [];
    assert Arrivals([]) == [];
    assert Arrivals(calls[..1]) == [] + ArrivalsOf(calls[0].ep, calls[0].ps);
    assert Arrivals(calls[..2]) == Arrivals(calls[..1]) + ArrivalsOf(calls[1].ep, calls[1].ps);
  }

  lemma ReplaysThree(a: Arrival, b: Arrival, c: Arrival)
    ensures Replay([], [a, b]) == CommitRows(CommitRows([], a), b)
    ensures Replay([], [a, b, c]) == CommitRows(CommitRows(CommitRows([], a), b), c)
  {
    hide CommitRows;
    ReplayOne([], a);
    assert [a, b][..1] == [a] && [a, b, c][..2] == [a, b];
  }

  // ---- from the verifier into the store ----

  /** The proposal the pipeline makes of an accepted candidate. */
  function ProposalOf(c: Candidate, ep: Episode, now: int): Proposal {
    Proposal(Draft(Key(ep.tenant, c.kind, c.topic), c.topicRaw, c.statement, c.attributes, c.subjects, c.taskStatus,
                   c.confidence, 1.0, c.validFrom, now, ep.acl, ep.occurredAt),
             c.quote, match c.pass case Broad => "broad" case Detail => "detail" case Merged => "merged")
  }

  function ProposalsOf(cs: seq<Candidate>, ep: Episode, now: int): seq<Proposal> {
    seq(|cs|, i requires 0 <= i < |cs| => ProposalOf(cs[i], ep, now))
  }

  /** Field by field: the candidate on the episode's tenant, readable by the episode's groups, last seen when the
      episode was said, with full salience. */
  lemma ProposalInFull(cs: seq<Candidate>, ep: Episode, now: int, k: nat)
    requires k < |cs|
    ensures |ProposalsOf(cs, ep, now)| == |cs|
    ensures var p, c := ProposalsOf(cs, ep, now)[k], cs[k];
            var d := p.draft;
            && d.key == Key(ep.tenant, c.kind, c.topic) && d.topicRaw == c.topicRaw && d.statement == c.statement
            && d.attributes == c.attributes && d.subjects == c.subjects && d.taskStatus == c.taskStatus
            && d.confidence == c.confidence && d.salience == 1.0 && d.validFrom == c.validFrom && d.ingestedAt == now
            && d.acl == ep.acl && d.lastSeen == ep.occurredAt && p.quote == c.quote
            && p.pass == (if c.pass == Broad then "broad" else if c.pass == Detail then "detail" else "merged")
  {
  }

  lemma {:induction false} CommitAllSnoc(db: Db, ep: Episode, ps: seq<Proposal>)
    requires ps != []
    ensures CommitAll(db, ep, ps) == CommitOne(CommitAll(db, ep, ps[..|ps| - 1]), ep, ps[|ps| - 1])
    decreases |ps|
  {
    hide CommitOne;
    var n := |ps| - 1;
    if n > 0 {
      CommitAllSnoc(CommitOne(db, ep, ps[0]), ep, ps[1..]);
      assert ps[1..][..n - 1] == ps[..n][1..];
    } else {
      assert ps[..0] == [] && ps[1..] == [];
    }
  }

  /** Every row added so far says what one of the first k proposals said, on its key. */
  ghost predicate AddedBy(rows: seq<Memory>, n: nat, ps: seq<Proposal>, k: nat)
    requires k <= |ps|
  {
    forall i :: n <= i < |rows| ==>
      exists j :: 0 <= j < k && ps[j].draft.key == rows[i].key && ps[j].draft.statement == rows[i].statement
  }

  lemma {:induction false} CommitAddsProposals(db: Db, ep: Episode, ps: seq<Proposal>, k: nat)
    requires k <= |ps|
    ensures var rows := CommitAll(db, ep, ps[..k]).rows; |db.rows| <= |rows| && AddedBy(rows, |db.rows|, ps, k)
  {
    hide IsRestatement, PlanFor, CommitRows, MergeStrings, MergeAttrs, FindLive, CommitOne;
    if k > 0 {
      var p := ps[k - 1];
      var mid := CommitAll(db, ep, ps[..k - 1]);
      CommitAddsProposals(db, ep, ps, k - 1);
      CommitAllSnoc(db, ep, ps[..k]);
      assert ps[..k][..k - 1] == ps[..k - 1];
      RowsSuffice(mid, ep, p);
      CommitRowsSteps(mid.rows, Arrival(ep, p));
      var rows := CommitAll(db, ep, ps[..k]).rows;
      assert rows == CommitRows(mid.rows, Arrival(ep, p));
      forall i | |db.rows| <= i < |rows|
        ensures exists j :: 0 <= j < k && ps[j].draft.key == rows[i].key && ps[j].draft.statement == rows[i].statement
      {
        if i < |mid.rows| {
          assert rows[i].key == mid.rows[i].key && rows[i].statement == mid.rows[i].statement;
        }
      }
    }
  }

  /** Committing what the verifier accepted from one episode never reinforces a row the same commit inserted: two
      accepted candidates on a key are less than 0.7 similar, and reinforcement needs 0.8. */
  lemma NeverReinforcesItself(db: Db, ep: Episode, cs: seq<Candidate>, screen: Candidate -> Screen, now: int, k: nat)
    requires k < |Verified(cs, screen).accepted|
    ensures var ps := ProposalsOf(Verified(cs, screen).accepted, ep, now);
            var plan := PlanFor(CommitAll(db, ep, ps[..k]), ep, ps[k]);
            plan.outcome == Reinforced ==> plan.id < |db.rows|
  {
    hide StatementSimilarity, CommitAll, Verified;
    var accepted := Verified(cs, screen).accepted;
    var ps := ProposalsOf(accepted, ep, now);
    var mid := CommitAll(db, ep, ps[..k]);
    var plan := PlanFor(mid, ep, ps[k]);
    AcceptedAreDistinct(cs, screen);
    CommitAddsProposals(db, ep, ps, k);
    if plan.outcome == Reinforced {
      assert mid.rows[plan.id].key == ps[k].draft.key && IsRestatement(mid.rows[plan.id], ps[k].draft);
      forall j | 0 <= j < k && ps[j].draft.key == ps[k].draft.key
        ensures ps[j].draft.statement != mid.rows[plan.id].statement
      {
        assert !Restates(accepted[j], accepted[k]);
      }
    }
  }
}
