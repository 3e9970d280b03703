/** What every transaction keeps: one live row per key, acyclic links, a ledger that matches the links, citations, and
    summaries that say no more than their members. */
module History {
  import opened Text
  import opened Records
  import opened Database
  import opened Maintaining

  // ---- links ----

  /** Stamps rise along every link, until an open row: the stamp of a row is the moment it was closed. */
  ghost predicate Stamped(rows: seq<Memory>, stamp: seq<nat>) {
    && |stamp| == |rows|
    && forall i :: 0 <= i < |rows| && rows[i].supersededBy.Some? ==>
         var s := rows[i].supersededBy.value;
         s < |rows| && (rows[s].validTo.None? || stamp[i] < stamp[s])
  }

  ghost predicate Acyclic(rows: seq<Memory>) {
    exists stamp: seq<nat> :: Stamped(rows, stamp)
  }

  /** Following superseded_by from row i comes to a row without a successor within n steps. */
  predicate EndsWithin(rows: seq<Memory>, i: nat, n: nat)
    decreases n
  {
    i < |rows| && (rows[i].supersededBy.None? || (n > 0 && EndsWithin(rows, rows[i].supersededBy.value, n - 1)))
  }

  /** Only closed rows have a successor. */
  predicate Linked(m: Memory) {
    m.supersededBy.Some? ==> m.validTo.Some?
  }

  /** From every row the links lead, without ever cycling, to a row that has no successor. */
  lemma LinksEnd(rows: seq<Memory>, i: nat) returns (n: nat)
    requires Acyclic(rows) && (forall k :: 0 <= k < |rows| ==> Linked(rows[k])) && i < |rows|
    ensures EndsWithin(rows, i, n)
  {
    var stamp :| Stamped(rows, stamp);
    var top := AboveAll(stamp);
    n := LinksEndBelow(rows, stamp, top, i);
  }

  lemma {:induction false} LinksEndBelow(rows: seq<Memory>, stamp: seq<nat>, top: nat, i: nat) returns (n: nat)
    requires Stamped(rows, stamp) && (forall k :: 0 <= k < |rows| ==> Linked(rows[k])) && i < |rows|
    requires forall k :: 0 <= k < |stamp| ==> stamp[k] < top
    ensures EndsWithin(rows, i, n)
    decreases rows[i].validTo.Some?, top - stamp[i]
  {
    if rows[i].supersededBy.None? {
      n := 0;
    } else {
      var m := LinksEndBelow(rows, stamp, top, rows[i].supersededBy.value);
      n := m + 1;
    }
  }

  lemma {:induction false} AboveAll(stamp: seq<nat>) returns (top: nat)
    ensures forall k :: 0 <= k < |stamp| ==> stamp[k] < top
  {
    if stamp == [] {
      top := 0;
    } else {
      var t := AboveAll(stamp[..|stamp| - 1]);
      var last := stamp[|stamp| - 1];
      top := if last < t then t else last + 1;
      forall k | 0 <= k < |stamp| ensures stamp[k] < top {
        if k < |stamp| - 1 { assert stamp[k] == stamp[..|stamp| - 1][k]; }
      }
    }
  }

  // ---- the ledger ----

  predicate Names(e: Invalidation, r: nat, s: nat) {
    e.row == r && e.successor == Some(s)
  }

  /** Ledger lines saying that s took over from r. */
  function CountNaming(ledger: seq<Invalidation>, r: nat, s: nat): nat {
    if ledger == [] then 0
    else CountNaming(ledger[..|ledger| - 1], r, s) + (if Names(ledger[|ledger| - 1], r, s) then 1 else 0)
  }

  lemma {:induction false} CountNamingNone(ledger: seq<Invalidation>, r: nat, s: nat)
    requires forall k :: 0 <= k < |ledger| ==> !Names(ledger[k], r, s)
    ensures CountNaming(ledger, r, s) == 0
  {
    if ledger != [] {
      CountNamingNone(ledger[..|ledger| - 1], r, s);
    }
  }

  lemma CountNamingSnoc(ledger: seq<Invalidation>, e: Invalidation, r: nat, s: nat)
    ensures CountNaming(ledger + [e], r, s) == CountNaming(ledger, r, s) + (if Names(e, r, s) then 1 else 0)
  {
    assert (ledger + [e])[..|ledger|] == ledger;
  }

  /** Lines that name no successor, or only event rows, leave the count of a pair alone. */
  lemma {:induction false} CountNamingOthers(ledger: seq<Invalidation>, more: seq<Invalidation>, r: nat, s: nat)
    requires forall k :: 0 <= k < |more| ==> !Names(more[k], r, s)
    ensures CountNaming(ledger + more, r, s) == CountNaming(ledger, r, s)
    decreases |more|
  {
    if more == [] {
      assert ledger + more == ledger;
    } else {
      var init, e := more[..|more| - 1], more[|more| - 1];
      assert ledger + more == (ledger + init) + [e];
      CountNamingOthers(ledger, init, r, s);
      CountNamingSnoc(ledger + init, e, r, s);
    }
  }

  /** The line is about rows that exist, both events or neither. */
  predicate LineInRange(rows: seq<Memory>, e: Invalidation) {
    && e.row < |rows|
    && (e.successor.Some? ==>
          e.successor.value < |rows| && (rows[e.row].key.kind == Event <==> rows[e.successor.value].key.kind == Event))
  }

  ghost predicate LedgerInRange(db: Db) {
    forall k :: 0 <= k < |db.ledger| ==> LineInRange(db.rows, db.ledger[k])
  }

  /** A state row and its successor: the one ends where the other begins, on one key, and exactly one ledger line says
      so, with that same end. */
  ghost predicate Pair(db: Db, r: nat, s: nat)
    requires r < |db.rows| && s < |db.rows|
  {
    && db.rows[s].key == db.rows[r].key
    && db.rows[r].validTo == Some(db.rows[s].validFrom)
    && CountNaming(db.ledger, r, s) == 1
    && forall k :: 0 <= k < |db.ledger| && Names(db.ledger[k], r, s) ==>
         db.ledger[k].validTo == db.rows[s].validFrom
  }

  ghost predicate Paired(db: Db) {
    && (forall r :: 0 <= r < |db.rows| && Supersedes(db.rows[r].key.kind) && db.rows[r].supersededBy.Some? ==>
          db.rows[r].supersededBy.value < |db.rows| && Pair(db, r, db.rows[r].supersededBy.value))
  }

  // ---- citations ----

  ghost predicate CitesInRange(db: Db) {
    && (forall k :: k in db.provenance ==> k.0 < |db.rows|)
    && (forall r :: 0 <= r < |db.rows| ==> Episodes(db, r) != {})
  }

  // ---- summaries ----

  /** The rows the ledger says were folded into row s. */
  ghost function FoldedInto(ledger: seq<Invalidation>, s: nat): set<nat> {
    set k | 0 <= k < |ledger| && ledger[k].successor == Some(s) :: ledger[k].row
  }

  /** Group x, as written, is on every member row. */
  ghost predicate OnAll(x: string, rows: seq<Memory>, members: set<nat>) {
    forall r :: r in members ==> r < |rows| && x in rows[r].acl
  }

  /** acl holds exactly the trimmed non-blank groups that all the members carry. */
  ghost predicate CommonGroups(acl: seq<string>, rows: seq<Memory>, members: set<nat>) {
    forall g :: g in acl <==>
      g != "" && exists x :: OnAll(x, rows, members) && TrimSpace(x) == g
  }

  /** A summary cites exactly what its members cite, and is visible to exactly their common groups. */
  ghost predicate FaithfulSummary(db: Db, s: nat)
    requires s < |db.rows|
  {
    var members := FoldedInto(db.ledger, s);
    members != {} ==>
      Episodes(db, s) == EpisodesOf(db, members) && CommonGroups(db.rows[s].acl, db.rows, members)
  }

  ghost predicate FaithfulSummaries(db: Db) {
    forall s :: 0 <= s < |db.rows| && db.rows[s].key.kind == Event ==> FaithfulSummary(db, s)
  }

  // ---- the invariant ----

  /** What holds after every single statement. */
  ghost predicate Sound(rows: seq<Memory>) {
    && OneLive(rows)
    && forall i :: 0 <= i < |rows| ==> Linked(rows[i]) && (rows[i].archived ==> !Protected(rows[i].key.kind))
  }

  /** What holds whenever no transaction is half done. */
  ghost predicate Inv(db: Db) {
    && Sound(db.rows)
    && Acyclic(db.rows)
    && LedgerInRange(db)
    && Paired(db)
    && CitesInRange(db)
    && FaithfulSummaries(db)
  }

  /** The check constraints hold on every row. */
  ghost predicate Checked(rows: seq<Memory>) {
    forall i :: 0 <= i < |rows| ==> RowOk(rows[i])
  }

  // ---- history is only ever added to ----

  /** b has everything a has, with the same values. */
  predicate Extends(a: map<string, string>, b: map<string, string>) {
    forall k :: k in a ==> k in b && b[k] == a[k]
  }

  /** m' is a later state of m: what it asserts and when it began never change, no attribute changes its value or goes
      away, confidence never falls, an end once set stays, a state row's successor stays, and an event keeps its
      groups. */
  predicate RowGrows(m: Memory, m': Memory) {
    && m'.key == m.key && m'.statement == m.statement && m'.validFrom == m.validFrom && m'.taskStatus == m.taskStatus
    && m'.topicRaw == m.topicRaw && m'.ingestedAt == m.ingestedAt
    && Extends(m.attributes, m'.attributes) && m.confidence <= m'.confidence && m.lastSeen <= m'.lastSeen
    && (m.validTo.Some? ==> m'.validTo == m.validTo)
    && (m.supersededBy.Some? ==> m'.supersededBy.Some?)
    && (m.supersededBy.Some? && Supersedes(m.key.kind) ==> m'.supersededBy == m.supersededBy)
    && (m.key.kind == Event ==> m'.acl == m.acl)
  }

  /** Every episode of a stays, with its tenant and document. */
  predicate SourcesStay(a: map<string, Episode>, b: map<string, Episode>) {
    forall k :: k in a ==> k in b && b[k].tenant == a[k].tenant && b[k].document == a[k].document
  }

  /** db' is a later state of db. */
  ghost predicate Grows(db: Db, db': Db) {
    && |db.rows| <= |db'.rows|
    && (forall i :: 0 <= i < |db.rows| ==> RowGrows(db.rows[i], db'.rows[i]))
    && |db.ledger| <= |db'.ledger| && db'.ledger[..|db.ledger|] == db.ledger
    && db.provenance.Keys <= db'.provenance.Keys
    && (forall k :: k in db'.provenance && k.0 < |db.rows| && db.rows[k.0].key.kind == Event ==> k in db.provenance)
    && db.ingest.Keys <= db'.ingest.Keys
    && SourcesStay(db.episodes, db'.episodes)
  }

  lemma GrowsReflexive(db: Db)
    ensures Grows(db, db)
  {
    assert db.ledger[..|db.ledger|] == db.ledger;
  }

  lemma GrowsTransitive(a: Db, b: Db, c: Db)
    requires Grows(a, b) && Grows(b, c)
    ensures Grows(a, c)
  {
    assert c.ledger[..|a.ledger|] == c.ledger[..|b.ledger|][..|a.ledger|];
    forall i | 0 <= i < |a.rows| ensures RowGrows(a.rows[i], c.rows[i]) {
      assert RowGrows(a.rows[i], b.rows[i]) && RowGrows(b.rows[i], c.rows[i]);
    }
  }
}
