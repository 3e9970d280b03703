/** store/maintenance.go and the document invalidation of store/query.go: decay, consolidation, source deletion. */
module Maintaining {
  import opened Text
  import opened Records
  import opened Topic
  import opened Database
  import opened Committing

  // ---- decay ----

  /** One pending write of a decay sweep. */
  datatype DecayWrite = DecayWrite(id: nat, salience: real, archive: bool)

  function AsStmt(u: DecayWrite): Stmt {
    WriteDecay(u.id, u.salience, u.archive)
  }

  function Writes(updates: seq<DecayWrite>): seq<Stmt> {
    seq(|updates|, i requires 0 <= i < |updates| => AsStmt(updates[i]))
  }

  function CountArchived(updates: seq<DecayWrite>): nat {
    if updates == [] then 0
    else CountArchived(updates[..|updates| - 1]) + (if updates[|updates| - 1].archive then 1 else 0)
  }

  /** Decisions and instructions are never archived. */
  predicate Protected(k: Kind) {
    k == Decision || k == Instruction
  }

  /** Salience after decay; factor(kind, elapsed) is 0.5 to the power elapsed / half-life. */
  function Decayed(m: Memory, now: int, factor: (Kind, int) -> real): real {
    m.salience * factor(m.key.kind, now - m.lastSeen)
  }

  function Abs(x: real): real {
    if x < 0.0 then -x else x
  }

  /** What 0.5 to the power of a positive number is: between 0 and 1. */
  ghost predicate Fades(factor: (Kind, int) -> real) {
    forall k, e :: e > 0 ==> 0.0 < factor(k, e) < 1.0
  }

  /** What the sweep decides for one scanned row. */
  function DecayOf(id: nat, m: Memory, now: int, floor: real, factor: (Kind, int) -> real): Option<DecayWrite> {
    if now - m.lastSeen <= 0 then None
    else
      var decayed := Decayed(m, now, factor);
      if Abs(decayed - m.salience) < 0.001 then None
      else Some(DecayWrite(id, decayed, decayed < floor && !Protected(m.key.kind)))
  }

  /** The updates a sweep collects from the rows below n. */
  function Sweep(rows: seq<Memory>, tenant: string, now: int, floor: real, factor: (Kind, int) -> real, n: nat)
    : seq<DecayWrite>
    requires n <= |rows|
  {
    if n == 0 then []
    else
      var prior, m := Sweep(rows, tenant, now, floor, factor, n - 1), rows[n - 1];
      var u := DecayOf(n - 1, m, now, floor, factor);
      if m.key.tenant == tenant && m.Live() && u.Some? then prior + [u.value] else prior
  }

  function Floor(floor: real): real {
    if floor <= 0.0 then 0.15 else floor
  }

  /** How many rows below n a sweep looks at: the tenant's live ones. */
  function CountScanned(rows: seq<Memory>, tenant: string, n: nat): nat
    requires n <= |rows|
  {
    if n == 0 then 0
    else CountScanned(rows, tenant, n - 1) + (if rows[n - 1].key.tenant == tenant && rows[n - 1].Live() then 1 else 0)
  }

  method ScanForDecay(rows: seq<Memory>, tenant: string, now: int, floor: real, factor: (Kind, int) -> real)
    returns (updates: seq<DecayWrite>, scanned: nat)
    ensures updates == Sweep(rows, tenant, now, Floor(floor), factor, |rows|)
    ensures scanned == CountScanned(rows, tenant, |rows|) && |updates| <= scanned
  {
    var limit := floor;
    if limit <= 0.0 {
      limit := 0.15;
    }
    updates, scanned := [], 0;
    for id := 0 to |rows|
      invariant updates == Sweep(rows, tenant, now, limit, factor, id)
      invariant scanned == CountScanned(rows, tenant, id) && |updates| <= scanned
    {
      var m := rows[id];
      if m.key.tenant != tenant || !m.Live() {
        continue;
      }
      scanned := scanned + 1;
      var elapsed := now - m.lastSeen;
      if elapsed <= 0 {
        continue;
      }
      var decayed := Decayed(m, now, factor);
      if Abs(decayed - m.salience) < 0.001 {
        continue;
      }
      var u := DecayWrite(id, decayed, decayed < limit && !Protected(m.key.kind));
      updates := updates + [u];
    }
  }

  /** A row after a whole sweep. */
  function DecayedRow(id: nat, m: Memory, tenant: string, now: int, floor: real, factor: (Kind, int) -> real): Memory {
    var u := DecayOf(id, m, now, floor, factor);
    if m.key.tenant == tenant && m.Live() && u.Some? then m.(salience := u.value.salience, archived := u.value.archive)
    else m
  }

  /** A sweep that nothing interrupts decays every row by itself: the tenant's live rows get their decayed salience and
      are archived below the floor unless protected, all others stay. */
  lemma {:induction false} SweepIsPointwise(db: Db, tenant: string, now: int, floor: real,
                                            factor: (Kind, int) -> real, n: nat)
    requires n <= |db.rows|
    ensures var db' := Run(db, Writes(Sweep(db.rows, tenant, now, floor, factor, n)));
            && |db'.rows| == |db.rows| && db' == db.(rows := db'.rows)
            && forall i :: 0 <= i < |db.rows| ==>
                 db'.rows[i] == if i < n then DecayedRow(i, db.rows[i], tenant, now, floor, factor) else db.rows[i]
  {
    hide Decayed, Abs, Run, DecayOf;
    if n == 0 {
      assert Writes([]) == [];
      assert Run(db, []) == db by { RunNothing(db); }
    } else {
      SweepIsPointwise(db, tenant, now, floor, factor, n - 1);
      var prior, m := Sweep(db.rows, tenant, now, floor, factor, n - 1), db.rows[n - 1];
      var u := DecayOf(n - 1, m, now, floor, factor);
      if m.key.tenant == tenant && m.Live() && u.Some? {
        assert u.value.id == n - 1 by { DecaysOwnRow(n - 1, m, now, floor, factor); }
        WritesSnoc(db, prior, u.value);
        DecayUpdatesOne(Run(db, Writes(prior)), u.value);
      }
    }
  }

  lemma RunNothing(db: Db)
    ensures Run(db, []) == db
  {
  }

  lemma DecaysOwnRow(id: nat, m: Memory, now: int, floor: real, factor: (Kind, int) -> real)
    ensures var u := DecayOf(id, m, now, floor, factor); u.Some? ==> u.value.id == id
  {
  }

  lemma DecayUpdatesOne(db: Db, u: DecayWrite)
    requires u.id < |db.rows|
    ensures Apply(db, AsStmt(u)) ==
            db.(rows := db.rows[u.id := db.rows[u.id].(salience := u.salience, archived := u.archive)])
  {
    UpdatesOne(db, AsStmt(u), u.id);
  }

  lemma WritesSnoc(db: Db, updates: seq<DecayWrite>, u: DecayWrite)
    ensures Run(db, Writes(updates + [u])) == Apply(Run(db, Writes(updates)), AsStmt(u))
  {
    hide Apply, AsStmt;
    assert Writes(updates + [u]) == Writes(updates) + [AsStmt(u)];
    RunAppend(db, Writes(updates), [AsStmt(u)]);
    var mid := Run(db, Writes(updates));
    assert Run(mid, [AsStmt(u)]) == Run(Apply(mid, AsStmt(u)), []);
  }

  // ---- consolidation ----

  /** A row as the group scan read it. */
  datatype Member = Member(id: nat, row: Memory)

  datatype Group = Group(key: Key, members: seq<Member>)

  /** The group scan's COUNT: live rows on the key. */
  function CountLive(rows: seq<Memory>, key: Key): nat {
    if rows == [] then 0
    else
      var n := |rows| - 1;
      CountLive(rows[..n], key) + (if rows[n].Live() && rows[n].key == key then 1 else 0)
  }

  lemma {:induction false} CountLiveFinds(rows: seq<Memory>, key: Key) returns (i: nat)
    requires CountLive(rows, key) > 0
    ensures i < |rows| && rows[i].Live() && rows[i].key == key
  {
    var n := |rows| - 1;
    if rows[n].Live() && rows[n].key == key {
      i := n;
    } else {
      i := CountLiveFinds(rows[..n], key);
    }
  }

  lemma {:induction false} CountLiveAtMostOne(rows: seq<Memory>, key: Key)
    requires OneLive(rows) && Supersedes(key.kind)
    ensures CountLive(rows, key) <= 1
  {
    if rows != [] {
      var n := |rows| - 1;
      CountLiveAtMostOne(rows[..n], key);
      if CountLive(rows[..n], key) > 0 {
        var i := CountLiveFinds(rows[..n], key);
        assert !(rows[n].Live() && rows[n].key == key);
      }
    }
  }

  function MinSize(minSize: int): int {
    if minSize < 2 then 5 else minSize
  }

  /** Search as FindConsolidationGroups calls it: the tenant's unarchived rows of the kind, valid now, on the topic
      normalized once more; on any topic when the topic is blank. */
  predicate SearchMatches(m: Memory, key: Key, now: int) {
    && m.key.tenant == key.tenant && m.key.kind == key.kind && !m.archived && m.CurrentAt(now)
    && (key.topic != "" ==> m.key.topic == NormalizeTopic(key.topic))
  }

  /** The first query of FindConsolidationGroups lists the key. */
  predicate Counted(rows: seq<Memory>, minSize: int, key: Key) {
    CountLive(rows, key) >= MinSize(minSize)
  }

  /** Its second query, for a key listed, reads the members of g. */
  ghost predicate Reads(rows: seq<Memory>, minSize: int, now: int, g: Group) {
    && MinSize(minSize) <= |g.members| <= 100
    && (forall i, j :: 0 <= i < j < |g.members| ==> g.members[i].id != g.members[j].id)
    && (forall i :: 0 <= i < |g.members| ==>
          var m := g.members[i];
          m.id < |rows| && rows[m.id] == m.row && SearchMatches(m.row, g.key, now))
  }

  /** g is a group FindConsolidationGroups can return: its key was listed in one state, its members read in another. */
  ghost predicate Finds(listed: seq<Memory>, rows: seq<Memory>, minSize: int, now: int, g: Group) {
    Counted(listed, minSize, g.key) && Reads(rows, minSize, now, g)
  }

  /** No superseding key is ever listed: under the index it has no two live rows. */
  lemma ListedAreEvents(rows: seq<Memory>, minSize: int, key: Key)
    requires OneLive(rows) && Counted(rows, minSize, key)
    ensures key.kind == Event
  {
    if Supersedes(key.kind) {
      CountLiveAtMostOne(rows, key);
      assert false;
    }
  }

  /** Only events ever accumulate: every group found is a group of events. */
  lemma GroupsAreEvents(listed: seq<Memory>, rows: seq<Memory>, minSize: int, now: int, g: Group)
    requires OneLive(listed) && Finds(listed, rows, minSize, now, g)
    ensures g.key.kind == Event && forall i :: 0 <= i < |g.members| ==> g.members[i].row.key.kind == Event
  {
    hide NormalizeTopic, Counted;
    ListedAreEvents(listed, minSize, g.key);
  }

  /** The members found for a topic are on that topic exactly when its key normalizes to itself; for a key that does
      not, such as "cluster-dns", the group holds the memories of another topic. */
  lemma GroupIsOnItsKeyIff(listed: seq<Memory>, rows: seq<Memory>, minSize: int, now: int, g: Group)
    requires Finds(listed, rows, minSize, now, g) && g.key.topic != ""
    ensures (forall i :: 0 <= i < |g.members| ==> g.members[i].row.key == g.key) <==>
            NormalizeTopic(g.key.topic) == g.key.topic
  {
    hide NormalizeTopic, Counted;
    assert rows[g.members[0].id] == g.members[0].row && SearchMatches(g.members[0].row, g.key, now);
  }

  function Ids(members: seq<Member>): set<nat> {
    set m | m in members :: m.id
  }

  /** In every member's group list, as written. */
  predicate InAll(x: string, members: seq<Member>) {
    forall m :: m in members ==> x in m.row.acl
  }

  /** sharedACLGroups. */
  function SharedAcl(members: seq<Member>): seq<string> {
    if members == [] then [] else MergeStrings(SharedRaw(members), [])
  }

  /** The first member's groups that every member has. */
  function SharedRaw(members: seq<Member>): seq<string>
    requires members != []
  {
    Keep(members[0].row.acl, members)
  }

  function Keep(xs: seq<string>, members: seq<Member>): seq<string> {
    if xs == [] then []
    else (if InAll(xs[0], members) then [xs[0]] else []) + Keep(xs[1..], members)
  }

  lemma {:induction false} KeepExact(xs: seq<string>, members: seq<Member>, x: string)
    ensures x in Keep(xs, members) <==> x in xs && InAll(x, members)
  {
    if xs != [] {
      KeepExact(xs[1..], members, x);
      assert xs == [xs[0]] + xs[1..];
    }
  }

  /** The summary's groups are exactly the trimmed, non-blank groups common to all members. */
  lemma SharedAclExact(members: seq<Member>, g: string)
    requires members != []
    ensures g in SharedAcl(members) <==> g != "" && exists x :: InAll(x, members) && TrimSpace(x) == g
  {
    hide InAll, TrimSpace, MergeStrings;
    var raw := SharedRaw(members);
    MergeStringsExact(raw, [], g);
    assert raw + [] == raw;
    forall x ensures x in raw <==> InAll(x, members) {
      KeepExact(members[0].row.acl, members, x);
      if InAll(x, members) {
        FirstHasAll(members, x);
      }
    }
  }

  lemma FirstHasAll(members: seq<Member>, x: string)
    requires members != [] && InAll(x, members)
    ensures x in members[0].row.acl
  {
    assert members[0] in members;
  }

  /** The order in which the shared groups come out of the set does not matter: mergeStrings sorts. */
  lemma MergeIgnoresOrder(a: seq<string>, b: seq<string>)
    requires Elements(a) == Elements(b)
    ensures MergeStrings(a, []) == MergeStrings(b, [])
  {
    hide MergeStrings, TrimSpace;
    var xs, ys := MergeStrings(a, []), MergeStrings(b, []);
    assert a + [] == a && b + [] == b;
    forall x ensures x in a <==> x in b {
      assert x in Elements(a) <==> x in Elements(b);
    }
    forall g ensures g in Elements(xs) <==> g in Elements(ys) {
      MergeStringsExact(a, [], g);
      MergeStringsExact(b, [], g);
    }
    MergeStringsExact(a, [], "");
    MergeStringsExact(b, [], "");
    SortedUnique(xs, ys);
  }

  /** The first member's groups that the members before position n all have. */
  ghost function Common(members: seq<Member>, n: nat): set<string>
    requires 1 <= n <= |members|
  {
    set g | g in members[0].row.acl && forall j :: 1 <= j < n ==> g in members[j].row.acl
  }

  lemma CommonNext(members: seq<Member>, n: nat)
    requires 1 <= n < |members|
    ensures Common(members, n + 1) == Common(members, n) * set g | g in members[n].row.acl
  {
  }

  method SharedAclGroups(members: seq<Member>) returns (out: seq<string>)
    ensures out == SharedAcl(members)
  {
    hide MergeStrings;
    if |members| == 0 {
      return [];
    }
    var shared: set<string> := set g | g in members[0].row.acl;
    for i := 1 to |members|
      invariant shared == Common(members, i)
    {
      var have := set g | g in members[i].row.acl;
      var rest := shared;
      while rest != {}
        invariant rest <= Common(members, i)
        invariant shared == (Common(members, i) - rest) * have + rest
        decreases rest
      {
        var g :| g in rest;
        rest := rest - {g};
        if g !in have {
          shared := shared - {g};
        }
      }
      CommonNext(members, i);
    }
    var listed := ListOf(shared);
    SharedAreKept(members, shared, listed);
    out := MergeLists(listed, []);
  }

  /** The elements of a set in some order. */
  method ListOf(s: set<string>) returns (xs: seq<string>)
    ensures Elements(xs) == s
  {
    xs := [];
    var rest := s;
    while rest != {}
      invariant rest <= s && Elements(xs) == s - rest
      decreases rest
    {
      var x :| x in rest;
      ghost var was := xs;
      xs := xs + [x];
      assert forall y :: y in xs <==> y in was || y == x;
      assert Elements(xs) == Elements(was) + {x};
      rest := rest - {x};
    }
  }

  lemma SharedAreKept(members: seq<Member>, shared: set<string>, listed: seq<string>)
    requires members != [] && Elements(listed) == shared
    requires forall g :: g in shared <==>
               g in members[0].row.acl && forall j :: 1 <= j < |members| ==> g in members[j].row.acl
    ensures MergeStrings(listed, []) == SharedAcl(members)
  {
    hide MergeStrings, Keep;
    var raw := SharedRaw(members);
    forall x ensures x in Elements(raw) <==> x in Elements(listed) {
      KeepExact(members[0].row.acl, members, x);
      if x in members[0].row.acl && (forall j :: 1 <= j < |members| ==> x in members[j].row.acl) {
        assert forall j :: 0 <= j < |members| ==> x in members[j].row.acl;
      }
      if InAll(x, members) {
        assert forall j :: 0 <= j < |members| ==> members[j] in members;
      }
    }
    MergeIgnoresOrder(listed, raw);
  }

  // ---- who can read a summary ----

  /** A reader sees a memory when they share a group. */
  predicate Sees(reader: set<string>, acl: seq<string>) {
    exists g :: g in acl && g in reader
  }

  /** Groups common to all members stay on all members when trimmed. */
  ghost predicate TrimmedGroupsShared(members: seq<Member>) {
    forall x :: InAll(x, members) && TrimSpace(x) != "" ==> InAll(TrimSpace(x), members)
  }

  /** Whoever can read the summary can read every member exactly when each common group, trimmed, is still a group of
      every member: the summary carries trimmed names, the members the names as they came. */
  lemma ReadersOfSummary(members: seq<Member>)
    requires members != []
    ensures (forall reader, m :: Sees(reader, SharedAcl(members)) && m in members ==> Sees(reader, m.row.acl)) <==>
            TrimmedGroupsShared(members)
  {
    hide SharedAcl, TrimSpace;
    if TrimmedGroupsShared(members) {
      forall reader, m | Sees(reader, SharedAcl(members)) && m in members ensures Sees(reader, m.row.acl) {
        var g :| g in SharedAcl(members) && g in reader;
        SharedAclExact(members, g);
      }
    } else {
      var x :| InAll(x, members) && TrimSpace(x) != "" && !InAll(TrimSpace(x), members);
      var m :| m in members && TrimSpace(x) !in m.row.acl;
      SharedAclExact(members, TrimSpace(x));
      assert Sees({TrimSpace(x)}, SharedAcl(members)) && !Sees({TrimSpace(x)}, m.row.acl);
    }
  }

  /** When sources write group names without surrounding blanks, every reader of the summary can read every member. */
  lemma CleanGroupsKeepPermissions(members: seq<Member>, reader: set<string>, m: Member)
    requires forall n, g :: n in members && g in n.row.acl ==> TrimSpace(g) == g
    requires Sees(reader, SharedAcl(members)) && m in members
    ensures Sees(reader, m.row.acl)
  {
    hide SharedAcl, TrimSpace;
    forall x | InAll(x, members) ensures TrimSpace(x) == x {
      assert members[0] in members;
    }
    ReadersOfSummary(members);
  }

  /** Blanks around a shared group name break that: the summary's reader sees neither member. */
  lemma UntrimmedGroupLeaks(m: Member, n: Member)
    requires m.row.acl == [" g"] && n.row.acl == [" g"]
    ensures Sees({"g"}, SharedAcl([m, n])) && !Sees({"g"}, m.row.acl)
  {
    hide MergeStrings;
    assert TrimSpace(" g") == "g" by {
      assert TrimLeft(" g", IsSpace) == TrimLeft("g", IsSpace) == "g";
    }
    assert InAll(" g", [m, n]);
    SharedAclExact([m, n], "g");
    assert "g" != " g";
  }

  /** The rest of the summary, as the summarizing model wrote it. */
  datatype Summary = Summary(topicRaw: string, statement: string, attributes: map<string, string>,
                             subjects: seq<string>, confidence: real, validFrom: int, ingestedAt: int)

  /** The confidence of a summary: what the model answered when that is in (0, 1], else that of the least certain
      member. */
  method SummaryConfidence(members: seq<Member>, answered: real) returns (c: real)
    ensures 0.0 < answered <= 1.0 ==> c == answered
    ensures !(0.0 < answered <= 1.0) ==>
              && (forall m :: m in members ==> c <= m.row.confidence)
              && (c == 1.0 || exists m :: m in members && c == m.row.confidence)
    ensures c <= 1.0 && ((forall m :: m in members ==> 0.0 <= m.row.confidence) ==> 0.0 <= c)
  {
    c := answered;
    if c <= 0.0 || c > 1.0 {
      c := 1.0;
      for i := 0 to |members|
        invariant c <= 1.0 && forall j :: 0 <= j < i ==> c <= members[j].row.confidence
        invariant c == 1.0 || exists m :: m in members && c == m.row.confidence
      {
        var m := members[i];
        if m.row.confidence < c {
          c := m.row.confidence;
        }
      }
    }
  }

  function Earliest(members: seq<Member>, from: int): int {
    if members == [] then from
    else Earliest(members[1..], if members[0].row.validFrom < from then members[0].row.validFrom else from)
  }

  function AllSubjects(members: seq<Member>, subjects: seq<string>): seq<string> {
    if members == [] then subjects else AllSubjects(members[1..], MergeStrings(subjects, members[0].row.subjects))
  }

  /** The row Consolidate inserts. */
  function SummaryRow(g: Group, s: Summary, closedAt: int): Memory
    requires g.members != []
  {
    var from := Earliest(g.members, if s.validFrom == 0 then g.members[0].row.validFrom else s.validFrom);
    Memory(g.key, s.topicRaw, s.statement, s.attributes, AllSubjects(g.members, s.subjects), Unset, s.confidence, 1.0,
           from, None, if s.ingestedAt == 0 then closedAt else s.ingestedAt, None, SharedAcl(g.members), closedAt,
           false)
  }

  function LedgerFor(members: seq<Member>, tenant: string, n: nat, closedAt: int): seq<Stmt> {
    if members == [] then []
    else [Record(Invalidation(tenant, members[0].id, Some(n), closedAt, Consolidated))] +
         LedgerFor(members[1..], tenant, n, closedAt)
  }

  datatype Refusal = TooFew | NoSharedGroup

  /** Consolidate: the originals are closed, the summary inserted, the originals linked to it, their citations
      inherited, and the closings recorded. */
  function ConsolidatePlan(n: nat, g: Group, s: Summary, closedAt: int): Result<seq<Stmt>, Refusal> {
    if |g.members| < 2 then Err(TooFew)
    else if SharedAcl(g.members) == [] then Err(NoSharedGroup)
    else
      var ids := Ids(g.members);
      Ok([CloseOpen(ids, closedAt), InsertRow(SummaryRow(g, s, closedAt)), LinkRows(ids, n), InheritCitations(n, ids)] +
         LedgerFor(g.members, g.key.tenant, n, closedAt))
  }

  // ---- source deletion ----

  /** Rows that cite an episode of the document. */
  function CitersOf(db: Db, tenant: string, document: string): set<nat> {
    set k | k in db.provenance && k.1 in db.episodes &&
      db.episodes[k.1].tenant == tenant && db.episodes[k.1].document == document :: k.0
  }

  /** Does the row cite an episode of another document? */
  predicate HasOtherSource(db: Db, row: nat, document: string) {
    exists k :: k in db.provenance && k.0 == row && k.1 in db.episodes && db.episodes[k.1].document != document
  }

  /** Open rows of the tenant whose whole provenance came from the document. */
  function Orphans(db: Db, tenant: string, document: string): set<nat> {
    set r | r in CitersOf(db, tenant, document) && r < |db.rows| && db.rows[r].key.tenant == tenant &&
      db.rows[r].validTo.None? && !HasOtherSource(db, r, document)
  }

  /** One ledger line per citing row below n, whether or not the row was closed. */
  function DeletionLedger(ids: set<nat>, tenant: string, at: int, n: nat): seq<Stmt> {
    if n == 0 then []
    else DeletionLedger(ids, tenant, at, n - 1) +
         (if n - 1 in ids then [Record(Invalidation(tenant, n - 1, None, at, SourceDeleted))] else [])
  }

  /** Closes the given rows and records every citer below n; nothing when no row cites the document. */
  function ClosePlan(open: set<nat>, citers: set<nat>, tenant: string, at: int, n: nat): seq<Stmt> {
    if citers == {} then [] else [CloseOpen(open, at)] + DeletionLedger(citers, tenant, at, n)
  }

  /** InvalidateByDocument without purge. */
  function InvalidatePlan(db: Db, tenant: string, document: string, at: int): seq<Stmt> {
    ClosePlan(Orphans(db, tenant, document), CitersOf(db, tenant, document), tenant, at, |db.rows|)
  }

  /** stmts are ledger lines that name each row of ids below n once, in order, and no other row. */
  ghost predicate NamesEach(stmts: seq<Stmt>, ids: set<nat>, tenant: string, at: int, n: nat) {
    && (forall k :: 0 <= k < |stmts| ==> stmts[k].Record?)
    && (forall k :: 0 <= k < |stmts| ==> stmts[k].inv.row < n && stmts[k].inv.row in ids)
    && (forall k :: 0 <= k < |stmts| ==>
          stmts[k].inv == Invalidation(tenant, stmts[k].inv.row, None, at, SourceDeleted))
    && (forall j, k :: 0 <= j < k < |stmts| ==> stmts[j].inv.row < stmts[k].inv.row)
    && (forall r :: r in ids && r < n ==> exists k :: 0 <= k < |stmts| && stmts[k].inv.row == r)
  }

  lemma {:induction false} DeletionLedgerExact(ids: set<nat>, tenant: string, at: int, n: nat)
    ensures NamesEach(DeletionLedger(ids, tenant, at, n), ids, tenant, at, n)
  {
    hide NamesEach;
    if n == 0 {
      NamesNone(ids, tenant, at);
    } else {
      DeletionLedgerExact(ids, tenant, at, n - 1);
      NamesNext(DeletionLedger(ids, tenant, at, n - 1), ids, tenant, at, n - 1);
    }
  }

  lemma NamesNone(ids: set<nat>, tenant: string, at: int)
    ensures NamesEach([], ids, tenant, at, 0)
  {
  }

  lemma NamesNext(prior: seq<Stmt>, ids: set<nat>, tenant: string, at: int, n: nat)
    requires NamesEach(prior, ids, tenant, at, n)
    ensures NamesEach(prior + (if n in ids then [Record(Invalidation(tenant, n, None, at, SourceDeleted))] else []),
                      ids, tenant, at, n + 1)
  {
    var stmts := prior + (if n in ids then [Record(Invalidation(tenant, n, None, at, SourceDeleted))] else []);
    forall r | r in ids && r < n + 1 ensures exists k :: 0 <= k < |stmts| && stmts[k].inv.row == r {
      if r < n {
        var k :| 0 <= k < |prior| && prior[k].inv.row == r;
        assert stmts[k].inv.row == r;
      } else {
        assert stmts[|prior|].inv.row == r;
      }
    }
  }

  lemma {:induction false} RecordsOnlyLog(db: Db, stmts: seq<Stmt>)
    requires forall k :: 0 <= k < |stmts| ==> stmts[k].Record?
    ensures Run(db, stmts) == db.(ledger := Run(db, stmts).ledger)
    decreases |stmts|
  {
    if stmts != [] {
      RecordsOnlyLog(Apply(db, stmts[0]), stmts[1..]);
    }
  }

  /** After a source deletion no open memory is left whose sources all lie in the document; every memory that was one
      ends at the given time, and nothing else about any row, citation or episode changes. */
  lemma DeletionClosesOrphans(db: Db, tenant: string, document: string, at: int)
    ensures var db', gone := Run(db, InvalidatePlan(db, tenant, document, at)), Orphans(db, tenant, document);
            && Orphans(db', tenant, document) == {}
            && db' == db.(rows := db'.rows, ledger := db'.ledger)
            && |db'.rows| == |db.rows|
            && forall r :: 0 <= r < |db.rows| ==>
                 db'.rows[r] == if r in gone then db.rows[r].(validTo := Some(at)) else db.rows[r]
  {
    hide HasOtherSource, CitersOf;
    var plan := InvalidatePlan(db, tenant, document, at);
    var ids := CitersOf(db, tenant, document);
    if ids != {} {
      var db1 := Apply(db, plan[0]);
      DeletionLedgerExact(ids, tenant, at, |db.rows|);
      assert plan[1..] == DeletionLedger(ids, tenant, at, |db.rows|);
      RecordsOnlyLog(db1, plan[1..]);
      SameSources(db, Run(db, plan), tenant, document);
    }
  }

  /** Deleting its documents one by one never closes a memory that has two: each deletion still counts the other
      document as a source. */
  lemma TwoSourcesOutliveBoth(db: Db, r: nat, tenant: string, a: string, b: string, at: int, later: int,
                              k: (nat, string), l: (nat, string))
    requires r < |db.rows| && k.0 == r && l.0 == r && a != b
    requires k in db.provenance && k.1 in db.episodes && db.episodes[k.1].document == a
    requires l in db.provenance && l.1 in db.episodes && db.episodes[l.1].document == b
    ensures var once := Run(db, InvalidatePlan(db, tenant, a, at));
            var twice := Run(once, InvalidatePlan(once, tenant, b, later));
            r < |twice.rows| && twice.rows[r] == db.rows[r]
  {
    hide Run, InvalidatePlan, CitersOf;
    DeletionClosesOrphans(db, tenant, a, at);
    var once := Run(db, InvalidatePlan(db, tenant, a, at));
    DeletionClosesOrphans(once, tenant, b, later);
    assert HasOtherSource(db, r, a) && HasOtherSource(once, r, b);
  }

  // ---- deleting source after source ----

  datatype Removal = Removal(document: string, at: int)

  /** The tenant's documents are deleted one after the other. */
  function AfterRemovals(db: Db, tenant: string, removals: seq<Removal>): Db {
    if removals == [] then db
    else
      var mid, d := AfterRemovals(db, tenant, removals[..|removals| - 1]), removals[|removals| - 1];
      Run(mid, InvalidatePlan(mid, tenant, d.document, d.at))
  }

  /** When the removals end the row: at the time of the first whose document alone supports it. */
  function EndOf(db: Db, tenant: string, removals: seq<Removal>, r: nat): Option<int> {
    if removals == [] then None
    else
      var n := |removals| - 1;
      var before := EndOf(db, tenant, removals[..n], r);
      if before.None? && r in Orphans(db, tenant, removals[n].document) then Some(removals[n].at) else before
  }

  /** Some removal ends the row exactly when it is an orphan of some removed document. */
  lemma {:induction false} EndIff(db: Db, tenant: string, removals: seq<Removal>, r: nat)
    ensures EndOf(db, tenant, removals, r).Some? <==>
            exists k :: 0 <= k < |removals| && r in Orphans(db, tenant, removals[k].document)
  {
    hide Orphans;
    if removals != [] {
      var n := |removals| - 1;
      EndIff(db, tenant, removals[..n], r);
      assert forall k :: 0 <= k < n ==> removals[..n][k] == removals[k];
      if k :| 0 <= k < |removals| && r in Orphans(db, tenant, removals[k].document) {
        assert k < n ==> r in Orphans(db, tenant, removals[..n][k].document);
      }
    }
  }

  /** After any deletions: a row that one of the deleted documents alone supported ends at the time of the first such
      deletion, and every other row, every citation and every episode is as it was. */
  lemma {:induction false} RemovalsExact(db: Db, tenant: string, removals: seq<Removal>, r: nat)
    requires r < |db.rows|
    ensures var db', end := AfterRemovals(db, tenant, removals), EndOf(db, tenant, removals, r);
            && |db'.rows| == |db.rows| && db' == db.(rows := db'.rows, ledger := db'.ledger)
            && db'.rows[r] == if end.None? then db.rows[r] else db.rows[r].(validTo := end)
    ensures EndOf(db, tenant, removals, r).Some? ==> db.rows[r].validTo.None?
  {
    hide Run, InvalidatePlan, Orphans, CitersOf, HasOtherSource;
    if removals != [] {
      var n := |removals| - 1;
      var mid, d := AfterRemovals(db, tenant, removals[..n]), removals[n];
      RemovalsExact(db, tenant, removals[..n], r);
      DeletionClosesOrphans(mid, tenant, d.document, d.at);
      OrphansStay(db, mid, tenant, d.document, r);
    }
  }

  /** With the same citations and episodes, a row is an orphan of a document as long as it is open. */
  lemma OrphansStay(db: Db, db': Db, tenant: string, document: string, r: nat)
    requires db'.provenance == db.provenance && db'.episodes == db.episodes && r < |db.rows| == |db'.rows|
    requires db'.rows[r] == db.rows[r].(validTo := db'.rows[r].validTo)
    ensures db.rows[r].validTo.None? ==>
              (r in Orphans(db', tenant, document) <==>
                 r in Orphans(db, tenant, document) && db'.rows[r].validTo.None?)
    ensures db'.rows[r].validTo.Some? ==> r !in Orphans(db', tenant, document)
    ensures r in Orphans(db, tenant, document) ==> db.rows[r].validTo.None?
    ensures db'.rows[r] == db.rows[r] ==> (r in Orphans(db', tenant, document) <==> r in Orphans(db, tenant, document))
  {
    hide CitersOf, HasOtherSource;
    SameSources(db, db', tenant, document);
  }

  /** Deleting documents closes an open memory exactly when one of them alone supported it. */
  lemma RemovalsCloseIff(db: Db, tenant: string, removals: seq<Removal>, r: nat)
    requires r < |db.rows| && db.rows[r].validTo.None?
    ensures var db' := AfterRemovals(db, tenant, removals);
            && r < |db'.rows|
            && (db'.rows[r].validTo.Some? <==>
                exists k :: 0 <= k < |removals| && r in Orphans(db, tenant, removals[k].document))
  {
    hide Orphans, AfterRemovals;
    RemovalsExact(db, tenant, removals, r);
    EndIff(db, tenant, removals, r);
  }

  /** The documents of the known episodes the row cites. */
  function SourcesOf(db: Db, r: nat): set<string> {
    set k | k in db.provenance && k.0 == r && k.1 in db.episodes :: db.episodes[k.1].document
  }

  /** A memory survives the deletion, one by one, of all the documents it came from, unless there is just one: it is
      closed in the end exactly when it has a single source. */
  lemma AllRemovedClosesIff(db: Db, tenant: string, removals: seq<Removal>, r: nat)
    requires r < |db.rows| && db.rows[r].validTo.None? && db.rows[r].key.tenant == tenant
    requires forall k :: k in db.provenance && k.0 == r && k.1 in db.episodes ==> db.episodes[k.1].tenant == tenant
    requires forall d :: d in SourcesOf(db, r) ==> exists k :: 0 <= k < |removals| && removals[k].document == d
    ensures var db' := AfterRemovals(db, tenant, removals);
            r < |db'.rows| && (db'.rows[r].validTo.Some? <==> |SourcesOf(db, r)| == 1)
  {
    hide AfterRemovals, Orphans;
    RemovalsCloseIff(db, tenant, removals, r);
    forall d ensures r in Orphans(db, tenant, d) <==> SourcesOf(db, r) == {d} {
      OrphanIff(db, tenant, d, r);
    }
    if |SourcesOf(db, r)| == 1 {
      var d :| d in SourcesOf(db, r);
      OnlyElement(SourcesOf(db, r), d);
      var k :| 0 <= k < |removals| && removals[k].document == d;
      assert r in Orphans(db, tenant, removals[k].document);
    }
  }

  lemma OnlyElement(s: set<string>, x: string)
    requires x in s && |s| == 1
    ensures s == {x}
  {
    assert |s - {x}| == 0;
  }

  /** An open row of the tenant is an orphan of a document exactly when that is its one source. */
  lemma OrphanIff(db: Db, tenant: string, document: string, r: nat)
    requires r < |db.rows| && db.rows[r].validTo.None? && db.rows[r].key.tenant == tenant
    requires forall k :: k in db.provenance && k.0 == r && k.1 in db.episodes ==> db.episodes[k.1].tenant == tenant
    ensures r in Orphans(db, tenant, document) <==> SourcesOf(db, r) == {document}
  {
    if r in Orphans(db, tenant, document) {
      var k :| k in db.provenance && k.1 in db.episodes && db.episodes[k.1].tenant == tenant &&
        db.episodes[k.1].document == document && k.0 == r;
      assert db.episodes[k.1].document in SourcesOf(db, r);
      forall d | d in SourcesOf(db, r) ensures d == document {
        assert !HasOtherSource(db, r, document);
      }
    }
    if SourcesOf(db, r) == {document} {
      assert document in SourcesOf(db, r);
      var k :| k in db.provenance && k.0 == r && k.1 in db.episodes && db.episodes[k.1].document == document;
      assert r in CitersOf(db, tenant, document);
      forall l | l in db.provenance && l.0 == r && l.1 in db.episodes ensures db.episodes[l.1].document == document {
        assert db.episodes[l.1].document in SourcesOf(db, r);
      }
    }
  }

  lemma SameSources(db: Db, db': Db, tenant: string, document: string)
    requires db'.provenance == db.provenance && db'.episodes == db.episodes
    ensures CitersOf(db', tenant, document) == CitersOf(db, tenant, document)
    ensures forall r :: HasOtherSource(db', r, document) == HasOtherSource(db, r, document)
  {
  }

  /** A deletion closes rows and writes ledger lines, nothing else. */
  lemma DeletionStmts(db: Db, tenant: string, document: string, at: int, s: Stmt)
    requires s in InvalidatePlan(db, tenant, document, at)
    ensures s.CloseOpen? || s.Record?
  {
    hide Orphans;
    var ids := CitersOf(db, tenant, document);
    var lines := DeletionLedger(ids, tenant, at, |db.rows|);
    DeletionLedgerExact(ids, tenant, at, |db.rows|);
    if !s.CloseOpen? {
      var k :| 0 <= k < |lines| && lines[k] == s;
      assert lines[k].Record?;
    }
  }
}
