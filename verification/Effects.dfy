/** What each writing operation leaves behind, field by field, in terms of the rows it found and what it was given. */
module Effects {
  import opened Text
  import opened Records
  import opened Similarity
  import Topic
  import opened Database
  import opened Committing
  import opened Maintaining
  import opened History
  import opened Transactions

  // ---- commitOne ----

  /** Row c is what is current on the key. */
  ghost predicate Current(rows: seq<Memory>, key: Key, c: nat) {
    c < |rows| && rows[c].key == key && rows[c].validTo.None? && !rows[c].archived
  }

  /** No shared attribute differs but in case and surrounding blanks, a task has the same status, and at least eight
      tenths of the content words of both statements are shared. */
  ghost predicate SaysTheSame(m: Memory, d: Draft) {
    && (forall k :: k in m.attributes && k in d.attributes ==>
          ToLower(TrimSpace(m.attributes[k])) == ToLower(TrimSpace(d.attributes[k])))
    && (d.key.kind == Task ==> m.taskStatus == d.taskStatus)
    && var a, b := ContentWords(m.statement), ContentWords(d.statement);
       a != {} && b != {} && 10 * |a * b| >= 8 * |a + b|
  }

  /** Row c is current, and the draft disagrees with it. */
  ghost predicate Contested(rows: seq<Memory>, d: Draft, c: nat) {
    Current(rows, d.key, c) && !SaysTheSame(rows[c], d)
  }

  lemma SameIff(m: Memory, d: Draft)
    ensures IsRestatement(m, d) <==> SaysTheSame(m, d)
  {
    hide ContentWords, TrimSpace, ToLower;
    var a, b := ContentWords(m.statement), ContentWords(d.statement);
    JaccardAtLeast(a, b, 0.8);
  }

  /** Which of its four ways commitOne goes, and the id it reports. */
  lemma OutcomeIff(db: Db, ep: Episode, p: Proposal)
    requires OneLive(db.rows)
    ensures var plan, d := PlanFor(db, ep, p), p.draft;
            && (plan.outcome == Created <==> d.key.kind == Event || forall c: nat :: !Current(db.rows, d.key, c))
            && (plan.outcome == Reinforced <==>
                  d.key.kind != Event && exists c: nat :: Current(db.rows, d.key, c) && SaysTheSame(db.rows[c], d))
            && (plan.outcome == Backfill <==>
                  d.key.kind != Event &&
                  (exists c: nat :: Contested(db.rows, d, c) && d.validFrom < db.rows[c].validFrom))
            && (plan.outcome == Superseding <==>
                  d.key.kind != Event &&
                  (exists c: nat :: Contested(db.rows, d, c) && db.rows[c].validFrom <= d.validFrom))
            && (plan.outcome != Reinforced ==> plan.id == |db.rows|)
            && (plan.outcome == Reinforced ==> Current(db.rows, d.key, plan.id))
            && (plan.outcome == Superseding ==> plan.replaced.Some? && Current(db.rows, d.key, plan.replaced.value))
            && (plan.outcome != Superseding ==> plan.replaced.None?)
  {
    hide IsRestatement, SaysTheSame, FindLive, CreatePlan, ReinforcePlan, BackfillPlan, SupersedePlan, OneLive;
    var c := FindLive(db.rows, p.draft.key);
    PlanReports(db, ep, p);
    if c.Some? {
      SameIff(db.rows[c.value], p.draft);
    }
    if p.draft.key.kind != Event {
      forall i: nat ensures Current(db.rows, p.draft.key, i) <==> c == Some(i) {
        if i < |db.rows| { FindLiveExact(db.rows, p.draft.key, i); }
      }
    }
  }

  lemma PlanReports(db: Db, ep: Episode, p: Proposal)
    ensures var n, c := |db.rows|, FindLive(db.rows, p.draft.key);
            && CreatePlan(n, ep, p).outcome == Created && CreatePlan(n, ep, p).id == n
            && CreatePlan(n, ep, p).replaced.None?
            && (c.Some? ==>
                  var m := db.rows[c.value];
                  && ReinforcePlan(c.value, m, ep, p).outcome == Reinforced
                  && ReinforcePlan(c.value, m, ep, p).id == c.value && ReinforcePlan(c.value, m, ep, p).replaced.None?
                  && BackfillPlan(n, c.value, m, ep, p).outcome == Backfill
                  && BackfillPlan(n, c.value, m, ep, p).id == n && BackfillPlan(n, c.value, m, ep, p).replaced.None?
                  && SupersedePlan(n, c.value, ep, p).outcome == Superseding
                  && SupersedePlan(n, c.value, ep, p).id == n && SupersedePlan(n, c.value, ep, p).replaced == c)
  {
    hide Stored, Reinforcement, FindLive;
  }

  /** m is the row of the draft, with the defaults of a missing salience and a missing last sighting. */
  ghost predicate RowOf(m: Memory, d: Draft, validTo: Option<int>, successor: Option<nat>) {
    && m.key == d.key && m.topicRaw == d.topicRaw && m.statement == d.statement && m.attributes == d.attributes
    && m.subjects == d.subjects && m.taskStatus == d.taskStatus && m.confidence == d.confidence && m.acl == d.acl
    && m.validFrom == d.validFrom && m.ingestedAt == d.ingestedAt && !m.archived
    && (if d.salience == 0.0 then m.salience == 1.0 else m.salience == d.salience)
    && (if d.lastSeen == 0 then m.lastSeen == d.ingestedAt else m.lastSeen == d.lastSeen)
    && m.validTo == validTo && m.supersededBy == successor
  }

  /** The citations are as before but for (row, episode), which keeps its pass, and its quote when the new one is
      blank. */
  ghost predicate CitesToo(before: map<(nat, string), Citation>, after: map<(nat, string), Citation>, row: nat,
                           episode: string, quote: string, pass: string) {
    var k := (row, episode);
    && after.Keys == before.Keys + {k}
    && (forall l :: l in before && l != k ==> after[l] == before[l])
    && (k !in before ==> after[k].quote == quote && after[k].pass == pass)
    && (k in before ==>
          after[k].pass == before[k].pass && after[k].quote == (if quote == "" then before[k].quote else quote))
  }

  lemma CitesAsWritten(db: Db, row: nat, episode: string, quote: string, pass: string)
    ensures CitesToo(db.provenance, Cited(db, row, episode, quote, pass), row, episode, quote, pass)
  {
  }

  /** Nothing but rows, citations and ledger is touched. */
  ghost predicate BooksStay(db: Db, db': Db) {
    db'.episodes == db.episodes && db'.ingest == db.ingest
  }

  /** The first assertion on a key, and every event, becomes an open row of its own. */
  lemma CreatedInFull(db: Db, ep: Episode, p: Proposal)
    requires OneLive(db.rows) && (p.draft.key.kind == Event || forall c: nat :: !Current(db.rows, p.draft.key, c))
    ensures var db', n := CommitOne(db, ep, p), |db.rows|;
            && |db'.rows| == n + 1 && db'.rows[..n] == db.rows && RowOf(db'.rows[n], p.draft, None, None)
            && CitesToo(db.provenance, db'.provenance, n, ep.id, p.quote, p.pass)
            && db'.ledger == db.ledger && BooksStay(db, db')
  {
    hide PlanFor, CommitOne, SaysTheSame;
    OutcomeIff(db, ep, p);
    CreateShape(db, ep, p);
    CitesAsWritten(db, |db.rows|, ep.id, p.quote, p.pass);
  }

  /** g is the trimmed, non-blank form of something in one of the lists. */
  ghost predicate FromEither(g: string, a: seq<string>, b: seq<string>) {
    g != "" && exists x :: (x in a || x in b) && TrimSpace(x) == g
  }

  /** m' is row m after the draft restated it: every attribute of either, the old values winning; exactly the trimmed
      subjects and groups of both; the greater confidence; a quarter more salience, up to two; the later sighting;
      unarchived; and nothing else. */
  ghost predicate Reinforces(m: Memory, d: Draft, ep: Episode, m': Memory) {
    && m'.attributes.Keys == m.attributes.Keys + d.attributes.Keys
    && (forall k :: k in m.attributes ==> m'.attributes[k] == m.attributes[k])
    && (forall k :: k in d.attributes && k !in m.attributes ==> m'.attributes[k] == d.attributes[k])
    && (forall g :: g in m'.subjects <==> FromEither(g, m.subjects, d.subjects))
    && (forall g :: g in m'.acl <==> FromEither(g, m.acl, d.acl))
    && (if d.confidence > m.confidence then m'.confidence == d.confidence else m'.confidence == m.confidence)
    && (if m.salience + 0.25 < 2.0 then m'.salience == m.salience + 0.25 else m'.salience == 2.0)
    && (if ep.occurredAt > m.lastSeen then m'.lastSeen == ep.occurredAt else m'.lastSeen == m.lastSeen)
    && !m'.archived
    && m' == m.(attributes := m'.attributes, subjects := m'.subjects, acl := m'.acl, confidence := m'.confidence,
                salience := m'.salience, lastSeen := m'.lastSeen, archived := m'.archived)
  }

  lemma RowReinforces(m: Memory, d: Draft, ep: Episode)
    ensures Reinforces(m, d, ep, ReinforcedRow(m, d, ep))
  {
    hide MergeStrings, TrimSpace;
    forall g ensures g in MergeStrings(m.subjects, d.subjects) <==> FromEither(g, m.subjects, d.subjects) {
      MergedFromEither(m.subjects, d.subjects, g);
    }
    forall g ensures g in MergeStrings(m.acl, d.acl) <==> FromEither(g, m.acl, d.acl) {
      MergedFromEither(m.acl, d.acl, g);
    }
  }

  lemma MergedFromEither(a: seq<string>, b: seq<string>, g: string)
    ensures g in MergeStrings(a, b) <==> FromEither(g, a, b)
  {
    hide MergeStrings, TrimSpace;
    MergeStringsExact(a, b, g);
    assert forall x :: x in a + b <==> x in a || x in b;
  }

  /** A restatement of what is current reinforces that row and no other. */
  lemma ReinforcedInFull(db: Db, ep: Episode, p: Proposal, c: nat)
    requires OneLive(db.rows) && p.draft.key.kind != Event
    requires Current(db.rows, p.draft.key, c) && SaysTheSame(db.rows[c], p.draft)
    ensures var db' := CommitOne(db, ep, p);
            && |db'.rows| == |db.rows| && Reinforces(db.rows[c], p.draft, ep, db'.rows[c])
            && (forall i :: 0 <= i < |db.rows| && i != c ==> db'.rows[i] == db.rows[i])
            && CitesToo(db.provenance, db'.provenance, c, ep.id, p.quote, p.pass)
            && db'.ledger == db.ledger && BooksStay(db, db')
  {
    hide PlanFor, CommitOne, SaysTheSame, ReinforcedRow, FindLive;
    OutcomeIff(db, ep, p);
    ReinforceShape(db, ep, p);
    FindLiveExact(db.rows, p.draft.key, c);
    RowReinforces(db.rows[c], p.draft, ep);
    CitesAsWritten(db, c, ep.id, p.quote, p.pass);
  }

  /** Older news that disagrees is filed into history: a row that ends where the current one begins. */
  lemma BackfilledInFull(db: Db, ep: Episode, p: Proposal, c: nat)
    requires OneLive(db.rows) && p.draft.key.kind != Event
    requires Contested(db.rows, p.draft, c)
    requires p.draft.validFrom < db.rows[c].validFrom
    ensures var db', n := CommitOne(db, ep, p), |db.rows|;
            && |db'.rows| == n + 1 && db'.rows[..n] == db.rows
            && RowOf(db'.rows[n], p.draft, Some(db.rows[c].validFrom), Some(c))
            && CitesToo(db.provenance, db'.provenance, n, ep.id, p.quote, p.pass)
            && db'.ledger == db.ledger +
                 [Invalidation(p.draft.key.tenant, n, Some(c), db.rows[c].validFrom, Backfilled)]
            && BooksStay(db, db')
  {
    hide PlanFor, CommitOne, SaysTheSame, FindLive;
    OutcomeIff(db, ep, p);
    BackfillShape(db, ep, p);
    FindLiveExact(db.rows, p.draft.key, c);
    CitesAsWritten(db, |db.rows|, ep.id, p.quote, p.pass);
  }

  /** Newer news that disagrees replaces the current row, which ends where its successor begins. */
  lemma SupersededInFull(db: Db, ep: Episode, p: Proposal, c: nat)
    requires OneLive(db.rows) && p.draft.key.kind != Event
    requires Contested(db.rows, p.draft, c)
    requires db.rows[c].validFrom <= p.draft.validFrom
    ensures var db', n := CommitOne(db, ep, p), |db.rows|;
            && |db'.rows| == n + 1 && RowOf(db'.rows[n], p.draft, None, None)
            && db'.rows[c] == db.rows[c].(validTo := Some(p.draft.validFrom), supersededBy := Some(n))
            && (forall i :: 0 <= i < n && i != c ==> db'.rows[i] == db.rows[i])
            && CitesToo(db.provenance, db'.provenance, n, ep.id, p.quote, p.pass)
            && db'.ledger == db.ledger +
                 [Invalidation(p.draft.key.tenant, c, Some(n), p.draft.validFrom, Superseded)]
            && BooksStay(db, db')
  {
    hide PlanFor, CommitOne, SaysTheSame, FindLive;
    OutcomeIff(db, ep, p);
    SupersedeShape(db, ep, p);
    FindLiveExact(db.rows, p.draft.key, c);
    CitesAsWritten(db, |db.rows|, ep.id, p.quote, p.pass);
  }

  // ---- the books of a commit ----

  /** A commit takes its proposals in order, one after the other. */
  lemma {:induction false} CommitAllInOrder(db: Db, ep: Episode, ps: seq<Proposal>, k: nat)
    requires k < |ps|
    ensures CommitAll(db, ep, ps[..k + 1]) == CommitOne(CommitAll(db, ep, ps[..k]), ep, ps[k])
    decreases |ps|
  {
    hide CommitOne;
    if k == 0 {
      assert ps[..1] == [ps[0]] && ps[..0] == [] && [ps[0]][1..] == [];
      assert CommitAll(CommitOne(db, ep, ps[0]), ep, []) == CommitOne(db, ep, ps[0]);
    } else {
      CommitAllInOrder(CommitOne(db, ep, ps[0]), ep, ps[1..], k - 1);
      assert ps[..k + 1][1..] == ps[1..][..k] && ps[..k][1..] == ps[1..][..k - 1];
    }
  }

  lemma {:induction false} BooksWait(db: Db, ep: Episode, ps: seq<Proposal>)
    ensures BooksStay(db, CommitAll(db, ep, ps))
    decreases |ps|
  {
    hide CommitOne;
    if ps != [] {
      OneKeepsBooks(db, ep, ps[0]);
      BooksWait(CommitOne(db, ep, ps[0]), ep, ps[1..]);
    }
  }

  lemma OneKeepsBooks(db: Db, ep: Episode, p: Proposal)
    ensures BooksStay(db, CommitOne(db, ep, p))
  {
    hide PlanFor, CommitOne;
    match PlanFor(db, ep, p).outcome
    case Created => CreateShape(db, ep, p);
    case Reinforced => ReinforceShape(db, ep, p);
    case Backfill => BackfillShape(db, ep, p);
    case Superseding => SupersedeShape(db, ep, p);
  }

  /** An episode is stored as it came; one already there keeps what it is and takes over link, title, groups and time
      of arrival. The ingest log counts what each commit of the content added and rejected, under the first episode. */
  lemma CommitBooks(db: Db, ep: Episode, ps: seq<Proposal>, rejected: nat)
    ensures var db', k := Commit(db, ep, ps, rejected), (ep.tenant, ep.hash);
            && db'.episodes.Keys == db.episodes.Keys + {ep.id}
            && (forall e :: e in db.episodes && e != ep.id ==> db'.episodes[e] == db.episodes[e])
            && (ep.id !in db.episodes ==> db'.episodes[ep.id] == ep)
            && (ep.id in db.episodes ==>
                  db'.episodes[ep.id] ==
                  db.episodes[ep.id].(permalink := ep.permalink, title := ep.title, acl := ep.acl,
                                      ingestedAt := ep.ingestedAt))
            && db'.ingest.Keys == db.ingest.Keys + {k}
            && (forall l :: l in db.ingest && l != k ==> db'.ingest[l] == db.ingest[l])
            && (k !in db.ingest ==> db'.ingest[k] == Ingest(ep.id, |ps|, rejected))
            && (k in db.ingest ==>
                  db'.ingest[k] == Ingest(db.ingest[k].episode, db.ingest[k].added + |ps|,
                                          db.ingest[k].rejected + rejected))
  {
    hide CommitAll;
    BooksWait(Apply(db, SaveEpisode(ep)), ep, ps);
  }

  // ---- decay ----

  /** What a row's salience decays to. */
  ghost predicate DecaysTo(m: Memory, now: int, factor: (Kind, int) -> real, p: real) {
    p == m.salience * factor(m.key.kind, now - m.lastSeen)
  }

  /** The sweep has something to write for the row. */
  ghost predicate Moves(m: Memory, tenant: string, now: int, p: real) {
    && m.key.tenant == tenant && m.validTo.None? && !m.archived && now > m.lastSeen
    && (p - m.salience >= 0.001 || m.salience - p >= 0.001)
  }

  /** An uninterrupted sweep: every live row of the tenant whose salience moves by a thousandth gets the stored salience
      times the factor, and is archived exactly when that is below the floor (0.15 when none is given) and it is neither
      a decision nor an instruction; every other row is as it was. */
  lemma SweptInFull(db: Db, tenant: string, now: int, floor: real, factor: (Kind, int) -> real, i: nat, p: real)
    requires i < |db.rows| && DecaysTo(db.rows[i], now, factor, p)
    ensures var db' := Run(db, Writes(Sweep(db.rows, tenant, now, Floor(floor), factor, |db.rows|)));
            var m, limit := db.rows[i], if floor <= 0.0 then 0.15 else floor;
            && |db'.rows| == |db.rows| && db' == db.(rows := db'.rows)
            && (Moves(m, tenant, now, p) ==>
                  db'.rows[i] == m.(salience := p, archived := db'.rows[i].archived) &&
                  (db'.rows[i].archived <==> p < limit && m.key.kind != Decision && m.key.kind != Instruction))
            && (!Moves(m, tenant, now, p) ==> db'.rows[i] == m)
  {
    hide Run, Sweep;
    SweepIsPointwise(db, tenant, now, Floor(floor), factor, |db.rows|);
    assert Decayed(db.rows[i], now, factor) == p;
    hide Decayed;
  }

  /** A sweep never raises a salience, nor brings one below zero. */
  lemma SweepLowers(db: Db, tenant: string, now: int, floor: real, factor: (Kind, int) -> real, i: nat)
    requires i < |db.rows| && Fades(factor) && db.rows[i].salience >= 0.0
    ensures var db' := Run(db, Writes(Sweep(db.rows, tenant, now, Floor(floor), factor, |db.rows|)));
            |db'.rows| == |db.rows| && 0.0 <= db'.rows[i].salience <= db.rows[i].salience
  {
    hide Run, Sweep, Fades;
    var m := db.rows[i];
    var p := m.salience * factor(m.key.kind, now - m.lastSeen);
    SweptInFull(db, tenant, now, floor, factor, i, p);
    if now > m.lastSeen {
      FadesBetween(factor, m.key.kind, now - m.lastSeen);
      Shrinks(m.salience, factor(m.key.kind, now - m.lastSeen));
    }
  }

  lemma FadesBetween(factor: (Kind, int) -> real, k: Kind, e: int)
    requires Fades(factor) && e > 0
    ensures 0.0 < factor(k, e) < 1.0
  {
  }

  lemma Shrinks(x: real, y: real)
    requires x >= 0.0 && 0.0 < y < 1.0
    ensures 0.0 <= x * y <= x
  {
  }

  /** The positions below n of the tenant's live rows. */
  ghost function LiveOf(rows: seq<Memory>, tenant: string, n: nat): set<int>
    requires n <= |rows|
  {
    set i | 0 <= i < n && rows[i].key.tenant == tenant && rows[i].validTo.None? && !rows[i].archived
  }

  lemma LiveNext(rows: seq<Memory>, tenant: string, n: nat)
    requires n < |rows|
    ensures LiveOf(rows, tenant, n + 1) ==
            LiveOf(rows, tenant, n) +
            (if rows[n].key.tenant == tenant && rows[n].validTo.None? && !rows[n].archived then {n} else {})
    ensures n !in LiveOf(rows, tenant, n)
  {
  }

  /** What a sweep reports as scanned is the number of the tenant's live rows. */
  lemma {:induction false} ScannedIsLive(rows: seq<Memory>, tenant: string, n: nat)
    requires n <= |rows|
    ensures CountScanned(rows, tenant, n) == |LiveOf(rows, tenant, n)|
  {
    if n > 0 {
      ScannedIsLive(rows, tenant, n - 1);
      LiveNext(rows, tenant, n - 1);
      hide LiveOf;
    } else {
      assert LiveOf(rows, tenant, 0) == {};
    }
  }

  /** And as archived, the number of the writes made that archive. */
  lemma {:induction false} ArchivedIsCount(updates: seq<DecayWrite>)
    ensures CountArchived(updates) == |set k | 0 <= k < |updates| && updates[k].archive|
  {
    if updates != [] {
      var n := |updates| - 1;
      ArchivedIsCount(updates[..n]);
      var before := set k | 0 <= k < n && updates[..n][k].archive;
      var after := set k | 0 <= k < |updates| && updates[k].archive;
      if updates[n].archive {
        assert after == before + {n};
      } else {
        assert after == before;
      }
    }
  }

  // ---- ledger lines ----

  function Entries(stmts: seq<Stmt>): seq<Invalidation>
    requires forall k :: 0 <= k < |stmts| ==> stmts[k].Record?
  {
    seq(|stmts|, k requires 0 <= k < |stmts| => stmts[k].inv)
  }

  lemma {:induction false} RecordsAreLogged(db: Db, stmts: seq<Stmt>)
    requires forall k :: 0 <= k < |stmts| ==> stmts[k].Record?
    ensures Run(db, stmts) == db.(ledger := db.ledger + Entries(stmts))
    decreases |stmts|
  {
    if stmts != [] {
      RecordsAreLogged(Apply(db, stmts[0]), stmts[1..]);
      assert Entries(stmts) == [stmts[0].inv] + Entries(stmts[1..]);
      assert (db.ledger + [stmts[0].inv]) + Entries(stmts[1..]) == db.ledger + Entries(stmts);
    } else {
      assert db.ledger + Entries([]) == db.ledger;
    }
  }

  // ---- consolidation ----

  /** The start of a summary: the earliest of the members' starts and its own, when it has one. */
  ghost predicate StartsFirst(from: int, members: seq<Member>, given: int) {
    && (given != 0 ==> from <= given)
    && (forall m :: m in members ==> from <= m.row.validFrom)
    && ((given != 0 && from == given) || exists m :: m in members && from == m.row.validFrom)
  }

  /** g is the trimmed, non-blank form of a subject of the summary or of a member. */
  ghost predicate FromSubjects(g: string, members: seq<Member>, given: seq<string>) {
    g != "" && exists x :: TrimSpace(x) == g && (x in given || exists m :: m in members && x in m.row.subjects)
  }

  /** g is the trimmed, non-blank form of a group that every member has. */
  ghost predicate FromAll(g: string, members: seq<Member>) {
    g != "" && exists x :: TrimSpace(x) == g && forall m :: m in members ==> x in m.row.acl
  }

  /** m is the summary of the group as it is inserted. */
  ghost predicate Summarizes(m: Memory, g: Group, s: Summary, closedAt: int) {
    && m.key == g.key && m.topicRaw == s.topicRaw && m.statement == s.statement && m.attributes == s.attributes
    && m.taskStatus == Unset && m.confidence == s.confidence && m.salience == 1.0
    && StartsFirst(m.validFrom, g.members, s.validFrom) && m.validTo.None? && m.supersededBy.None?
    && (if s.ingestedAt == 0 then m.ingestedAt == closedAt else m.ingestedAt == s.ingestedAt)
    && m.lastSeen == closedAt && !m.archived
    && (forall x :: x in m.subjects <==> FromSubjects(x, g.members, s.subjects))
    && (forall x :: x in m.acl <==> FromAll(x, g.members))
  }

  lemma {:induction false} EarliestIsLeast(members: seq<Member>, from: int)
    ensures Earliest(members, from) <= from
    ensures forall m :: m in members ==> Earliest(members, from) <= m.row.validFrom
    ensures Earliest(members, from) == from || exists m :: m in members && Earliest(members, from) == m.row.validFrom
  {
    if members != [] {
      EarliestIsLeast(members[1..],
                      if members[0].row.validFrom < from then members[0].row.validFrom else from);
      assert members == [members[0]] + members[1..];
    }
  }

  lemma TrimTwice(x: string)
    ensures TrimSpace(TrimSpace(x)) == TrimSpace(x)
  {
    var from := TrimLeftCuts(x, IsSpace);
    var to := TrimRightCuts(x[from..], IsSpace);
    TrimClean(TrimSpace(x), IsSpace);
  }

  /** Merging list after list keeps the trimmed, non-blank subjects of all. */
  lemma {:induction false} SubjectsOfAll(members: seq<Member>, given: seq<string>, g: string)
    requires members != []
    ensures g in AllSubjects(members, given) <==> FromSubjects(g, members, given)
    decreases |members|
  {
    hide MergeStrings, TrimSpace;
    var m, rest := members[0], members[1..];
    var merged := MergeStrings(given, m.row.subjects);
    assert members == [m] + rest;
    forall x ensures x in merged <==> FromEither(x, given, m.row.subjects) {
      MergedFromEither(given, m.row.subjects, x);
    }
    if rest == [] {
      assert AllSubjects(members, given) == merged;
      OneMember(m, given, g);
    } else {
      SubjectsOfAll(rest, merged, g);
      assert AllSubjects(members, given) == AllSubjects(rest, merged);
      MembersMore(m, rest, given, merged, g);
    }
  }

  lemma OneMember(m: Member, given: seq<string>, g: string)
    ensures FromSubjects(g, [m], given) <==> FromEither(g, given, m.row.subjects)
  {
    hide TrimSpace;
    assert forall x :: (exists o :: o in [m] && x in o.row.subjects) <==> x in m.row.subjects by {
      assert m in [m];
    }
  }

  lemma MembersMore(m: Member, rest: seq<Member>, given: seq<string>, merged: seq<string>, g: string)
    requires forall x :: x in merged <==> FromEither(x, given, m.row.subjects)
    ensures FromSubjects(g, rest, merged) <==> FromSubjects(g, [m] + rest, given)
  {
    hide TrimSpace;
    var all := [m] + rest;
    assert forall o :: o in all <==> o == m || o in rest;
    if FromSubjects(g, rest, merged) {
      var x :| TrimSpace(x) == g && (x in merged || exists o :: o in rest && x in o.row.subjects);
      if x in merged {
        assert FromEither(x, given, m.row.subjects);
        var y :| (y in given || y in m.row.subjects) && TrimSpace(y) == x;
        TrimTwice(y);
        assert m in all;
        assert TrimSpace(y) == g;
      } else {
        var o :| o in rest && x in o.row.subjects;
        assert o in all;
      }
    }
    if FromSubjects(g, all, given) {
      var x :| TrimSpace(x) == g && (x in given || exists o :: o in all && x in o.row.subjects);
      if x in given || x in m.row.subjects {
        assert FromEither(g, given, m.row.subjects);
        TrimTwice(x);
        assert g in merged && TrimSpace(g) == g;
      } else {
        var o :| o in all && x in o.row.subjects;
        assert o in rest;
      }
    }
  }

  lemma SummaryRowIs(g: Group, s: Summary, closedAt: int)
    requires g.members != []
    ensures Summarizes(SummaryRow(g, s, closedAt), g, s, closedAt)
  {
    hide SharedAcl, AllSubjects, Earliest, TrimSpace;
    var from := if s.validFrom == 0 then g.members[0].row.validFrom else s.validFrom;
    EarliestIsLeast(g.members, from);
    assert g.members[0] in g.members;
    assert StartsFirst(Earliest(g.members, from), g.members, s.validFrom);
    forall x ensures x in AllSubjects(g.members, s.subjects) <==> FromSubjects(x, g.members, s.subjects) {
      SubjectsOfAll(g.members, s.subjects, x);
    }
    forall x ensures x in SharedAcl(g.members) <==> FromAll(x, g.members) {
      SharedFromAll(g.members, x);
    }
  }

  lemma SharedFromAll(members: seq<Member>, g: string)
    requires members != []
    ensures g in SharedAcl(members) <==> FromAll(g, members)
  {
    hide SharedAcl, TrimSpace;
    SharedAclExact(members, g);
    forall x ensures InAll(x, members) <==> forall m :: m in members ==> x in m.row.acl {
    }
  }

  /** It is refused exactly for fewer than two members, and when no group but blank ones is on all of them. */
  lemma RefusedIff(n: nat, g: Group, s: Summary, closedAt: int)
    ensures ConsolidatePlan(n, g, s, closedAt).Err? <==> |g.members| < 2 || forall x :: !FromAll(x, g.members)
  {
    hide SharedAcl, FromAll, SummaryRow, LedgerFor;
    if |g.members| >= 2 {
      forall x ensures x in SharedAcl(g.members) <==> FromAll(x, g.members) {
        SharedFromAll(g.members, x);
      }
      if SharedAcl(g.members) != [] {
        assert SharedAcl(g.members)[0] in SharedAcl(g.members);
      }
    }
  }

  /** Some member cites the episode. */
  ghost predicate MemberCites(db: Db, members: seq<Member>, episode: string) {
    exists m :: m in members && (m.id, episode) in db.provenance
  }

  /** One ledger line per member, in order. */
  ghost predicate FoldEntries(lines: seq<Invalidation>, g: Group, n: nat, closedAt: int) {
    && |lines| == |g.members|
    && forall k :: 0 <= k < |lines| ==>
         lines[k] == Invalidation(g.key.tenant, g.members[k].id, Some(n), closedAt, Consolidated)
  }

  /** A consolidation, on whatever the store has become since the group was read: the summary is the one new row; the
      members end at the closing time unless they had ended, and lead to the summary; the summary cites what they cite,
      each citation in a member's words; and there is one ledger line per member. */
  lemma ConsolidatedInFull(db: Db, g: Group, s: Summary, closedAt: int)
    requires Inv(db) && GroupOk(db.rows, g) && ConsolidatePlan(|db.rows|, g, s, closedAt).Ok?
    ensures var db', n := Run(db, ConsolidatePlan(|db.rows|, g, s, closedAt).value), |db.rows|;
            && |db'.rows| == n + 1 && Summarizes(db'.rows[n], g, s, closedAt)
            && (forall i :: 0 <= i < n ==>
                  if exists m :: m in g.members && m.id == i then
                    db'.rows[i] == db.rows[i].(validTo := db'.rows[i].validTo, supersededBy := Some(n)) &&
                    db'.rows[i].validTo == (if db.rows[i].validTo.None? then Some(closedAt) else db.rows[i].validTo)
                  else db'.rows[i] == db.rows[i])
            && BooksStay(db, db')
    ensures var db', n := Run(db, ConsolidatePlan(|db.rows|, g, s, closedAt).value), |db.rows|;
            && (forall k :: k in db'.provenance <==>
                  k in db.provenance || (k.0 == n && MemberCites(db, g.members, k.1)))
            && (forall k :: k in db.provenance ==> db'.provenance[k] == db.provenance[k])
            && (forall k :: k in db'.provenance && k.0 == n ==> InheritedFrom(db, g.members, k.1, db'.provenance[k]))
    ensures var db', n := Run(db, ConsolidatePlan(|db.rows|, g, s, closedAt).value), |db.rows|;
            && |db'.ledger| == |db.ledger| + |g.members| && db'.ledger[..|db.ledger|] == db.ledger
            && FoldEntries(db'.ledger[|db.ledger|..], g, n, closedAt)
  {
    hide Inv, GroupOk, ConsolidatePlan, SummaryRow, Summarizes, Run, Inherited, MemberCites, InheritedFrom;
    InvSplits(db);
    ConsolidationReplaces(db, g, s, closedAt);
    PlanHasMembers(|db.rows|, g, s, closedAt);
    SummaryRowIs(g, s, closedAt);
    forall i ensures i in Ids(g.members) <==> exists m :: m in g.members && m.id == i {
    }
    InvCites(db);
    ConsolidatedBooks(db, g, s, closedAt);
  }

  lemma PlanHasMembers(n: nat, g: Group, s: Summary, closedAt: int)
    requires ConsolidatePlan(n, g, s, closedAt).Ok?
    ensures |g.members| >= 2
  {
    hide SharedAcl, SummaryRow, LedgerFor;
  }

  /** A citation of the summary: the episode in the words of a member that cites it. */
  ghost predicate InheritedFrom(db: Db, members: seq<Member>, episode: string, c: Citation) {
    c.pass == "consolidated" &&
    exists m :: m in members && (m.id, episode) in db.provenance && c.quote == db.provenance[(m.id, episode)].quote
  }

  lemma {:induction false} InheritsQuote(db: Db, ids: set<nat>, episode: string, from: nat, r: nat)
    requires from <= r < |db.rows| && r in ids && (r, episode) in db.provenance
    ensures exists q :: q in ids && (q, episode) in db.provenance &&
              InheritedQuote(db, ids, episode, from) == db.provenance[(q, episode)].quote
    decreases |db.rows| - from
  {
    if !(from in ids && (from, episode) in db.provenance) {
      InheritsQuote(db, ids, episode, from + 1, r);
    }
  }

  lemma {:induction false} LedgerForEntries(members: seq<Member>, tenant: string, n: nat, closedAt: int)
    ensures var stmts := LedgerFor(members, tenant, n, closedAt);
            && |stmts| == |members|
            && forall k :: 0 <= k < |stmts| ==>
                 stmts[k] == Record(Invalidation(tenant, members[k].id, Some(n), closedAt, Consolidated))
  {
    if members != [] {
      LedgerForEntries(members[1..], tenant, n, closedAt);
    }
  }

  lemma InvCites(db: Db)
    requires Inv(db)
    ensures CitesInRange(db)
  {
  }

  lemma ConsolidatedBooks(db: Db, g: Group, s: Summary, closedAt: int)
    requires CitesInRange(db) && ConsolidatePlan(|db.rows|, g, s, closedAt).Ok?
    ensures var db', n := Run(db, ConsolidatePlan(|db.rows|, g, s, closedAt).value), |db.rows|;
            && (forall k :: k in db'.provenance <==>
                  k in db.provenance || (k.0 == n && MemberCites(db, g.members, k.1)))
            && (forall k :: k in db.provenance ==> db'.provenance[k] == db.provenance[k])
            && (forall k :: k in db'.provenance && k.0 == n ==> InheritedFrom(db, g.members, k.1, db'.provenance[k]))
            && |db'.ledger| == |db.ledger| + |g.members| && db'.ledger[..|db.ledger|] == db.ledger
            && FoldEntries(db'.ledger[|db.ledger|..], g, n, closedAt)
  {
    hide CitesInRange, SummaryRow, SharedAcl, Run, Inherited, MemberCites, InheritedFrom;
    var n, ids, plan := |db.rows|, Ids(g.members), ConsolidatePlan(|db.rows|, g, s, closedAt).value;
    var lines := LedgerFor(g.members, g.key.tenant, n, closedAt);
    LedgerForEntries(g.members, g.key.tenant, n, closedAt);
    var linked := Apply(Apply(Apply(db, CloseOpen(ids, closedAt)), InsertRow(SummaryRow(g, s, closedAt))),
                        LinkRows(ids, n));
    var first := [CloseOpen(ids, closedAt), InsertRow(SummaryRow(g, s, closedAt)), LinkRows(ids, n),
                  InheritCitations(n, ids)];
    LinkedTables(db, g, s, closedAt);
    assert plan == first + lines;
    hide Apply, ConsolidatePlan;
    assert plan[4..] == lines;
    FourThenLines(db, plan, lines);
    RecordsAreLogged(Apply(linked, InheritCitations(n, ids)), lines);
    SummaryCites(db, linked, g, n);
  }

  lemma LinkedTables(db: Db, g: Group, s: Summary, closedAt: int)
    requires g.members != []
    ensures var n, ids := |db.rows|, Ids(g.members);
            var linked := Apply(Apply(Apply(db, CloseOpen(ids, closedAt)), InsertRow(SummaryRow(g, s, closedAt))),
                                LinkRows(ids, n));
            && linked.provenance == db.provenance && |linked.rows| == n + 1 && linked.ledger == db.ledger
            && Apply(linked, InheritCitations(n, ids)).ledger == db.ledger
            && Apply(linked, InheritCitations(n, ids)).provenance == Inherited(linked, n, ids)
  {
    hide SummaryRow, Inherited, Updated;
  }

  lemma FourThenLines(db: Db, plan: seq<Stmt>, lines: seq<Stmt>)
    requires |plan| == 4 + |lines| && plan[4..] == lines
    ensures Run(db, plan) == Run(Apply(Apply(Apply(Apply(db, plan[0]), plan[1]), plan[2]), plan[3]), lines)
  {
    hide Apply;
    var first := plan[..4];
    assert plan == first + lines;
    RunAppend(db, first, lines);
    RunTwo(db, first[..2]);
    RunTwo(Run(db, first[..2]), first[2..]);
    assert first == first[..2] + first[2..];
    RunAppend(db, first[..2], first[2..]);
  }

  lemma SummaryCites(db: Db, linked: Db, g: Group, n: nat)
    requires CitesInRange(db) && n == |db.rows| && linked.provenance == db.provenance && |linked.rows| == n + 1
    ensures var after := Inherited(linked, n, Ids(g.members));
            && (forall k :: k in after <==> k in db.provenance || (k.0 == n && MemberCites(db, g.members, k.1)))
            && (forall k :: k in db.provenance ==> after[k] == db.provenance[k])
            && (forall k :: k in after && k.0 == n ==> InheritedFrom(db, g.members, k.1, after[k]))
  {
    hide Inherited, InheritedQuote;
    var ids, after := Ids(g.members), Inherited(linked, n, Ids(g.members));
    InheritedKeys(linked, n, ids);
    InheritedValues(linked, n, ids);
    forall e ensures e in EpisodesOf(linked, ids) <==> MemberCites(db, g.members, e) {
      EpisodesOfMembers(linked, g, e);
    }
    forall k | k in after && k.0 == n ensures InheritedFrom(db, g.members, k.1, after[k]) {
      var m :| m in g.members && (m.id, k.1) in db.provenance;
      InheritsQuote(linked, ids, k.1, 0, m.id);
      var q :| q in ids && (q, k.1) in linked.provenance &&
        InheritedQuote(linked, ids, k.1, 0) == linked.provenance[(q, k.1)].quote;
      var o :| o in g.members && o.id == q;
      assert (o.id, k.1) in db.provenance;
    }
  }

  lemma EpisodesOfMembers(db: Db, g: Group, e: string)
    ensures e in EpisodesOf(db, Ids(g.members)) <==> MemberCites(db, g.members, e)
  {
    if e in EpisodesOf(db, Ids(g.members)) {
      var k :| k in db.provenance && k.0 in Ids(g.members) && k.1 == e;
      var m :| m in g.members && m.id == k.0;
      assert (m.id, e) in db.provenance;
    }
    if MemberCites(db, g.members, e) {
      var m :| m in g.members && (m.id, e) in db.provenance;
      assert m.id in Ids(g.members) && (m.id, e).1 == e;
    }
  }

  lemma InheritedValues(db: Db, row: nat, ids: set<nat>)
    ensures var after := Inherited(db, row, ids);
            forall k :: k in after ==>
              after[k] == if k in db.provenance then db.provenance[k]
                          else Citation(InheritedQuote(db, ids, k.1, 0), "consolidated")
  {
    hide InheritedQuote;
  }

  // ---- the group scan ----

  ghost function OnKey(rows: seq<Memory>, key: Key): set<int> {
    set i | 0 <= i < |rows| && rows[i].key == key && rows[i].validTo.None? && !rows[i].archived
  }

  lemma {:induction false} CountLiveIsSize(rows: seq<Memory>, key: Key)
    ensures CountLive(rows, key) == |OnKey(rows, key)|
  {
    if rows != [] {
      var n := |rows| - 1;
      CountLiveIsSize(rows[..n], key);
      var before := OnKey(rows[..n], key);
      assert OnKey(rows, key) == before + if rows[n].Live() && rows[n].key == key then {n} else {};
      assert n !in before;
    } else {
      assert OnKey(rows, key) == {};
    }
  }

  /** m is a row of the key's tenant and kind that is not archived and valid at the time, on the topic normalized, or on
      any when the topic is blank. */
  ghost predicate Found(m: Memory, key: Key, now: int) {
    && m.key.tenant == key.tenant && m.key.kind == key.kind && !m.archived
    && m.validFrom <= now && (m.validTo.None? || now < m.validTo.value)
    && (key.topic == "" || m.key.topic == Topic.NormalizeTopic(key.topic))
  }

  /** The groups that can be found: the key had enough live rows when it was listed (five when fewer than two are asked
      for), and that many different rows, up to a hundred, were found when its members were read. */
  lemma FoundIff(listed: seq<Memory>, rows: seq<Memory>, minSize: int, now: int, g: Group)
    ensures var enough := if minSize < 2 then 5 else minSize;
            Finds(listed, rows, minSize, now, g) <==>
            && |OnKey(listed, g.key)| >= enough && enough <= |g.members| <= 100
            && (forall i, j :: 0 <= i < j < |g.members| ==> g.members[i].id != g.members[j].id)
            && (forall m :: m in g.members ==> m.id < |rows| && rows[m.id] == m.row && Found(m.row, g.key, now))
  {
    hide Topic.NormalizeTopic;
    CountLiveIsSize(listed, g.key);
    FoundEach(rows, now, g);
  }

  lemma FoundEach(rows: seq<Memory>, now: int, g: Group)
    ensures (forall i :: 0 <= i < |g.members| ==>
               var m := g.members[i];
               m.id < |rows| && rows[m.id] == m.row && SearchMatches(m.row, g.key, now)) <==>
            (forall m :: m in g.members ==> m.id < |rows| && rows[m.id] == m.row && Found(m.row, g.key, now))
  {
    hide Topic.NormalizeTopic;
  }

  // ---- source deletion ----

  /** The row cites an episode of the tenant's document. */
  ghost predicate CitesDocument(db: Db, r: nat, tenant: string, document: string) {
    exists e :: (r, e) in db.provenance && e in db.episodes && db.episodes[e].tenant == tenant &&
      db.episodes[e].document == document
  }

  /** And no known episode of any other document. */
  ghost predicate NoOtherDocument(db: Db, r: nat, document: string) {
    forall e :: (r, e) in db.provenance && e in db.episodes ==> db.episodes[e].document == document
  }

  /** The lines name each row below n that cites the document once, in order, closed or not, and nothing else. */
  ghost predicate NamesCiters(lines: seq<Invalidation>, db: Db, tenant: string, document: string, at: int, n: nat) {
    && (forall k :: 0 <= k < |lines| ==>
          && lines[k].tenant == tenant && lines[k].successor.None? && lines[k].validTo == at
          && lines[k].reason == SourceDeleted && lines[k].row < n && CitesDocument(db, lines[k].row, tenant, document))
    && (forall j, k :: 0 <= j < k < |lines| ==> lines[j].row < lines[k].row)
    && (forall r :: 0 <= r < n && CitesDocument(db, r, tenant, document) ==>
          exists k :: 0 <= k < |lines| && lines[k].row == r)
  }

  lemma CitersAre(db: Db, tenant: string, document: string, r: nat)
    ensures r in CitersOf(db, tenant, document) <==> CitesDocument(db, r, tenant, document)
    ensures HasOtherSource(db, r, document) <==> !NoOtherDocument(db, r, document)
  {
    if r in CitersOf(db, tenant, document) {
      var k :| k in db.provenance && k.1 in db.episodes && db.episodes[k.1].tenant == tenant &&
        db.episodes[k.1].document == document && k.0 == r;
      assert (r, k.1) == k;
    }
    if CitesDocument(db, r, tenant, document) {
      var e :| (r, e) in db.provenance && e in db.episodes && db.episodes[e].tenant == tenant &&
        db.episodes[e].document == document;
      assert (r, e).1 == e && (r, e).0 == r;
    }
    if HasOtherSource(db, r, document) {
      var k :| k in db.provenance && k.0 == r && k.1 in db.episodes && db.episodes[k.1].document != document;
      assert (r, k.1) == k;
    }
    if !NoOtherDocument(db, r, document) {
      var e :| (r, e) in db.provenance && e in db.episodes && db.episodes[e].document != document;
      assert (r, e).1 == e && (r, e).0 == r;
    }
  }

  /** What a deletion writes into the ledger, given who cited the document when it read. */
  lemma CloseLogs(db: Db, open: set<nat>, read: Db, tenant: string, document: string, at: int, n: nat)
    ensures var db' := Run(db, ClosePlan(open, CitersOf(read, tenant, document), tenant, at, n));
            && |db.ledger| <= |db'.ledger| && db'.ledger[..|db.ledger|] == db.ledger
            && NamesCiters(db'.ledger[|db.ledger|..], read, tenant, document, at, n)
  {
    hide CitersOf, NamesEach, CitesDocument;
    var citers := CitersOf(read, tenant, document);
    var lines := DeletionLedger(citers, tenant, at, n);
    forall r: nat ensures r in citers <==> CitesDocument(read, r, tenant, document) {
      CitersAre(read, tenant, document, r);
    }
    if citers == {} {
      assert db.ledger[|db.ledger|..] == [];
    } else {
      DeletionLedgerExact(citers, tenant, at, n);
      EachIsRecord(lines, citers, tenant, at, n);
      var closed := Apply(db, CloseOpen(open, at));
      assert ([CloseOpen(open, at)] + lines)[1..] == lines;
      assert Run(db, [CloseOpen(open, at)] + lines) == Run(closed, lines);
      RecordsAreLogged(closed, lines);
      EntriesName(lines, read, tenant, document, at, n, citers);
      assert (closed.ledger + Entries(lines))[|db.ledger|..] == Entries(lines);
    }
  }

  lemma EachIsRecord(stmts: seq<Stmt>, ids: set<nat>, tenant: string, at: int, n: nat)
    requires NamesEach(stmts, ids, tenant, at, n)
    ensures forall k :: 0 <= k < |stmts| ==> stmts[k].Record?
  {
  }

  lemma EntriesName(stmts: seq<Stmt>, db: Db, tenant: string, document: string, at: int, n: nat, ids: set<nat>)
    requires NamesEach(stmts, ids, tenant, at, n)
    requires forall k :: 0 <= k < |stmts| ==> stmts[k].Record?
    requires forall r: nat :: r in ids <==> CitesDocument(db, r, tenant, document)
    ensures NamesCiters(Entries(stmts), db, tenant, document, at, n)
  {
    hide CitesDocument;
    var lines := Entries(stmts);
    forall r | 0 <= r < n && CitesDocument(db, r, tenant, document)
      ensures exists k :: 0 <= k < |lines| && lines[k].row == r
    {
      var k :| 0 <= k < |stmts| && stmts[k].inv.row == r;
      assert lines[k].row == r;
    }
  }

  /** A deletion: open rows of the tenant that cite the document and no other end at the given time; every row that
      cites it, ended or not, gets one ledger line; and nothing else changes. */
  lemma DeletedInFull(db: Db, tenant: string, document: string, at: int)
    ensures var db' := Run(db, InvalidatePlan(db, tenant, document, at));
            && |db'.rows| == |db.rows| && db' == db.(rows := db'.rows, ledger := db'.ledger)
            && (forall r :: 0 <= r < |db.rows| ==>
                  db'.rows[r] ==
                  if CitesDocument(db, r, tenant, document) && db.rows[r].key.tenant == tenant &&
                     db.rows[r].validTo.None? && NoOtherDocument(db, r, document)
                  then db.rows[r].(validTo := Some(at)) else db.rows[r])
            && |db.ledger| <= |db'.ledger| && db'.ledger[..|db.ledger|] == db.ledger
            && NamesCiters(db'.ledger[|db.ledger|..], db, tenant, document, at, |db.rows|)
  {
    hide CitersOf, HasOtherSource, CitesDocument, NoOtherDocument, NamesCiters, Run, ClosePlan;
    DeletionClosesOrphans(db, tenant, document, at);
    CloseLogs(db, Orphans(db, tenant, document), db, tenant, document, at, |db.rows|);
    forall r: nat | r < |db.rows|
      ensures r in CitersOf(db, tenant, document) <==> CitesDocument(db, r, tenant, document)
      ensures HasOtherSource(db, r, document) <==> !NoOtherDocument(db, r, document)
    {
      CitersAre(db, tenant, document, r);
    }
  }

  /** What a deletion reports is how many rows it changed. */
  lemma ReportedIsClosed(db: Db, tenant: string, document: string, at: int)
    ensures var db' := Run(db, InvalidatePlan(db, tenant, document, at));
            && |db'.rows| == |db.rows|
            && |Orphans(db, tenant, document)| == |set r: nat | r < |db.rows| && db'.rows[r] != db.rows[r]|
  {
    hide Run, InvalidatePlan, HasOtherSource, CitersOf;
    var db' := Run(db, InvalidatePlan(db, tenant, document, at));
    DeletionClosesOrphans(db, tenant, document, at);
    assert Orphans(db, tenant, document) == set r: nat | r < |db.rows| && db'.rows[r] != db.rows[r];
  }
}
