/** Runs in which what does not hold fails: a memory that outlives all its documents, a group found for another topic, a
    decay write that the unique index refuses. */
module Scenarios {
  import opened Text
  import opened Records
  import opened Similarity
  import opened Topic
  import opened Database
  import opened Committing
  import opened Timeline
  import opened Maintaining
  import opened Refusals
  import opened World
  import opened Revival
  import opened Deletions
  import opened Reachable

  // ---- a memory with two sources ----

  /** A statement with at least one content word restates itself. */
  lemma SameAgain(d: Draft)
    requires ContentWords(d.statement) != {}
    ensures IsRestatement(Stored(d, None, None), d)
  {
    hide ContentWords, TrimSpace;
    JaccardRange(ContentWords(d.statement), ContentWords(d.statement));
  }

  /** A word of lower-case letters that is no stopword is such a statement. */
  lemma OneWord(s: string)
    requires s != "" && !Similarity.IsStopword(s) && forall c :: c in s ==> 'a' <= c <= 'z'
    ensures ContentWords(s) == {s}
  {
    hide Similarity.IsStopword, FieldsFunc, Trim;
    forall i | 0 <= i < |s| ensures s[i] in s && Lower(s[i]) == s[i] && !IsSpace(s[i]) && !IsPunctuation(s[i]) {
    }
    assert ToLower(s) == s;
    OneField(s);
    TrimClean(s, IsPunctuation);
    assert Fields(ToLower(s)) == [s] && Bare(s) == s;
    assert s in ContentWords(s);
  }

  lemma OneField(s: string)
    requires s != "" && forall i :: 0 <= i < |s| ==> !IsSpace(s[i])
    ensures Fields(s) == [s]
  {
    WordLengthIs(s, |s|, IsSpace);
    assert s[..|s|] == s && s[|s|..] == "";
    assert FieldsFunc(s, IsSpace) == [s] + FieldsFunc("", IsSpace);
  }

  /** The same memory learned from two episodes. */
  lemma LearnedTwice(a: Episode, b: Episode, p: Proposal)
    requires Supersedes(p.draft.key.kind) && ContentWords(p.draft.statement) != {} && a.id != b.id
    ensures var db := Committing.Commit(Committing.Commit(EMPTY, a, [p], 0), b, [p], 0);
            && |db.rows| == 1 && db.rows[0].validTo.None? && db.rows[0].key == p.draft.key
            && (0, a.id) in db.provenance && (0, b.id) in db.provenance
            && db.episodes == map[a.id := a, b.id := b]
  {
    hide Committing.Commit, CommitOne, ContentWords, IsRestatement, MergeStrings;
    var db := Committing.Commit(EMPTY, a, [p], 0);
    OneMemory(a, p, 0);
    CommitsOne(db, b, p, 0);
    var saved := Apply(db, SaveEpisode(b));
    SameAgain(p.draft);
    assert FindLive(saved.rows, p.draft.key) == Some(0);
    ReinforceShape(saved, b, p);
  }

  /** A memory asserted in two documents, by any two commits: it is reached, and no deletion of documents, however many
      and of whichever tenant, closes it. */
  lemma TwoSourcesReached(a: Episode, b: Episode, p: Proposal) returns (events: seq<Event>)
    requires DraftOk(p.draft) && Supersedes(p.draft.key.kind) && ContentWords(p.draft.statement) != {}
    requires a.id != b.id && a.document != b.document
    ensures var db := Through(START, events).committed;
            && |db.rows| == 1 && db.rows[0].validTo.None? && SourcesOf(db, 0) == {a.document, b.document}
            && TwoSources(db, 0)
            && forall tenant: string, removals: seq<Removal> :: AfterRemovals(db, tenant, removals).rows == db.rows
  {
    hide Committing.Commit, Through, AfterRemovals, ContentWords, Orphans, DraftOk;
    var calls := [Call(a, [p], 0), Call(b, [p], 0)];
    events := SerialIsReached(calls);
    var db := Committing.Commit(Committing.Commit(EMPTY, a, [p], 0), b, [p], 0);
    TwoCalls(calls[0], calls[1]);
    LearnedTwice(a, b, p);
    assert a.document in SourcesOf(db, 0) && b.document in SourcesOf(db, 0);
    forall tenant: string, removals: seq<Removal> ensures AfterRemovals(db, tenant, removals).rows == db.rows {
      RemovalsExact(db, tenant, removals, 0);
      EndIff(db, tenant, removals, 0);
      forall k | 0 <= k < |removals| ensures 0 !in Orphans(db, tenant, removals[k].document) {
        TwoIsNoOrphan(db, 0, tenant, removals[k].document);
      }
    }
  }

  lemma TwoCalls(a: Call, b: Call)
    ensures After(EMPTY, [a, b]) ==
            Committing.Commit(Committing.Commit(EMPTY, a.ep, a.ps, a.rejected), b.ep, b.ps, b.rejected)
  {
    hide Committing.Commit;
    assert [a, b][..1] == [a] && [a][..0] == [];
    assert After(EMPTY, [a]) == Committing.Commit(After(EMPTY, []), a.ep, a.ps, a.rejected);
  }

  // ---- a group found for another topic ----

  /** An event on the topic. */
  function Happened(topic: string): Proposal {
    Proposal(Draft(Key("acme", Kind.Event, topic), topic, "deployed", map[], [], Unset, 1.0, 1.0, 0, 0, ["all"], 0),
             "", "broad")
  }

  /** n events on "cluster-dns" and n on "cluster-dn": the phrases "cluster dns" and "cluster-dns" give these keys. */
  function Happenings(n: nat): seq<Proposal> {
    seq(2 * n, i requires 0 <= i < 2 * n => if i < n then Happened("cluster-dns") else Happened("cluster-dn"))
  }

  lemma HappeningAt(n: nat, i: nat)
    requires i < 2 * n
    ensures |Happenings(n)| == 2 * n
    ensures Happenings(n)[i] == if i < n then Happened("cluster-dns") else Happened("cluster-dn")
  {
  }

  lemma HappenedIs(topic: string)
    ensures var p := Happened(topic);
            && p.draft.key == Key("acme", Kind.Event, topic) && DraftOk(p.draft)
            && var m := Stored(p.draft, None, None); m.key == p.draft.key && m.Live() && m.validFrom == 0
  {
  }

  function Inserted(ps: seq<Proposal>): seq<Memory> {
    seq(|ps|, i requires 0 <= i < |ps| => Stored(ps[i].draft, None, None))
  }

  lemma {:induction false} EventsAppend(db: Db, ep: Episode, ps: seq<Proposal>)
    requires forall i :: 0 <= i < |ps| ==> ps[i].draft.key.kind == Kind.Event
    ensures CommitAll(db, ep, ps).rows == db.rows + Inserted(ps)
    decreases |ps|
  {
    hide CommitOne, PlanFor, Stored;
    if ps != [] {
      EventIsCreated(db, ep, ps[0]);
      CreateShape(db, ep, ps[0]);
      EventsAppend(CommitOne(db, ep, ps[0]), ep, ps[1..]);
      assert Inserted(ps) == [Stored(ps[0].draft, None, None)] + Inserted(ps[1..]);
    }
  }

  lemma EventIsCreated(db: Db, ep: Episode, p: Proposal)
    requires p.draft.key.kind == Kind.Event
    ensures PlanFor(db, ep, p).outcome == Created
  {
  }

  lemma {:induction false} CountsPrefix(rows: seq<Memory>, key: Key, n: nat)
    requires n <= |rows| && forall i :: 0 <= i < n ==> rows[i].Live() && rows[i].key == key
    ensures CountLive(rows, key) >= n
    decreases |rows|
  {
    if |rows| > 0 {
      var m := |rows| - 1;
      CountsPrefix(rows[..m], key, if n <= m then n else m);
    }
  }

  /** The members read for the key "cluster-dns". */
  function Misread(n: nat): Group {
    Group(Key("acme", Kind.Event, "cluster-dns"),
          seq(n, i requires 0 <= i < n => Member(n + i, Stored(Happened("cluster-dn").draft, None, None))))
  }

  lemma MisreadIsFound(rows: seq<Memory>, n: nat, now: int)
    requires 2 <= n <= 100 && now >= 0 && rows == Inserted(Happenings(n))
    ensures Finds(rows, rows, n, now, Misread(n))
  {
    hide NormalizeTopic, CountLive, Happened, Happenings, Stored;
    ClusterDns();
    HappenedIs("cluster-dns");
    HappenedIs("cluster-dn");
    HappeningAt(n, 0);
    forall i | 0 <= i < n ensures rows[i] == Stored(Happened("cluster-dns").draft, None, None) {
      HappeningAt(n, i);
    }
    CountsPrefix(rows, Key("acme", Kind.Event, "cluster-dns"), n);
    forall i | 0 <= i < n ensures rows[n + i] == Misread(n).members[i].row {
      HappeningAt(n, n + i);
    }
  }

  /** For every threshold from 2 to 100, a run in which the consolidation job lists the key "cluster-dns" and then reads
      a group none of whose members is on it. */
  lemma OtherTopicRead(n: nat, now: int) returns (events: seq<Event>)
    requires 2 <= n <= 100 && now >= 0
    ensures Scan(Misread(n), now) in Through(START, events).scans
    ensures NormalizeTopic("cluster dns") == "cluster-dns" == Misread(n).key.topic
    ensures NormalizeTopic("cluster-dns") == "cluster-dn"
    ensures |Misread(n).members| == n &&
            forall i :: 0 <= i < n ==> Misread(n).members[i].row.key == Key("acme", Kind.Event, "cluster-dn")
  {
    hide Committing.Commit, Through, NormalizeTopic, Next, CommitAll, Inserted, Happenings, Counted, Reads;
    ClusterDns();
    HappenedIs("cluster-dn");
    var call := Call(Episode("e", "acme", "d", "h", "wiki", "", "", "", ["all"], 0, 0), Happenings(n), 0);
    HappeningsOk(n);
    var first := SerialIsReached([call]);
    OneCall(call);
    EventsAppend(Apply(EMPTY, SaveEpisode(call.ep)), call.ep, call.ps);
    var w := Through(START, first);
    CommitRowsAre(call);
    assert w.committed.rows == Inserted(Happenings(n));
    MisreadIsFound(w.committed.rows, n, now);
    var scan := [ListKey(n, Misread(n).key), ReadGroup(n, now, Misread(n))];
    ScansGroup(w, n, now, Misread(n));
    events := first + scan;
    ThroughAppend(START, first, scan);
    ThroughOne(w, scan[0], scan[1..]);
    ThroughOne(Next(w, scan[0]), scan[1], []);
    assert scan == [scan[0]] + scan[1..] && scan[1..] == [scan[1]];
  }

  lemma ScansGroup(w: State, minSize: int, now: int, g: Group)
    requires Finds(w.committed.rows, w.committed.rows, minSize, now, g)
    ensures Scan(g, now) in Next(Next(w, ListKey(minSize, g.key)), ReadGroup(minSize, now, g)).scans
  {
    hide Counted, Reads;
  }

  lemma HappeningsOk(n: nat)
    ensures forall p :: p in Happenings(n) ==> DraftOk(p.draft) && p.draft.key.kind == Kind.Event
  {
    hide Happened, DraftOk, Happenings;
    HappenedIs("cluster-dns");
    HappenedIs("cluster-dn");
    forall p | p in Happenings(n) ensures DraftOk(p.draft) && p.draft.key.kind == Kind.Event {
      var i :| 0 <= i < |Happenings(n)| && Happenings(n)[i] == p;
      HappeningsCount(n);
      HappeningAt(n, i);
    }
  }

  lemma HappeningsCount(n: nat)
    ensures |Happenings(n)| == 2 * n
  {
  }

  lemma OneCall(c: Call)
    ensures After(EMPTY, [c]) == Committing.Commit(EMPTY, c.ep, c.ps, c.rejected)
  {
    hide Committing.Commit;
    assert [c][..0] == [];
    assert After(EMPTY, []) == EMPTY;
  }

  lemma CommitRowsAre(c: Call)
    ensures Committing.Commit(EMPTY, c.ep, c.ps, c.rejected).rows ==
            CommitAll(Apply(EMPTY, SaveEpisode(c.ep)), c.ep, c.ps).rows
    ensures Apply(EMPTY, SaveEpisode(c.ep)).rows == []
  {
    hide CommitAll;
  }

  // ---- a decay write that is refused ----

  /** A salience that halves at once and soon falls to a tenth. */
  function Steep(kind: Kind, elapsed: int): real {
    if elapsed <= 1 then 0.5 else 0.1
  }

  /** Any fresh memory that may be archived falls below the default floor between two such times. */
  lemma FallsSoon(m: Memory)
    requires m.Live() && !Protected(m.key.kind) && m.salience == 1.0
    ensures FallsBetween(m, m.lastSeen + 1, m.lastSeen + 2, 0.15, Steep)
  {
  }

  /** Two sweeps under way as in SweepsRevive, but before the stale write a commit puts a new memory on the key: the
      index refuses the write, its sweep ends, and the row stays archived. */
  lemma StaleWriteRefused(c: Call, p: Proposal, d: Call, q: Proposal, now1: int, now2: int, floor: real,
                          factor: (Kind, int) -> real)
    returns (events: seq<Event>)
    requires Proposable(c) && c.ps == [p] && FallsBetween(Stored(p.draft, None, None), now1, now2, floor, factor)
    requires Proposable(d) && d.ps == [q] && q.draft.key == p.draft.key && Supersedes(p.draft.key.kind)
    ensures var w := Through(START, events);
            var w' := Next(w, WriteNext(0));
            && 0 in w.sweeps && |w.sweeps[0]| == 1 && !DecayWaits(w, w.sweeps[0][0])
            && 0 !in w'.sweeps && w'.committed == w.committed
            && |w.committed.rows| == 2 && w.committed.rows[0].archived && w.committed.rows[1].Live()
            && w.committed.rows[0].key == w.committed.rows[1].key
  {
    hide Next, Committing.Commit, Through, Decayed, Proposable, Stored, WorldInv;
    var begun, u1, u2 := TwoSweepsBegun(c, p, now1, now2, floor, factor);
    var db, m := Committing.Commit(EMPTY, c.ep, c.ps, c.rejected), Stored(p.draft, None, None);
    var w1 := START.(committed := db, sweeps := map[0 := [u1], 1 := [u2]]);
    var w2 := Next(w1, WriteNext(1));
    StoredOpen(p.draft);
    StoredOpen(q.draft);
    ArchivesOne(db, m, u1, u2);
    ThroughAppend(START, begun, [WriteNext(1)]);
    ThroughOne(w1, WriteNext(1), []);
    ThroughKeepsInv(begun + [WriteNext(1)]);
    var rest := GoesThrough(w2, 0, d);
    events := begun + [WriteNext(1)] + rest;
    ThroughAppend(START, begun + [WriteNext(1)], rest);
    ThroughKeepsInv(events);
    NewOnKey(w2.committed, d.ep, q, d.rejected);
    LastRefused(Through(START, events), u1);
  }

  lemma StoredOpen(d: Draft)
    ensures var m := Stored(d, None, None); m.key == d.key && m.Live()
  {
  }

  lemma ArchivesOne(db: Db, m: Memory, u1: DecayWrite, u2: DecayWrite)
    requires db.rows == [m] && RowOk(m) && u2.id == 0 && u2.archive && u2.salience >= 0.0
    ensures var w1 := START.(committed := db, sweeps := map[0 := [u1], 1 := [u2]]);
            var w2 := Next(w1, WriteNext(1));
            && w2.committed.rows == [m.(salience := u2.salience, archived := true)]
            && w2.sweeps == map[0 := [u1], 1 := []] && w2.txs == map[]
  {
    DecayUpdatesOne(db, u2);
    hide Next, Apply;
    OneWrite(START.(committed := db, sweeps := map[0 := [u1], 1 := [u2]]), 1, u2);
  }

  /** With its only row archived a key takes a new one. */
  lemma NewOnKey(db: Db, ep: Episode, q: Proposal, rejected: nat)
    requires |db.rows| == 1 && db.rows[0].archived
    ensures Committing.Commit(db, ep, [q], rejected).rows == db.rows + [Stored(q.draft, None, None)]
  {
    hide Committing.Commit, Stored, IsRestatement;
    CommitsOne(db, ep, q, rejected);
    var saved := Apply(db, SaveEpisode(ep));
    assert FindLive(saved.rows, q.draft.key).None?;
    CreateShape(saved, ep, q);
  }

  lemma LastRefused(w: State, u: DecayWrite)
    requires WorldInv(w) && w.txs == map[] && 0 in w.sweeps && w.sweeps[0] == [u] && u.id == 0 && !u.archive
    requires |w.committed.rows| == 2 && w.committed.rows[0].archived && w.committed.rows[0].validTo.None?
    requires w.committed.rows[1].Live() && w.committed.rows[1].key == w.committed.rows[0].key
    requires Supersedes(w.committed.rows[0].key.kind)
    ensures !DecayWaits(w, u) && 0 !in Next(w, WriteNext(0)).sweeps
    ensures Next(w, WriteNext(0)).committed == w.committed
  {
    hide WorldInv, Constraints, Apply;
    assert !DecayWaits(w, u);
    hide DecayWaits;
    WriteRefusedIff(w, 0);
    assert LiveOn(w.committed.rows, 1, w.committed.rows[0].key);
    assert AnotherLive(w.committed.rows, w.committed.rows[0].key, 0);
    WritesNext(w, 0);
  }
}
