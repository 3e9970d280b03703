/** The tables of the memory store and the statements the service issues against them. Row ids are positions in
    `rows`: rows are never deleted here. */
module Database {
  import opened Text
  import opened Records

  datatype Citation = Citation(quote: string, pass: string)

  datatype Reason = Superseded | Backfilled | Consolidated | SourceDeleted

  /** One line of the invalidation ledger. */
  datatype Invalidation = Invalidation(tenant: string, row: nat, successor: Option<nat>, validTo: int, reason: Reason)

  datatype Ingest = Ingest(episode: string, added: nat, rejected: nat)

  datatype Db = Db(
    rows: seq<Memory>,
    provenance: map<(nat, string), Citation>,
    ledger: seq<Invalidation>,
    episodes: map<string, Episode>,
    ingest: map<(string, string), Ingest>)

  const EMPTY := Db([], map[], [], map[], map[])

  datatype Stmt =
    | SaveEpisode(ep: Episode)
    | InsertRow(m: Memory)
    | CloseRow(id: nat, at: int)
    | CloseOpen(ids: set<nat>, at: int)  // only those still open
    | LinkRows(ids: set<nat>, successor: nat)
    | ReinforceRow(id: nat, confidence: real, attributes: map<string, string>, subjects: seq<string>,
                   acl: seq<string>, seenAt: int)
    | Cite(row: nat, episode: string, quote: string, pass: string)
    | InheritCitations(row: nat, ids: set<nat>)
    | Record(inv: Invalidation)
    | WriteDecay(id: nat, salience: real, archived: bool)
    | LogIngest(tenant: string, hash: string, episode: string, added: nat, rejected: nat)

  const MAX_SALIENCE := 2.0
  const REINFORCEMENT_BUMP := 0.25

  function Least(a: real, b: real): real {
    if b < a then b else a
  }

  /** What an UPDATE makes of row i. */
  function Updated(s: Stmt, i: nat, m: Memory): Memory {
    match s
    case CloseRow(id, at) => if i == id then m.(validTo := Some(at)) else m
    case CloseOpen(ids, at) => if i in ids && m.validTo.None? then m.(validTo := Some(at)) else m
    case LinkRows(ids, successor) => if i in ids then m.(supersededBy := Some(successor)) else m
    case ReinforceRow(id, confidence, attributes, subjects, acl, seenAt) =>
      if i != id then m
      else m.(salience := Least(MAX_SALIENCE, m.salience + REINFORCEMENT_BUMP), confidence := confidence,
              attributes := attributes, subjects := subjects, acl := acl,
              lastSeen := if seenAt > m.lastSeen then seenAt else m.lastSeen, archived := false)
    case WriteDecay(id, salience, archived) => if i == id then m.(salience := salience, archived := archived) else m
    case _ => m
  }

  function UpdatedRows(db: Db, s: Stmt): (r: seq<Memory>)
    ensures |r| == |db.rows| && forall i :: 0 <= i < |r| ==> r[i] == Updated(s, i, db.rows[i])
  {
    seq(|db.rows|, i requires 0 <= i < |db.rows| => Updated(s, i, db.rows[i]))
  }

  /** ON CONFLICT keeps the row and refreshes what can change at the source. */
  function SavedEpisodes(db: Db, ep: Episode): map<string, Episode> {
    if ep.id in db.episodes then
      db.episodes[ep.id := db.episodes[ep.id].(permalink := ep.permalink, title := ep.title, acl := ep.acl,
                                               ingestedAt := ep.ingestedAt)]
    else db.episodes[ep.id := ep]
  }

  /** ON CONFLICT keeps the pass, and the old quote when the new one is blank. */
  function Cited(db: Db, row: nat, episode: string, quote: string, pass: string): map<(nat, string), Citation> {
    var k := (row, episode);
    if k in db.provenance then
      db.provenance[k := db.provenance[k].(quote := if quote != "" then quote else db.provenance[k].quote)]
    else db.provenance[k := Citation(quote, pass)]
  }

  /** The episodes row r cites. */
  function Episodes(db: Db, r: nat): set<string> {
    set k | k in db.provenance && k.0 == r :: k.1
  }

  /** The episodes the rows in ids cite between them. */
  function EpisodesOf(db: Db, ids: set<nat>): set<string> {
    set k | k in db.provenance && k.0 in ids :: k.1
  }

  /** The quote of the lowest-numbered row in ids, from row `from` on, that cites the episode. */
  function InheritedQuote(db: Db, ids: set<nat>, episode: string, from: nat): string
    decreases |db.rows| - from
  {
    if from in ids && (from, episode) in db.provenance then db.provenance[(from, episode)].quote
    else if from >= |db.rows| then ""
    else InheritedQuote(db, ids, episode, from + 1)
  }

  /** ON CONFLICT DO NOTHING: a citation the row already has stays. */
  function Inherited(db: Db, row: nat, ids: set<nat>): map<(nat, string), Citation> {
    (map k | k in (set e | e in EpisodesOf(db, ids) :: (row, e)) ::
       Citation(InheritedQuote(db, ids, k.1, 0), "consolidated")) + db.provenance
  }

  function Logged(db: Db, tenant: string, hash: string, episode: string, added: nat, rejected: nat)
    : map<(string, string), Ingest>
  {
    var k := (tenant, hash);
    if k in db.ingest then
      db.ingest[k := Ingest(db.ingest[k].episode, db.ingest[k].added + added, db.ingest[k].rejected + rejected)]
    else db.ingest[k := Ingest(episode, added, rejected)]
  }

  function Apply(db: Db, s: Stmt): Db {
    match s
    case SaveEpisode(ep) => db.(episodes := SavedEpisodes(db, ep))
    case InsertRow(m) => db.(rows := db.rows + [m])
    case Cite(row, episode, quote, pass) => db.(provenance := Cited(db, row, episode, quote, pass))
    case InheritCitations(row, ids) => db.(provenance := Inherited(db, row, ids))
    case Record(inv) => db.(ledger := db.ledger + [inv])
    case LogIngest(tenant, hash, episode, added, rejected) =>
      db.(ingest := Logged(db, tenant, hash, episode, added, rejected))
    case _ => db.(rows := UpdatedRows(db, s))
  }

  /** A transaction's statements, in order. */
  function Run(db: Db, stmts: seq<Stmt>): Db
    decreases |stmts|
  {
    if stmts == [] then db else Run(Apply(db, stmts[0]), stmts[1..])
  }

  lemma {:induction false} RunAppend(db: Db, a: seq<Stmt>, b: seq<Stmt>)
    ensures Run(db, a + b) == Run(Run(db, a), b)
    decreases |a|
  {
    if a == [] {
      assert a + b == b;
    } else {
      assert (a + b)[0] == a[0] && (a + b)[1..] == a[1..] + b;
      RunAppend(Apply(db, a[0]), a[1..], b);
    }
  }

  // ---- the constraints of the schema ----

  /** The partial unique index: at most one live row per key, events exempt. */
  predicate OneLive(rows: seq<Memory>) {
    forall i, j :: 0 <= i < j < |rows| && rows[i].Live() && rows[j].Live() && rows[i].key == rows[j].key ==>
      !Supersedes(rows[i].key.kind)
  }

  predicate IntervalOk(m: Memory) {
    m.validTo.Some? ==> m.validFrom <= m.validTo.value
  }

  /** Interval, link, confidence and salience checks. */
  predicate RowOk(m: Memory) {
    IntervalOk(m) && (m.supersededBy.Some? ==> m.validTo.Some?) && 0.0 <= m.confidence <= 1.0 && 0.0 <= m.salience
  }

  predicate Constraints(rows: seq<Memory>) {
    OneLive(rows) && forall i :: 0 <= i < |rows| ==> RowOk(rows[i])
  }

  // ---- lookups ----

  /** The lowest-numbered live row on the key, from position `from` on. */
  function FindLiveFrom(rows: seq<Memory>, key: Key, from: nat): (r: Option<nat>)
    ensures r.Some? ==> from <= r.value < |rows| && rows[r.value].Live() && rows[r.value].key == key
    decreases |rows| - from
  {
    if from >= |rows| then None
    else if rows[from].Live() && rows[from].key == key then Some(from)
    else FindLiveFrom(rows, key, from + 1)
  }

  /** lockCurrent's query. */
  function FindLive(rows: seq<Memory>, key: Key): (r: Option<nat>)
    ensures r.Some? ==> r.value < |rows| && rows[r.value].Live() && rows[r.value].key == key
  {
    FindLiveFrom(rows, key, 0)
  }

  lemma {:induction false} FindLiveFromMisses(rows: seq<Memory>, key: Key, from: nat, i: nat)
    requires from <= i < |rows| && rows[i].Live() && rows[i].key == key
    ensures FindLiveFrom(rows, key, from).Some? && FindLiveFrom(rows, key, from).value <= i
    decreases |rows| - from
  {
    if !(rows[from].Live() && rows[from].key == key) {
      FindLiveFromMisses(rows, key, from + 1, i);
    }
  }

  /** Under the index, lockCurrent sees the live row of a superseding key whenever there is one, and sees no other. */
  lemma FindLiveExact(rows: seq<Memory>, key: Key, i: nat)
    requires OneLive(rows) && Supersedes(key.kind) && i < |rows|
    ensures FindLive(rows, key) == Some(i) <==> rows[i].Live() && rows[i].key == key
  {
    if rows[i].Live() && rows[i].key == key {
      FindLiveFromMisses(rows, key, 0, i);
    }
  }
}
