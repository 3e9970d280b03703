/** The store as an object: every operation issues its statements one by one inside a transaction, and a failure at
    any statement rolls all of them back. */
module Store {
  import opened Text
  import opened Records
  import opened Similarity
  import opened Database
  import opened Committing
  import opened Maintaining

  datatype Supersession = Supersession(oldId: nat, newId: nat)

  /** What Commit reports. */
  datatype CommitResult = CommitResult(ids: seq<nat>, outcomes: map<Outcome, nat>, superseded: seq<Supersession>)

  datatype Failure = Unavailable | Refused(why: Refusal)

  /** What ApplyDecay reports; on a failure, what it had done by then. */
  datatype DecayResult = DecayResult(scanned: nat, decayed: nat, archived: nat)

  /** The plans commitOne follows, proposal by proposal. */
  function Plans(db: Db, ep: Episode, ps: seq<Proposal>): seq<Plan>
    decreases |ps|
  {
    if ps == [] then [] else [PlanFor(db, ep, ps[0])] + Plans(CommitOne(db, ep, ps[0]), ep, ps[1..])
  }

  function CountOf(outcomes: map<Outcome, nat>, o: Outcome): nat {
    if o in outcomes then outcomes[o] else 0
  }

  /** The report for plans, in order: their ids, how often each outcome occurred, and the rows that were replaced. */
  function ReportOf(plans: seq<Plan>): CommitResult {
    if plans == [] then CommitResult([], map[], [])
    else Noted(ReportOf(plans[..|plans| - 1]), plans[|plans| - 1])
  }

  function Noted(r: CommitResult, plan: Plan): CommitResult {
    CommitResult(r.ids + [plan.id], r.outcomes[plan.outcome := CountOf(r.outcomes, plan.outcome) + 1],
                 if plan.replaced.Some? then r.superseded + [Supersession(plan.replaced.value, plan.id)]
                 else r.superseded)
  }

  class Store {
    var rows: seq<Memory>
    var provenance: map<(nat, string), Citation>
    var ledger: seq<Invalidation>
    var episodes: map<string, Episode>
    var ingest: map<(string, string), Ingest>

    function State(): Db
      reads this
    {
      Db(rows, provenance, ledger, episodes, ingest)
    }

    constructor ()
      ensures State() == EMPTY
    {
      rows, provenance, ledger, episodes, ingest := [], map[], [], map[], map[];
    }

    /** One statement. The database may be unavailable, and it refuses what breaks a constraint; a statement that
        fails changes nothing. */
    method Exec(s: Stmt) returns (ok: bool)
      modifies this
      ensures ok ==> State() == Apply(old(State()), s) && Constraints(rows)
      ensures !ok ==> State() == old(State())
    {
      if * {
        return false;
      }
      var next := Apply(State(), s);
      if !Constraints(next.rows) {
        return false;
      }
      rows, provenance, ledger, episodes, ingest :=
        next.rows, next.provenance, next.ledger, next.episodes, next.ingest;
      return true;
    }

    /** Gives back the state a transaction began with. */
    method Rollback(db: Db)
      modifies this
      ensures State() == db
    {
      rows, provenance, ledger, episodes, ingest := db.rows, db.provenance, db.ledger, db.episodes, db.ingest;
    }

    method AlreadyProcessed(tenant: string, hash: string) returns (r: Option<bool>)
      ensures r.Some? ==> r.value == ((tenant, hash) in ingest)
    {
      if * {
        return None;
      }
      return Some((tenant, hash) in ingest);
    }

    method LockCurrent(key: Key) returns (r: Option<nat>)
      ensures r == FindLive(rows, key)
    {
      for i := 0 to |rows|
        invariant FindLive(rows, key) == FindLiveFrom(rows, key, i)
      {
        if rows[i].Live() && rows[i].key == key {
          return Some(i);
        }
      }
      return None;
    }

    /** Writes a new row; the id is the row's position. */
    method InsertMemory(d: Draft, validTo: Option<int>, supersededBy: Option<nat>) returns (id: Option<nat>)
      modifies this
      ensures id.Some? ==> id.value == |old(rows)|
      ensures id.Some? ==> State() == Apply(old(State()), InsertRow(Stored(d, validTo, supersededBy)))
    {
      var n := |rows|;
      var ok := Exec(InsertRow(Stored(d, validTo, supersededBy)));
      id := if ok then Some(n) else None;
    }

    method Reinforce(id: nat, current: Memory, d: Draft, ep: Episode, p: Proposal) returns (ok: bool)
      modifies this
      ensures ok ==>
                State() ==
                Apply(Apply(old(State()), Reinforcement(id, current, d, ep)), Cite(id, ep.id, p.quote, p.pass))
    {
      var attributes := MergeAttributes(current.attributes, d.attributes);
      var confidence := current.confidence;
      if d.confidence > confidence {
        confidence := d.confidence;
      }
      var subjects := MergeLists(current.subjects, d.subjects);
      var acl := MergeLists(current.acl, d.acl);
      ok := Exec(ReinforceRow(id, confidence, attributes, subjects, acl, ep.occurredAt));
      if !ok {
        return;
      }
      ok := Exec(Cite(id, ep.id, p.quote, p.pass));
    }

    /** commitOne: None when a statement failed. */
    method CommitOne(ep: Episode, p: Proposal) returns (done: Option<Plan>)
      modifies this
      ensures done.Some? ==> done.value == PlanFor(old(State()), ep, p)
      ensures done.Some? ==> State() == Committing.CommitOne(old(State()), ep, p)
    {
      hide IsRestatement, Apply;
      var d := p.draft;
      if !Supersedes(d.key.kind) {
        done := Create(ep, p);
        return;
      }
      var c := LockCurrent(d.key);
      if c.None? {
        done := Create(ep, p);
        return;
      }
      var current := rows[c.value];
      var restates := Restates(current, d);
      if restates {
        var ok := Reinforce(c.value, current, d, ep, p);
        if !ok {
          return None;
        }
        var plan := ReinforcePlan(c.value, current, ep, p);
        RunTwo(old(State()), plan.stmts);
        return Some(plan);
      }
      if d.validFrom < current.validFrom {
        done := FileIntoHistory(c.value, current, ep, p);
        return;
      }
      done := Replace(c.value, ep, p);
    }

    /** A new row, cited. */
    method Create(ep: Episode, p: Proposal) returns (done: Option<Plan>)
      modifies this
      ensures done.Some? ==> done.value == CreatePlan(|old(rows)|, ep, p)
      ensures done.Some? ==> State() == Run(old(State()), CreatePlan(|old(rows)|, ep, p).stmts)
    {
      hide Apply, Stored;
      var plan := CreatePlan(|rows|, ep, p);
      var id := InsertMemory(p.draft, None, None);
      if id.None? {
        return None;
      }
      var ok := Exec(Cite(id.value, ep.id, p.quote, p.pass));
      if !ok {
        return None;
      }
      RunTwo(old(State()), plan.stmts);
      return Some(plan);
    }

    /** The backfill branch. */
    method FileIntoHistory(c: nat, current: Memory, ep: Episode, p: Proposal) returns (done: Option<Plan>)
      modifies this
      ensures done.Some? ==> done.value == BackfillPlan(|old(rows)|, c, current, ep, p)
      ensures done.Some? ==> State() == Run(old(State()), BackfillPlan(|old(rows)|, c, current, ep, p).stmts)
    {
      hide Apply, Stored;
      var plan := BackfillPlan(|rows|, c, current, ep, p);
      var id := InsertMemory(p.draft, Some(current.validFrom), Some(c));
      if id.None? {
        return None;
      }
      var ok := Exec(Cite(id.value, ep.id, p.quote, p.pass));
      if !ok {
        return None;
      }
      ok := Exec(Record(Invalidation(p.draft.key.tenant, id.value, Some(c), current.validFrom, Backfilled)));
      if !ok {
        return None;
      }
      RunThree(old(State()), plan.stmts);
      return Some(plan);
    }

    /** The supersession branch: close, insert, cite, link, record. */
    method Replace(c: nat, ep: Episode, p: Proposal) returns (done: Option<Plan>)
      modifies this
      ensures done.Some? ==> done.value == SupersedePlan(|old(rows)|, c, ep, p)
      ensures done.Some? ==> State() == Run(old(State()), SupersedePlan(|old(rows)|, c, ep, p).stmts)
    {
      hide Stored;
      var plan := SupersedePlan(|rows|, c, ep, p);
      var validTo := p.draft.validFrom;
      var ok := Exec(CloseRow(c, validTo));
      if !ok {
        return None;
      }
      var id := InsertMemory(p.draft, None, None);
      if id.None? {
        return None;
      }
      hide Apply;
      ok := Exec(Cite(id.value, ep.id, p.quote, p.pass));
      if !ok {
        return None;
      }
      ok := Exec(LinkRows({c}, id.value));
      if !ok {
        return None;
      }
      ok := Exec(Record(Invalidation(p.draft.key.tenant, c, Some(id.value), validTo, Superseded)));
      if !ok {
        return None;
      }
      RunFive(old(State()), plan.stmts);
      return Some(plan);
    }

    /** Commit: all of it or nothing. */
    method Commit(ep: Episode, ps: seq<Proposal>, rejected: nat) returns (r: Result<CommitResult, Failure>)
      modifies this
      ensures r.Err? ==> State() == old(State())
      ensures r.Ok? ==> State() == Committing.Commit(old(State()), ep, ps, rejected)
      ensures r.Ok? ==> r.value == ReportOf(Plans(Apply(old(State()), SaveEpisode(ep)), ep, ps))
    {
      hide Apply, PlanFor, Committing.CommitOne, CommitAll, Plans, ReportOf, Constraints;
      var before := State();
      var res := CommitResult([], map[], []);
      var ok := Exec(SaveEpisode(ep));
      if !ok {
        return Err(Unavailable);
      }
      ghost var saved := State();
      StepsNone(saved, ep);
      assert ps[..0] == [];
      for i := 0 to |ps|
        invariant State() == CommitAll(saved, ep, ps[..i])
        invariant res == ReportOf(Plans(saved, ep, ps[..i])) && |res.ids| == i
      {
        StepsAppend(saved, ep, ps[..i], ps[i]);
        assert ps[..i + 1] == ps[..i] + [ps[i]];
        var done := CommitOne(ep, ps[i]);
        if done.None? {
          Rollback(before);
          return Err(Unavailable);
        }
        var plan := done.value;
        res := res.(outcomes := res.outcomes[plan.outcome := CountOf(res.outcomes, plan.outcome) + 1],
                    ids := res.ids + [plan.id]);
        if plan.replaced.Some? {
          res := res.(superseded := res.superseded + [Supersession(plan.replaced.value, plan.id)]);
        }
      }
      assert ps[..|ps|] == ps;
      ok := Exec(LogIngest(ep.tenant, ep.hash, ep.id, |res.ids|, rejected));
      if !ok {
        Rollback(before);
        return Err(Unavailable);
      }
      return Ok(res);
    }

    /** A scan, then one statement of its own for each row: a failure leaves the rows written before it. */
    method ApplyDecay(tenant: string, now: int, floor: real, factor: (Kind, int) -> real)
      returns (r: DecayResult, ok: bool)
      modifies this
      ensures var updates := Sweep(old(rows), tenant, now, Floor(floor), factor, |old(rows)|);
              && r.scanned <= CountScanned(old(rows), tenant, |old(rows)|)
              && (ok || r.decayed > 0 ==> r.scanned == CountScanned(old(rows), tenant, |old(rows)|))
              && r.decayed <= |updates| <= CountScanned(old(rows), tenant, |old(rows)|)
              && (ok ==> r.decayed == |updates|)
              && State() == Run(old(State()), Writes(updates[..r.decayed]))
              && r.archived == CountArchived(updates[..r.decayed])
    {
      hide Apply, Sweep, AsStmt, Run;
      NothingWritten(State());
      var updates, scanned := ScanForDecay(rows, tenant, now, floor, factor);
      assert updates[..0] == [];
      if * {
        var read: nat :| read <= scanned;
        return DecayResult(read, 0, 0), false;
      }
      r := DecayResult(scanned, 0, 0);
      for i := 0 to |updates|
        invariant r.scanned == scanned && r.decayed == i && r.archived == CountArchived(updates[..i])
        invariant State() == Run(old(State()), Writes(updates[..i]))
      {
        WritesSnoc(old(State()), updates[..i], updates[i]);
        assert updates[..i + 1] == updates[..i] + [updates[i]];
        ok := Exec(AsStmt(updates[i]));
        if !ok {
          return;
        }
        r := DecayResult(scanned, r.decayed + 1, r.archived + (if updates[i].archive then 1 else 0));
      }
      assert updates[..|updates|] == updates;
      return r, true;
    }

    /** Consolidate: all of it or nothing. */
    method Consolidate(g: Group, s: Summary, closedAt: int) returns (r: Result<nat, Failure>)
      modifies this
      ensures var plan := ConsolidatePlan(|old(rows)|, g, s, closedAt);
              && (r.Err? ==> State() == old(State()))
              && (r.Ok? ==> plan.Ok? && r.value == |old(rows)| && State() == Run(old(State()), plan.value))
              && (plan.Err? ==> r == Err(Refused(plan.error)))
              && (plan.Ok? && r.Err? ==> r.error == Unavailable)
    {
      hide Apply, SharedAcl, Run, AllSubjects, Earliest, LedgerFor;
      if |g.members| < 2 {
        return Err(Refused(TooFew));
      }
      var shared := SharedAclGroups(g.members);
      if |shared| == 0 {
        return Err(Refused(NoSharedGroup));
      }
      var row := SummaryOf(g, s, shared, closedAt);
      var before, ids, n := State(), Ids(g.members), |rows|;
      ghost var plan := ConsolidatePlan(n, g, s, closedAt).value;
      var ok := Exec(CloseOpen(ids, closedAt));
      if !ok {
        return Err(Unavailable);
      }
      ok := Exec(InsertRow(row));
      if !ok {
        Rollback(before);
        return Err(Unavailable);
      }
      ok := Exec(LinkRows(ids, n));
      if !ok {
        Rollback(before);
        return Err(Unavailable);
      }
      ok := Exec(InheritCitations(n, ids));
      if !ok {
        Rollback(before);
        return Err(Unavailable);
      }
      assert Run(before, plan) == Run(State(), LedgerFor(g.members, g.key.tenant, n, closedAt)) by {
        RunFour(before, plan);
      }
      for i := 0 to |g.members|
        invariant Run(before, plan) == Run(State(), LedgerFor(g.members[i..], g.key.tenant, n, closedAt))
      {
        LedgerForFirst(State(), g.members[i..], g.key.tenant, n, closedAt);
        assert g.members[i..][1..] == g.members[i + 1..];
        ok := Exec(Record(Invalidation(g.key.tenant, g.members[i].id, Some(n), closedAt, Consolidated)));
        if !ok {
          Rollback(before);
          return Err(Unavailable);
        }
      }
      LedgerForNone(State(), g.key.tenant, n, closedAt);
      return Ok(n);
    }

    /** Document deletion without purge: all of it or nothing. Reports how many memories it closed. */
    method InvalidateByDocument(tenant: string, document: string, at: int) returns (r: Result<nat, Failure>)
      modifies this
      ensures r.Err? ==> State() == old(State()) && r.error == Unavailable
      ensures r.Ok? ==> State() == Run(old(State()), InvalidatePlan(old(State()), tenant, document, at))
      ensures r.Ok? ==> r.value == |Orphans(old(State()), tenant, document)|
    {
      hide Apply, Run, Orphans, CitersOf;
      if * {
        return Err(Unavailable);
      }
      var before := State();
      var ids := CitersOf(before, tenant, document);
      RunNothing(before);
      if ids == {} {
        NoCitersNoOrphans(before, tenant, document);
        return Ok(0);
      }
      var open := Orphans(before, tenant, document);
      var ok := Exec(CloseOpen(open, at));
      if !ok {
        return Err(Unavailable);
      }
      ghost var closed := State();
      RunNothing(closed);
      for id := 0 to |before.rows|
        invariant State() == Run(closed, DeletionLedger(ids, tenant, at, id))
      {
        DeletionLedgerNext(closed, ids, tenant, at, id);
        if id in ids {
          ok := Exec(Record(Invalidation(tenant, id, None, at, SourceDeleted)));
          if !ok {
            Rollback(before);
            return Err(Unavailable);
          }
        }
      }
      RunFirst(before, InvalidatePlan(before, tenant, document, at));
      return Ok(|open|);
    }
  }

  lemma StepsNone(db: Db, ep: Episode)
    ensures CommitAll(db, ep, []) == db && ReportOf(Plans(db, ep, [])) == CommitResult([], map[], [])
  {
  }

  lemma {:induction false} StepsAppend(db: Db, ep: Episode, ps: seq<Proposal>, p: Proposal)
    ensures CommitAll(db, ep, ps + [p]) == CommitOne(CommitAll(db, ep, ps), ep, p)
    ensures Plans(db, ep, ps + [p]) == Plans(db, ep, ps) + [PlanFor(CommitAll(db, ep, ps), ep, p)]
    ensures ReportOf(Plans(db, ep, ps + [p])) ==
              Noted(ReportOf(Plans(db, ep, ps)), PlanFor(CommitAll(db, ep, ps), ep, p))
    decreases |ps|
  {
    hide CommitOne, PlanFor, Noted;
    var all := Plans(db, ep, ps) + [PlanFor(CommitAll(db, ep, ps), ep, p)];
    assert all[..|all| - 1] == Plans(db, ep, ps);
    if ps == [] {
      assert [p][1..] == [] && [] + [p] == [p];
    } else {
      assert (ps + [p])[0] == ps[0] && (ps + [p])[1..] == ps[1..] + [p];
      StepsAppend(CommitOne(db, ep, ps[0]), ep, ps[1..], p);
    }
  }

  /** isRestatement, attribute by attribute. */
  method Restates(current: Memory, d: Draft) returns (r: bool)
    ensures r == IsRestatement(current, d)
  {
    hide StatementSimilarity, EqualFoldTrim;
    var rest := d.attributes.Keys;
    while rest != {}
      invariant rest <= d.attributes.Keys
      invariant forall k :: k in d.attributes && k !in rest && k in current.attributes ==>
                  EqualFoldTrim(current.attributes[k], d.attributes[k])
      decreases rest
    {
      var k :| k in rest;
      if k in current.attributes && !EqualFoldTrim(current.attributes[k], d.attributes[k]) {
        return false;
      }
      rest := rest - {k};
    }
    if d.key.kind == Task && current.taskStatus != d.taskStatus {
      return false;
    }
    var sim := ComputeSimilarity(current.statement, d.statement);
    return sim >= 0.8;
  }

  /** mergeAttrs, entry by entry. */
  method MergeAttributes(a: map<string, string>, b: map<string, string>) returns (out: map<string, string>)
    ensures out == MergeAttrs(a, b)
  {
    out := a;
    var rest := b.Keys;
    while rest != {}
      invariant rest <= b.Keys
      invariant out == (map k | k in b && k !in rest :: b[k]) + a
      decreases rest
    {
      var k :| k in rest;
      if k !in out {
        out := out[k := b[k]];
      }
      rest := rest - {k};
    }
    assert (map k | k in b && k !in rest :: b[k]) == b;
  }

  /** The summary row, built up member by member. */
  method SummaryOf(g: Group, s: Summary, shared: seq<string>, closedAt: int) returns (m: Memory)
    requires g.members != [] && shared == SharedAcl(g.members)
    ensures m == SummaryRow(g, s, closedAt)
  {
    hide MergeStrings, SharedAcl;
    var from := s.validFrom;
    if from == 0 {
      from := g.members[0].row.validFrom;
    }
    var subjects := s.subjects;
    for i := 0 to |g.members|
      invariant AllSubjects(g.members[i..], subjects) == AllSubjects(g.members, s.subjects)
      invariant Earliest(g.members[i..], from) ==
                Earliest(g.members, if s.validFrom == 0 then g.members[0].row.validFrom else s.validFrom)
    {
      assert g.members[i..][1..] == g.members[i + 1..];
      subjects := MergeLists(subjects, g.members[i].row.subjects);
      if g.members[i].row.validFrom < from {
        from := g.members[i].row.validFrom;
      }
    }
    return Memory(g.key, s.topicRaw, s.statement, s.attributes, subjects, Unset, s.confidence, 1.0, from, None,
                  if s.ingestedAt == 0 then closedAt else s.ingestedAt, None, shared, closedAt, false);
  }

  lemma NothingWritten(db: Db)
    ensures Run(db, Writes([])) == db
  {
    assert Writes([]) == [];
  }

  lemma RunFirst(db: Db, s: seq<Stmt>)
    requires s != []
    ensures Run(db, s) == Run(Apply(db, s[0]), s[1..])
  {
  }

  lemma RunFour(db: Db, s: seq<Stmt>)
    requires |s| >= 4
    ensures Run(db, s) == Run(Apply(Apply(Apply(Apply(db, s[0]), s[1]), s[2]), s[3]), s[4..])
  {
    hide Apply;
    RunTwo(db, s[..2]);
    RunTwo(Run(db, s[..2]), s[2..4]);
    RunAppend(db, s[..2], s[2..]);
    RunAppend(Run(db, s[..2]), s[2..4], s[4..]);
    assert s == s[..2] + s[2..] && s[2..] == s[2..4] + s[4..];
  }

  lemma LedgerForFirst(db: Db, members: seq<Member>, tenant: string, n: nat, closedAt: int)
    requires members != []
    ensures Run(db, LedgerFor(members, tenant, n, closedAt)) ==
            Run(Apply(db, Record(Invalidation(tenant, members[0].id, Some(n), closedAt, Consolidated))),
                LedgerFor(members[1..], tenant, n, closedAt))
  {
    hide Apply;
    var all := LedgerFor(members, tenant, n, closedAt);
    assert all[1..] == LedgerFor(members[1..], tenant, n, closedAt);
  }

  lemma LedgerForNone(db: Db, tenant: string, n: nat, closedAt: int)
    ensures Run(db, LedgerFor([], tenant, n, closedAt)) == db
  {
  }

  lemma DeletionLedgerNext(db: Db, ids: set<nat>, tenant: string, at: int, n: nat)
    ensures var mid := Run(db, DeletionLedger(ids, tenant, at, n));
            Run(db, DeletionLedger(ids, tenant, at, n + 1)) ==
            if n in ids then Apply(mid, Record(Invalidation(tenant, n, None, at, SourceDeleted))) else mid
  {
    hide Apply;
    var prior := DeletionLedger(ids, tenant, at, n);
    if n in ids {
      var line := Record(Invalidation(tenant, n, None, at, SourceDeleted));
      RunAppend(db, prior, [line]);
      RunFirst(Run(db, prior), [line]);
      RunNothing(Apply(Run(db, prior), line));
      assert [line][1..] == [];
    } else {
      assert prior + [] == prior;
    }
  }

  lemma NoCitersNoOrphans(db: Db, tenant: string, document: string)
    requires CitersOf(db, tenant, document) == {}
    ensures Orphans(db, tenant, document) == {}
  {
  }
}
