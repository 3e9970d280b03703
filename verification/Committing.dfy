/** store/commit.go: how one verified memory is reconciled with what is already current. */
module Committing {
  import opened Text
  import opened Records
  import opened Similarity
  import opened Database

  /** A memory on its way in; it has no successor and no end of validity yet. */
  datatype Draft = Draft(
    key: Key,
    topicRaw: string,
    statement: string,
    attributes: map<string, string>,
    subjects: seq<string>,
    taskStatus: TaskStatus,
    confidence: real,
    salience: real,
    validFrom: int,
    ingestedAt: int,
    acl: seq<string>,
    lastSeen: int)

  datatype Proposal = Proposal(draft: Draft, quote: string, pass: string)

  datatype Outcome = Created | Reinforced | Superseding | Backfill

  /** What commitOne does once the current row is locked: the statements, and what it reports. */
  datatype Plan = Plan(stmts: seq<Stmt>, outcome: Outcome, id: nat, replaced: Option<nat>)

  predicate EqualFoldTrim(a: string, b: string) {
    EqualFold(TrimSpace(a), TrimSpace(b))
  }

  /** Shared attributes that disagree. */
  predicate Contradicts(current: map<string, string>, incoming: map<string, string>) {
    exists k :: k in incoming && k in current && !EqualFoldTrim(current[k], incoming[k])
  }

  /** Reinforcement or supersession: substantially the same text, no contradicting attribute, and for tasks the same
      status. */
  predicate IsRestatement(current: Memory, incoming: Draft) {
    && !Contradicts(current.attributes, incoming.attributes)
    && (incoming.key.kind == Task ==> current.taskStatus == incoming.taskStatus)
    && StatementSimilarity(current.statement, incoming.statement) >= 0.8
  }

  /** The row insertMemory writes. */
  function Stored(d: Draft, validTo: Option<int>, supersededBy: Option<nat>): Memory {
    Memory(d.key, d.topicRaw, d.statement, d.attributes, d.subjects, d.taskStatus, d.confidence,
           if d.salience == 0.0 then 1.0 else d.salience,
           d.validFrom, validTo, d.ingestedAt, supersededBy, d.acl,
           if d.lastSeen == 0 then d.ingestedAt else d.lastSeen, false)
  }

  /** mergeAttrs: the current value wins. */
  function MergeAttrs(current: map<string, string>, incoming: map<string, string>): map<string, string> {
    incoming + current
  }

  /** The non-blank strings of xs, trimmed. */
  function TrimmedAll(xs: seq<string>): seq<string> {
    if xs == [] then []
    else (if TrimSpace(xs[0]) == "" then [] else [TrimSpace(xs[0])]) + TrimmedAll(xs[1..])
  }

  /** mergeStrings: the sorted union, trimmed, without blanks. */
  function MergeStrings(a: seq<string>, b: seq<string>): seq<string> {
    SortStrings(Dedupe(TrimmedAll(a + b)))
  }

  /** The loop of mergeStrings. */
  method MergeLists(a: seq<string>, b: seq<string>) returns (out: seq<string>)
    ensures out == MergeStrings(a, b)
  {
    hide TrimSpace, SortStrings, TrimmedAll, Elements, Text.Dedupe;
    var all := a + b;
    var seen: set<string> := {};
    out := [];
    assert all[..0] == [] && TrimmedAll([]) == [] && Dedupe<string>([]) == [] && Elements<string>([]) == {} by {
      NothingTrimmed();
    }
    for i := 0 to |all|
      invariant out == Dedupe(TrimmedAll(all[..i]))
      invariant seen == Elements(TrimmedAll(all[..i]))
    {
      assert all[..i + 1] == all[..i] + [all[i]];
      TrimmedAllSnoc(all[..i], all[i]);
      var s := TrimSpace(all[i]);
      assert TrimmedAll(all[..i]) + [] == TrimmedAll(all[..i]);
      if s == "" {
        continue;
      }
      DedupeSnoc(TrimmedAll(all[..i]), s);
      ElementsSnoc(TrimmedAll(all[..i]), s);
      if s in seen {
        continue;
      }
      seen := seen + {s};
      out := out + [s];
    }
    assert all[..|all|] == all;
    out := SortStrings(out);
  }

  lemma NothingTrimmed()
    ensures TrimmedAll([]) == [] && Text.Dedupe<string>([]) == [] && Elements<string>([]) == {}
  {
  }

  lemma {:induction false} TrimmedAllSnoc(xs: seq<string>, x: string)
    ensures TrimmedAll(xs + [x]) == TrimmedAll(xs) + (if TrimSpace(x) == "" then [] else [TrimSpace(x)])
  {
    hide TrimSpace;
    if xs == [] {
      assert [] + [x] == [x] && [x][1..] == [];
    } else {
      assert (xs + [x])[0] == xs[0] && (xs + [x])[1..] == xs[1..] + [x];
      TrimmedAllSnoc(xs[1..], x);
    }
  }

  lemma {:induction false} TrimmedAllExact(xs: seq<string>, g: string)
    ensures g in TrimmedAll(xs) <==> g != "" && exists x :: x in xs && TrimSpace(x) == g
  {
    hide TrimSpace;
    if xs != [] {
      TrimmedAllExact(xs[1..], g);
      assert xs == [xs[0]] + xs[1..];
      assert forall x :: x in xs <==> x == xs[0] || x in xs[1..];
    }
  }

  /** mergeStrings keeps exactly the trimmed, non-blank strings of both lists. */
  lemma MergeStringsExact(a: seq<string>, b: seq<string>, g: string)
    ensures g in MergeStrings(a, b) <==> g != "" && exists x :: x in a + b && TrimSpace(x) == g
    ensures Sorted(MergeStrings(a, b))
  {
    hide TrimSpace, TrimmedAll, SortStrings, Text.Dedupe;
    var all := TrimmedAll(a + b);
    TrimmedAllExact(a + b, g);
    DedupeFacts(all);
    SortStringsSorts(Dedupe(all));
    assert g in all <==> g in Elements(all);
    assert g in MergeStrings(a, b) <==> g in Elements(MergeStrings(a, b));
  }

  function Reinforcement(id: nat, current: Memory, d: Draft, ep: Episode): Stmt {
    ReinforceRow(id, if d.confidence > current.confidence then d.confidence else current.confidence,
                 MergeAttrs(current.attributes, d.attributes), MergeStrings(current.subjects, d.subjects),
                 MergeStrings(current.acl, d.acl), ep.occurredAt)
  }

  function CreatePlan(n: nat, ep: Episode, p: Proposal): Plan {
    Plan([InsertRow(Stored(p.draft, None, None)), Cite(n, ep.id, p.quote, p.pass)], Created, n, None)
  }

  function ReinforcePlan(c: nat, current: Memory, ep: Episode, p: Proposal): Plan {
    Plan([Reinforcement(c, current, p.draft, ep), Cite(c, ep.id, p.quote, p.pass)], Reinforced, c, None)
  }

  /** An older assertion is filed into history, closed where the current row took over. */
  function BackfillPlan(n: nat, c: nat, current: Memory, ep: Episode, p: Proposal): Plan {
    Plan([InsertRow(Stored(p.draft, Some(current.validFrom), Some(c))),
          Cite(n, ep.id, p.quote, p.pass),
          Record(Invalidation(p.draft.key.tenant, n, Some(c), current.validFrom, Backfilled))],
         Backfill, n, None)
  }

  /** The current row is closed before its successor is inserted, and linked after. */
  function SupersedePlan(n: nat, c: nat, ep: Episode, p: Proposal): Plan {
    Plan([CloseRow(c, p.draft.validFrom),
          InsertRow(Stored(p.draft, None, None)),
          Cite(n, ep.id, p.quote, p.pass),
          LinkRows({c}, n),
          Record(Invalidation(p.draft.key.tenant, c, Some(n), p.draft.validFrom, Superseded))],
         Superseding, n, Some(c))
  }

  function PlanFor(db: Db, ep: Episode, p: Proposal): Plan {
    var n, d := |db.rows|, p.draft;
    if !Supersedes(d.key.kind) then CreatePlan(n, ep, p)
    else
      var c := FindLive(db.rows, d.key);
      if c.None? then CreatePlan(n, ep, p)
      else
        var current := db.rows[c.value];
        if IsRestatement(current, d) then ReinforcePlan(c.value, current, ep, p)
        else if d.validFrom < current.validFrom then BackfillPlan(n, c.value, current, ep, p)
        else SupersedePlan(n, c.value, ep, p)
  }

  /** commitOne. */
  function CommitOne(db: Db, ep: Episode, p: Proposal): Db {
    Run(db, PlanFor(db, ep, p).stmts)
  }

  /** The proposal loop of Commit. */
  function CommitAll(db: Db, ep: Episode, ps: seq<Proposal>): Db
    decreases |ps|
  {
    if ps == [] then db else CommitAll(CommitOne(db, ep, ps[0]), ep, ps[1..])
  }

  /** Commit: the episode, the proposals in order, the ingest log last. */
  function Commit(db: Db, ep: Episode, ps: seq<Proposal>, rejected: nat): Db {
    var saved := Apply(db, SaveEpisode(ep));
    Apply(CommitAll(saved, ep, ps), LogIngest(ep.tenant, ep.hash, ep.id, |ps|, rejected))
  }

  // ---- what each outcome leaves behind ----

  /** The current row after a reinforcement. */
  function ReinforcedRow(current: Memory, d: Draft, ep: Episode): Memory {
    Updated(Reinforcement(0, current, d, ep), 0, current)
  }

  lemma CreateShape(db: Db, ep: Episode, p: Proposal)
    requires PlanFor(db, ep, p).outcome == Created
    ensures var db', n := CommitOne(db, ep, p), |db.rows|;
            && db'.rows == db.rows + [Stored(p.draft, None, None)]
            && db'.provenance == Cited(db, n, ep.id, p.quote, p.pass)
            && db'.ledger == db.ledger && db'.episodes == db.episodes && db'.ingest == db.ingest
  {
    hide IsRestatement, FindLive;
    RunTwo(db, PlanFor(db, ep, p).stmts);
  }

  lemma ReinforceShape(db: Db, ep: Episode, p: Proposal)
    requires PlanFor(db, ep, p).outcome == Reinforced
    ensures var db', c := CommitOne(db, ep, p), PlanFor(db, ep, p).id;
            && c < |db.rows| && FindLive(db.rows, p.draft.key) == Some(c)
            && db'.rows == db.rows[c := ReinforcedRow(db.rows[c], p.draft, ep)]
            && db'.provenance == Cited(db, c, ep.id, p.quote, p.pass)
            && db'.ledger == db.ledger && db'.episodes == db.episodes && db'.ingest == db.ingest
  {
    hide IsRestatement, MergeStrings, FindLive;
    var plan := PlanFor(db, ep, p);
    RunTwo(db, plan.stmts);
    UpdatesOne(db, plan.stmts[0], plan.id);
  }

  /** An UPDATE of a single row. */
  lemma UpdatesOne(db: Db, s: Stmt, id: nat)
    requires id < |db.rows| && forall i :: 0 <= i < |db.rows| && i != id ==> Updated(s, i, db.rows[i]) == db.rows[i]
    ensures UpdatedRows(db, s) == db.rows[id := Updated(s, id, db.rows[id])]
  {
  }

  lemma BackfillShape(db: Db, ep: Episode, p: Proposal)
    requires PlanFor(db, ep, p).outcome == Backfill
    ensures var db', n, c := CommitOne(db, ep, p), |db.rows|, FindLive(db.rows, p.draft.key);
            && c.Some? && p.draft.validFrom < db.rows[c.value].validFrom
            && db'.rows == db.rows + [Stored(p.draft, Some(db.rows[c.value].validFrom), c)]
            && db'.provenance == Cited(db, n, ep.id, p.quote, p.pass)
            && db'.ledger ==
                 db.ledger + [Invalidation(p.draft.key.tenant, n, c, db.rows[c.value].validFrom, Backfilled)]
            && db'.episodes == db.episodes && db'.ingest == db.ingest
  {
    hide IsRestatement, FindLive;
    RunThree(db, PlanFor(db, ep, p).stmts);
  }

  lemma SupersedeShape(db: Db, ep: Episode, p: Proposal)
    requires PlanFor(db, ep, p).outcome == Superseding
    ensures var db', n, c := CommitOne(db, ep, p), |db.rows|, FindLive(db.rows, p.draft.key);
            && c.Some? && db.rows[c.value].validFrom <= p.draft.validFrom
            && db'.rows == db.rows[c.value := db.rows[c.value].(validTo := Some(p.draft.validFrom),
                                                               supersededBy := Some(n))] +
                           [Stored(p.draft, None, None)]
            && db'.provenance == Cited(db, n, ep.id, p.quote, p.pass)
            && db'.ledger ==
                 db.ledger + [Invalidation(p.draft.key.tenant, c.value, Some(n), p.draft.validFrom, Superseded)]
            && db'.episodes == db.episodes && db'.ingest == db.ingest
  {
    hide IsRestatement, FindLive, Apply;
    var plan := PlanFor(db, ep, p);
    RunFive(db, plan.stmts);
    SupersedeRows(db, ep, p, plan.replaced.value);
    SupersedeTables(db, ep, p, plan.replaced.value);
  }

  /** The rows along a supersession: closed, joined by the successor, linked to it. */
  lemma SupersedeRows(db: Db, ep: Episode, p: Proposal, c: nat)
    requires c < |db.rows|
    ensures var s := SupersedePlan(|db.rows|, c, ep, p).stmts;
            var db1 := Apply(db, s[0]);
            var db2 := Apply(db1, s[1]);
            var db3 := Apply(db2, s[2]);
            var closed := db.rows[c].(validTo := Some(p.draft.validFrom));
            && db1.rows == db.rows[c := closed]
            && db2.rows == db1.rows + [Stored(p.draft, None, None)]
            && db3.rows == db2.rows
            && Apply(db3, s[3]).rows == db3.rows[c := closed.(supersededBy := Some(|db.rows|))]
  {
    hide Stored, Updated, Cited;
    var s := SupersedePlan(|db.rows|, c, ep, p).stmts;
    var db3 := Apply(Apply(Apply(db, s[0]), s[1]), s[2]);
    ClosesOne(db, c, p.draft.validFrom);
    LinksOne(db3, c, |db.rows|);
  }

  lemma ClosesOne(db: Db, c: nat, at: int)
    requires c < |db.rows|
    ensures Apply(db, CloseRow(c, at)).rows == db.rows[c := db.rows[c].(validTo := Some(at))]
  {
    UpdatesOne(db, CloseRow(c, at), c);
  }

  lemma LinksOne(db: Db, c: nat, successor: nat)
    requires c < |db.rows|
    ensures Apply(db, LinkRows({c}, successor)).rows == db.rows[c := db.rows[c].(supersededBy := Some(successor))]
  {
    UpdatesOne(db, LinkRows({c}, successor), c);
  }

  /** The other tables after a supersession. */
  lemma SupersedeTables(db: Db, ep: Episode, p: Proposal, c: nat)
    ensures var s := SupersedePlan(|db.rows|, c, ep, p).stmts;
            var db4 := Apply(Apply(Apply(Apply(db, s[0]), s[1]), s[2]), s[3]);
            var db5 := Apply(db4, s[4]);
            && db5.rows == db4.rows
            && db5.provenance == Cited(db, |db.rows|, ep.id, p.quote, p.pass)
            && db5.ledger ==
                 db.ledger + [Invalidation(p.draft.key.tenant, c, Some(|db.rows|), p.draft.validFrom, Superseded)]
            && db5.episodes == db.episodes && db5.ingest == db.ingest
  {
    hide Stored, Updated, UpdatedRows;
  }

  lemma RunTwo(db: Db, s: seq<Stmt>)
    requires |s| == 2
    ensures Run(db, s) == Apply(Apply(db, s[0]), s[1])
  {
    hide Apply;
    var db1 := Apply(db, s[0]);
    assert Run(db, s) == Run(db1, s[1..]);
    assert s[1..] == [s[1]];
    assert Run(db1, [s[1]]) == Run(Apply(db1, s[1]), []);
  }

  lemma RunThree(db: Db, s: seq<Stmt>)
    requires |s| == 3
    ensures Run(db, s) == Apply(Apply(Apply(db, s[0]), s[1]), s[2])
  {
    hide Apply;
    RunTwo(Apply(db, s[0]), s[1..]);
  }

  lemma RunFive(db: Db, s: seq<Stmt>)
    requires |s| == 5
    ensures Run(db, s) == Apply(Apply(Apply(Apply(Apply(db, s[0]), s[1]), s[2]), s[3]), s[4])
  {
    hide Apply;
    RunThree(db, s[..3]);
    RunTwo(Run(db, s[..3]), s[3..]);
    assert s == s[..3] + s[3..];
    RunAppend(db, s[..3], s[3..]);
  }
}
