/** The domain model: what a memory and an episode are, and the two clocks of a memory. Times are instants counted
    from the zero time, so a zero time is 0. */
module Records {
  import opened Text

  datatype Kind = Fact | Event | Instruction | Task | Decision

  datatype TaskStatus = Unset | Open | Done | Dropped

  /** Events are a stream; every other kind describes a state that a newer memory replaces. */
  predicate Supersedes(k: Kind) {
    k != Event
  }

  /** The supersession key: tenant, kind and normalized topic. */
  datatype Key = Key(tenant: string, kind: Kind, topic: string)

  datatype Memory = Memory(
    key: Key,
    topicRaw: string,
    statement: string,
    attributes: map<string, string>,
    subjects: seq<string>,
    taskStatus: TaskStatus,
    confidence: real,
    salience: real,
    validFrom: int,
    validTo: Option<int>,
    ingestedAt: int,
    supersededBy: Option<nat>,
    acl: seq<string>,
    lastSeen: int,
    archived: bool)
  {
    /** Was the memory valid in world time at t? */
    predicate CurrentAt(t: int) {
      validFrom <= t && (validTo.None? || t < validTo.value)
    }

    /** What the partial unique index and lockCurrent call current. */
    predicate Live() {
      validTo.None? && !archived
    }
  }

  datatype Episode = Episode(
    id: string,
    tenant: string,
    document: string,
    hash: string,
    sourceType: string,
    permalink: string,
    title: string,
    body: string,
    acl: seq<string>,
    occurredAt: int,
    ingestedAt: int)
}
