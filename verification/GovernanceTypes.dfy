/** Durable memories, the grants that share them, and the outbox log both write to. */
module GovernanceTypes {
  import opened Basics

  const MAX_MEMORY_RETENTION_MS := 365 * 24 * 60 * 60 * 1_000

  datatype Lifecycle = Proposed | Validated | Published | Superseded | Expired

  datatype Retention = Indefinite | ExpireAt

  datatype Memory = Memory(id: Uuid, scope: Scope, content: string, source: Option<string>, contentSha: Digest,
                           confidence: real, lifecycle: Lifecycle, updatedAt: nat, expiresAt: Option<nat>,
                           supersededBy: Option<Uuid>, version: nat, retention: Retention)

  datatype NewMemory = NewMemory(scope: Scope, content: string, source: Option<string>, confidence: real,
                                 expiresAt: Option<nat>)

  datatype Change = Change(lifecycle: Lifecycle, expiresAt: Option<nat>, supersededBy: Option<Uuid>)

  datatype SubjectKind = AgentSubject | UserSubject

  datatype Audience =
    | Organization
    | Workspace(workspace: string)
    | Agent(subject: Uuid)
    | User(subject: Uuid)

  datatype ReviewState = Pending | Approved | Rejected | Revoked

  datatype Share = Share(id: Uuid, scope: Scope, memoryId: Uuid, audience: Audience, state: ReviewState,
                         proposedBy: Uuid, reviewedBy: Option<Uuid>, note: Option<string>, memoryVersion: nat,
                         expiresAt: Option<nat>, updatedAt: nat, version: nat)

  datatype Subject = MemorySubject(id: Uuid) | ShareSubject(id: Uuid)

  datatype EventKind = MemoryProposed | MemoryLifecycleChanged | ShareProposed | ShareReviewed

  datatype Event = Event(kind: EventKind, subject: Subject, scope: Scope, version: nat)

  datatype Registry = Registry(memories: map<Uuid, Memory>, shares: map<Uuid, Share>, events: seq<Event>)

  const EMPTY_REGISTRY := Registry(map[], map[], [])

  predicate IsLater(at: Option<nat>, now: nat) {
    at.None? || at.value > now
  }

  predicate IsRetrievable(m: Memory, now: nat) {
    m.lifecycle == Published && IsLater(m.expiresAt, now)
  }

  // ------------------------------------------------- the outbox log

  /** The versions announced for one subject, in the order they were written. */
  ghost function Versions(events: seq<Event>, subject: Subject): seq<nat> {
    if events == [] then []
    else
      var n := |events| - 1;
      Versions(events[..n], subject) + if events[n].subject == subject then [events[n].version] else []
  }

  /** 1, 2, ..., n. */
  ghost function CountUp(n: nat): (r: seq<nat>)
    ensures |r| == n
  {
    seq(n, i => i + 1)
  }

  lemma CountOneMore(n: nat)
    ensures CountUp(n) + [n + 1] == CountUp(n + 1)
  {
  }

  lemma VersionsSnoc(events: seq<Event>, e: Event, subject: Subject)
    ensures Versions(events + [e], subject)
         == Versions(events, subject) + if e.subject == subject then [e.version] else []
  {
    assert (events + [e])[..|events|] == events;
  }

  lemma {:induction false} VersionsAppend(events: seq<Event>, more: seq<Event>, subject: Subject)
    ensures Versions(events + more, subject) == Versions(events, subject) + Versions(more, subject)
  {
    if more == [] {
      assert events + more == events;
    } else {
      var n := |more| - 1;
      VersionsAppend(events, more[..n], subject);
      VersionsSnoc(events + more[..n], more[n], subject);
      assert events + more[..n] + [more[n]] == events + more;
      Associative(Versions(events, subject), Versions(more[..n], subject),
                  if more[n].subject == subject then [more[n].version] else []);
    }
  }
}
