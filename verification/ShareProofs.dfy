/** Grants stay unique, and a refused or revoked grant exposes nothing ever again. */
module ShareProofs {
  import opened Basics
  import opened GovernanceTypes
  import opened MemorySpec
  import opened MemoryProofs
  import opened ShareSpec
  import Text
  import Chunker

  // ------------------------------------------------- stable keys identify audiences

  lemma {:induction false} HexInjective(u: nat, v: nat, n: nat)
    requires Hex(u, n) == Hex(v, n) && u < Power16(n) && v < Power16(n)
    ensures u == v
  {
    if n > 0 {
      assert Hex(u, n)[..n - 1] == Hex(u / 16, n - 1) && Hex(u, n)[n - 1] == HexDigit(u % 16);
      assert Hex(v, n)[..n - 1] == Hex(v / 16, n - 1) && Hex(v, n)[n - 1] == HexDigit(v % 16);
      HexInjective(u / 16, v / 16, n - 1);
      DigitInjective(u % 16, v % 16);
    }
  }

  lemma DigitInjective(d: nat, e: nat)
    requires d < 16 && e < 16 && HexDigit(d) == HexDigit(e)
    ensures d == e
  {
    var digits := "0123456789abcdef";
    assert digits[d] == digits[e];
  }

  function Power16(n: nat): nat {
    if n == 0 then 1 else 16 * Power16(n - 1)
  }

  lemma UuidsFit(u: Uuid)
    ensures u < Power16(32)
  {
    assert Power16(8) == 0x1_0000_0000;
    assert Power16(16) == 0x1_0000_0000_0000_0000;
    assert Power16(24) == 0x1_0000_0000_0000_0000_0000_0000;
    assert Power16(32) == 0x1_0000_0000_0000_0000_0000_0000_0000_0000;
  }

  lemma UuidTextInjective(u: Uuid, v: Uuid)
    requires UuidText(u) == UuidText(v)
    ensures u == v
  {
    hide Hex;
    var a, b := Hex(u, 32), Hex(v, 32);
    var s, t := UuidText(u), UuidText(v);
    assert s[..8] == a[..8] && t[..8] == b[..8];
    assert s[9..13] == a[8..12] && t[9..13] == b[8..12];
    assert s[14..18] == a[12..16] && t[14..18] == b[12..16];
    assert s[19..23] == a[16..20] && t[19..23] == b[16..20];
    assert s[24..] == a[20..] && t[24..] == b[20..];
    assert a == a[..8] + a[8..12] + a[12..16] + a[16..20] + a[20..];
    assert b == b[..8] + b[8..12] + b[12..16] + b[16..20] + b[20..];
    UuidsFit(u);
    UuidsFit(v);
    HexInjective(u, v, 32);
  }

  /** Two audiences share a key only if they are the same audience. */
  lemma StableKeyIdentifies(a: Audience, b: Audience)
    ensures StableKey(a) == StableKey(b) <==> a == b
  {
    hide UuidText;
    if StableKey(a) == StableKey(b) {
      assert StableKey(a)[0] == StableKey(b)[0];
      match a
      case Organization =>
      case Workspace(w) => assert StableKey(a)[10..] == w && StableKey(b)[10..] == b.workspace;
      case Agent(u) =>
        assert StableKey(a)[6..] == UuidText(u) && StableKey(b)[6..] == UuidText(b.subject);
        UuidTextInjective(u, b.subject);
      case User(u) =>
        assert StableKey(a)[5..] == UuidText(u) && StableKey(b)[5..] == UuidText(b.subject);
        UuidTextInjective(u, b.subject);
    }
  }

  // ------------------------------------------------- every operation

  lemma OtherSubjectsUnmoved(memories: map<Uuid, Memory>, events: seq<Event>, more: seq<Event>)
    requires MemoriesValid(memories, events) && forall e :: e in more ==> e.subject.ShareSubject?
    ensures MemoriesValid(memories, events + more)
  {
    hide ChainsEnd, MemoryFits;
    forall id
      ensures Announced(memories, events + more, id)
    {
      assert Announced(memories, events, id);
      VersionsAppend(events, more, MemorySubject(id));
      NoVersions(more, MemorySubject(id));
    }
  }

  lemma {:induction false} NoVersions(events: seq<Event>, subject: Subject)
    requires forall e :: e in events ==> e.subject != subject
    ensures Versions(events, subject) == []
  {
    if events != [] {
      NoVersions(events[..|events| - 1], subject);
    }
  }

  /** Memory operations leave grants valid: they never drop a memory or move it to another workspace. */
  lemma SharesUnmoved(r: Registry, memories': map<Uuid, Memory>, more: seq<Event>)
    requires SharesValid(r.memories, r.shares, r.events) && Supersedes(r.memories, memories')
    requires forall e :: e in more ==> e.subject.MemorySubject?
    ensures SharesValid(memories', r.shares, r.events + more)
  {
    hide UniqueGrants, ShareFits;
    forall id | id in r.shares
      ensures Backed(memories', r.shares[id])
    {
      assert Backed(r.memories, r.shares[id]);
      assert Evolves(r.memories[r.shares[id].memoryId], memories'[r.shares[id].memoryId]);
    }
    forall id
      ensures ShareAnnounced(r.shares, r.events + more, id)
    {
      assert ShareAnnounced(r.shares, r.events, id);
      VersionsAppend(r.events, more, ShareSubject(id));
      NoVersions(more, ShareSubject(id));
    }
  }

  lemma CreateKeepsRegistry(r: Registry, new': NewMemory, id: Uuid, now: nat)
    requires RegistryValid(r) && id !in r.memories
    ensures RegistryValid(Create(r, new', id, now).0)
  {
    hide MemoriesValid, SharesValid, ValidateMemory;
    CreateKeepsValid(r, new', id, now);
    var (r', res) := Create(r, new', id, now);
    if res.Ok? { SharesUnmoved(r, r'.memories, r'.events[|r.events|..]); }
  }

  lemma TransitionKeepsRegistry(r: Registry, id: Uuid, scope: Scope, change: Change, now: nat)
    requires RegistryValid(r)
    ensures RegistryValid(Transition(r, id, scope, change, now).0)
  {
    hide MemoriesValid, SharesValid, CheckTransition;
    TransitionKeepsValid(r, id, scope, change, now);
    TransitionSupersedes(r, id, scope, change, now);
    var (r', res) := Transition(r, id, scope, change, now);
    if res.Ok? && res.value.Some? { SharesUnmoved(r, r'.memories, r'.events[|r.events|..]); }
  }

  lemma ExpireKeepsRegistry(r: Registry, now: nat)
    requires RegistryValid(r)
    ensures RegistryValid(Expire(r, now))
  {
    hide MemoriesValid, SharesValid, InOrder, Ascending;
    ExpireKeepsValid(r, now);
    ExpireSupersedes(r, now);
    var due := InOrder(DueMemories(r.memories, now));
    SharesUnmoved(r, Expire(r, now).memories, ExpiryEvents(r.memories, due));
  }

  lemma ProposeKeepsRegistry(r: Registry, id: Uuid, scope: Scope, memoryId: Uuid, audience: Audience, proposedBy: Uuid,
                             expiresAt: Option<nat>, now: nat)
    requires RegistryValid(r) && id !in r.shares
    ensures var (r', res) := Propose(r, id, scope, memoryId, audience, proposedBy, expiresAt, now);
      && RegistryValid(r') && r'.memories == r.memories && (res.Err? ==> r' == r)
      && (res.Ok? ==> forall s :: s in r.shares ==> !SameGrant(r.shares[s], res.value))
  {
    hide MemoriesValid, CheckScope, ValidAudience, CheckExpiry, StableKey, ShareFits;
    var (r', res) := Propose(r, id, scope, memoryId, audience, proposedBy, expiresAt, now);
    if res.Ok? {
      OtherSubjectsUnmoved(r.memories, r.events, r'.events[|r.events|..]);
      forall s | s in r.shares
        ensures !SameGrant(r.shares[s], res.value)
      {
        StableKeyIdentifies(r.shares[s].audience, audience);
      }
      ProposedShareFits(r, r'.shares[id], id);
      ShareLogged(r, r', id);
    }
  }

  lemma ProposedShareFits(r: Registry, share: Share, id: Uuid)
    requires share.id == id && share.state == Pending && share.version == 1
    ensures ShareFits(share, id)
  {
  }

  /** Writing one grant and announcing its next version keeps every grant announced. */
  lemma ShareLogged(r: Registry, r': Registry, id: Uuid)
    requires forall s :: ShareAnnounced(r.shares, r.events, s)
    requires id in r'.shares && r'.shares == r.shares[id := r'.shares[id]]
    requires r'.shares[id].version == (if id in r.shares then r.shares[id].version else 0) + 1
    requires |r'.events| == |r.events| + 1 && r'.events == r.events + [r'.events[|r.events|]]
    requires r'.events[|r.events|].subject == ShareSubject(id) && r'.events[|r.events|].version == r'.shares[id].version
    ensures forall s :: ShareAnnounced(r'.shares, r'.events, s)
  {
    forall s
      ensures ShareAnnounced(r'.shares, r'.events, s)
    {
      assert ShareAnnounced(r.shares, r.events, s);
      VersionsSnoc(r.events, r'.events[|r.events|], ShareSubject(s));
      CountOneMore(if s in r.shares then r.shares[s].version else 0);
    }
  }

  lemma ReviewKeepsRegistry(r: Registry, id: Uuid, scope: Scope, state: ReviewState, reviewedBy: Uuid,
                            note: Option<string>, now: nat)
    requires RegistryValid(r)
    ensures var (r', res) := Review(r, id, scope, state, reviewedBy, note, now);
      && RegistryValid(r') && r'.memories == r.memories && (res.Err? || res.value.None? ==> r' == r)
      && (res.Ok? && res.value.Some? ==> id in r.shares && CanTransitionTo(r.shares[id].state, state)
                                         && r'.shares[id].state == state)
  {
    hide MemoriesValid, CheckScope, Text.Utf8Len, Chunker.IsBlank, IsRetrievable;
    var (r', res) := Review(r, id, scope, state, reviewedBy, note, now);
    if res.Ok? && res.value.Some? {
      OtherSubjectsUnmoved(r.memories, r.events, r'.events[|r.events|..]);
      assert ShareFits(r.shares[id], id) && Backed(r.memories, r.shares[id]);
      ShareLogged(r, r', id);
    }
  }
}
