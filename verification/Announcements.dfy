/** Governance writes its events into the outbox: what a consumer that polls receives of one memory or grant. */
module Announcements {
  import opened Basics
  import opened GovernanceTypes
  import opened Outbox
  import R = GovernanceRuns
  import M = MemorySpec
  import S = ShareSpec

  /** The governance tables and the outbox table of one database. */
  datatype State = State(registry: Registry, table: Table)

  /** A governance operation with the ids its events draw, or an event that some other operation writes. */
  datatype Step = GovernanceStep(op: R.Op, ids: seq<Uuid>, now: nat) | NoticeStep(e: OutboxEvent)

  function Row(id: Uuid, e: Event, now: nat): OutboxEvent {
    OutboxEvent(id, Announcement(e), e.scope.organization, Some(e.scope.workspace), now)
  }

  function Inserted(table: Table, events: seq<Event>, ids: seq<Uuid>, now: nat): Table
    requires |ids| == |events|
  {
    if events == [] then table
    else
      var n := |events| - 1;
      Inserted(table, events[..n], ids[..n], now)[ids[n] := Row(ids[n], events[n], now)]
  }

  ghost predicate Ahead(table: Table, id: Uuid) {
    forall known :: known in table ==> known < id
  }

  /** New ids are drawn in increasing order, beyond every id in the table. */
  ghost predicate CanDraw(table: Table, ids: seq<Uuid>) {
    Ascending(ids) && forall id :: id in ids ==> Ahead(table, id)
  }

  function NewEvents(r: Registry, op: R.Op): seq<Event> {
    var events := R.Apply(r, op).events;
    if |events| >= |r.events| then events[|r.events|..] else []
  }

  /** One step; ids drawn out of order are not drawn at all. */
  ghost function StepOnce(st: State, step: Step): State {
    match step
    case GovernanceStep(op, ids, now) =>
      var added := NewEvents(st.registry, op);
      if |ids| == |added| && CanDraw(st.table, ids) then
        State(R.Apply(st.registry, op), Inserted(st.table, added, ids, now))
      else st
    case NoticeStep(e) =>
      if e.body.Notice? && Ahead(st.table, e.id) then st.(table := st.table[e.id := e]) else st
  }

  const INITIAL := State(EMPTY_REGISTRY, map[])

  ghost function RunSteps(steps: seq<Step>): State {
    if steps == [] then INITIAL else StepOnce(RunSteps(steps[..|steps| - 1]), steps[|steps| - 1])
  }

  /** The methods' own way to write the events of one operation. */
  method WriteEvents(outbox: OutboxTable, events: seq<Event>, ids: seq<Uuid>, now: nat)
    requires |ids| == |events| && CanDraw(outbox.events, ids)
    modifies outbox
    ensures outbox.events == Inserted(old(outbox.events), events, ids, now)
  {
    hide Ascending;
    for i := 0 to |events|
      invariant outbox.events == Inserted(old(outbox.events), events[..i], ids[..i], now)
    {
      NotYetDrawn(old(outbox.events), events, ids, i, now);
      assert events[..i + 1][..i] == events[..i] && ids[..i + 1][..i] == ids[..i];
      var e := events[i];
      var row := outbox.InsertOutboxEvent(ids[i], Announcement(e), e.scope.organization, Some(e.scope.workspace), now);
    }
    assert events[..|events|] == events && ids[..|ids|] == ids;
  }

  lemma {:induction false} InsertedKeys(table: Table, events: seq<Event>, ids: seq<Uuid>, now: nat)
    requires |ids| == |events|
    ensures forall id :: id in Inserted(table, events, ids, now) <==> id in table || id in ids
  {
    if events != [] {
      var n := |events| - 1;
      InsertedKeys(table, events[..n], ids[..n], now);
      assert ids == ids[..n] + [ids[n]];
    }
  }

  lemma NotYetDrawn(table: Table, events: seq<Event>, ids: seq<Uuid>, i: nat, now: nat)
    requires |ids| == |events| && CanDraw(table, ids) && i < |ids|
    ensures ids[i] !in Inserted(table, events[..i], ids[..i], now)
    ensures Ahead(Inserted(table, events[..i], ids[..i], now), ids[i])
  {
    InsertedKeys(table, events[..i], ids[..i], now);
    assert ids[i] in ids;
    assert Ahead(table, ids[i]);
  }

  // ------------------------------------------------- the table grows, with new rows ahead

  ghost predicate GrowsAhead(before: Table, after: Table) {
    (forall id :: id in before ==> id in after && after[id] == before[id]) && NewRowsAhead(before, after)
  }

  lemma GrowsTransitive(a: Table, b: Table, c: Table)
    requires GrowsAhead(a, b) && GrowsAhead(b, c)
    ensures GrowsAhead(a, c)
  {
  }

  lemma OneRowGrows(table: Table, row: OutboxEvent)
    requires Ahead(table, row.id)
    ensures GrowsAhead(table, table[row.id := row])
  {
  }

  lemma {:induction false} InsertedGrows(table: Table, events: seq<Event>, ids: seq<Uuid>, now: nat)
    requires |ids| == |events| && CanDraw(table, ids)
    ensures GrowsAhead(table, Inserted(table, events, ids, now))
  {
    hide GrowsAhead, Ahead;
    if events == [] {
      NothingGrows(table);
    } else {
      var n := |events| - 1;
      FewerDrawn(table, ids, n);
      InsertedGrows(table, events[..n], ids[..n], now);
      NotYetDrawn(table, events, ids, n, now);
      var before := Inserted(table, events[..n], ids[..n], now);
      OneRowGrows(before, Row(ids[n], events[n], now));
      GrowsTransitive(table, before, Inserted(table, events, ids, now));
    }
  }

  lemma NothingGrows(table: Table)
    ensures GrowsAhead(table, table)
  {
  }

  lemma FewerDrawn(table: Table, ids: seq<Uuid>, n: nat)
    requires CanDraw(table, ids) && n <= |ids|
    ensures CanDraw(table, ids[..n])
  {
    hide Ahead;
  }

  lemma StepGrows(st: State, step: Step)
    ensures GrowsAhead(st.table, StepOnce(st, step).table)
  {
    hide GrowsAhead, Ahead, NewEvents;
    NothingGrows(st.table);
    match step
    case GovernanceStep(op, ids, now) =>
      var added := NewEvents(st.registry, op);
      if |ids| == |added| && CanDraw(st.table, ids) { InsertedGrows(st.table, added, ids, now); }
    case NoticeStep(e) => if Ahead(st.table, e.id) { OneRowGrows(st.table, e); }
  }

  lemma {:induction false} RunGrows(steps: seq<Step>, m: nat)
    requires m <= |steps|
    ensures GrowsAhead(RunSteps(steps[..m]).table, RunSteps(steps).table)
  {
    hide GrowsAhead, StepOnce;
    if m == |steps| {
      assert steps[..m] == steps;
      NothingGrows(RunSteps(steps).table);
    } else {
      var n := |steps| - 1;
      assert steps[..n][..m] == steps[..m];
      RunGrows(steps[..n], m);
      StepGrows(RunSteps(steps[..n]), steps[n]);
      GrowsTransitive(RunSteps(steps[..m]).table, RunSteps(steps[..n]).table, RunSteps(steps).table);
    }
  }

  // ------------------------------------------------- the table mirrors the log

  predicate ScopeMatches(scope: Scope, q: Query) {
    scope.organization == q.organization && (q.workspace.None? || q.workspace == Some(scope.workspace))
  }

  function VersionIn(row: OutboxEvent, subject: Subject): seq<nat> {
    if row.body.Announcement? && row.body.event.subject == subject then [row.body.event.version] else []
  }

  /** The versions of one subject among the delivered events, in the order of delivery. */
  function Received(table: Table, ids: seq<Uuid>, subject: Subject): seq<nat> {
    if ids == [] then []
    else
      var n := |ids| - 1;
      Received(table, ids[..n], subject) + if ids[n] in table then VersionIn(table[ids[n]], subject) else []
  }

  /** The versions of one subject in the part of the log that a query asks for. */
  ghost function LogVersions(events: seq<Event>, q: Query, subject: Subject): seq<nat> {
    if events == [] then []
    else
      var n := |events| - 1;
      LogVersions(events[..n], q, subject)
      + if events[n].subject == subject && ScopeMatches(events[n].scope, q) then [events[n].version] else []
  }

  ghost predicate Mirrors(table: Table, events: seq<Event>, q: Query, subject: Subject) {
    Received(table, Remaining(table, q, None), subject) == LogVersions(events, q, subject)
  }

  lemma {:induction false} ReceivedStays(table: Table, row: OutboxEvent, ids: seq<Uuid>, subject: Subject)
    requires row.id !in ids
    ensures Received(table[row.id := row], ids, subject) == Received(table, ids, subject)
  {
    if ids != [] {
      var n := |ids| - 1;
      assert ids[n] in ids;
      ReceivedStays(table, row, ids[..n], subject);
    }
  }

  /** A new row comes last for every query that it matches. */
  lemma NewRowIsLast(table: Table, row: OutboxEvent, q: Query)
    requires Ahead(table, row.id)
    ensures row.id !in Remaining(table, q, None)
    ensures Remaining(table[row.id := row], q, None)
         == Remaining(table, q, None) + if Matches(row, q) then [row.id] else []
  {
    hide Remaining, Matches;
    var after := table[row.id := row];
    var ids := Remaining(table, q, None) + if Matches(row, q) then [row.id] else [];
    RemainingExact(table, q, None);
    RemainingExact(after, q, None);
    assert forall id :: id in Remaining(table, q, None) ==> id < row.id;
    LastAscends(Remaining(table, q, None), row.id);
    forall id
      ensures id in ids <==> id in Remaining(after, q, None)
    {
    }
    AscendingIsUnique(ids, Remaining(after, q, None));
  }

  lemma LastAscends(ids: seq<Uuid>, last: Uuid)
    requires Ascending(ids) && forall id :: id in ids ==> id < last
    ensures Ascending(ids + [last]) && Ascending(ids + [])
  {
    assert ids + [] == ids;
    assert forall k :: 0 <= k < |ids| ==> ids[k] in ids;
  }

  lemma RowReceived(table: Table, row: OutboxEvent, q: Query, subject: Subject)
    requires Ahead(table, row.id)
    ensures Received(table[row.id := row], Remaining(table[row.id := row], q, None), subject)
         == Received(table, Remaining(table, q, None), subject)
            + if Matches(row, q) then VersionIn(row, subject) else []
  {
    hide Remaining, Matches, Ahead, VersionIn;
    var ids := Remaining(table, q, None);
    NewRowIsLast(table, row, q);
    ReceivedStays(table, row, ids, subject);
    assert (ids + [row.id])[..|ids|] == ids && ids + [] == ids;
  }

  lemma {:induction false} InsertedMirrors(table: Table, log: seq<Event>, events: seq<Event>, ids: seq<Uuid>, now: nat,
                                           q: Query, subject: Subject)
    requires |ids| == |events| && CanDraw(table, ids) && Mirrors(table, log, q, subject)
    ensures Mirrors(Inserted(table, events, ids, now), log + events, q, subject)
  {
    hide Remaining, Received, Ahead;
    if events == [] {
      assert log + events == log;
    } else {
      var n := |events| - 1;
      var before := Inserted(table, events[..n], ids[..n], now);
      FewerDrawn(table, ids, n);
      InsertedMirrors(table, log, events[..n], ids[..n], now, q, subject);
      NotYetDrawn(table, events, ids, n, now);
      RowReceived(before, Row(ids[n], events[n], now), q, subject);
      assert (log + events)[..|log + events| - 1] == log + events[..n];
      assert (log + events)[|log + events| - 1] == events[n];
    }
  }

  lemma EventsAreAppended(r: Registry, op: R.Op)
    ensures R.Apply(r, op).events == r.events + NewEvents(r, op)
  {
    hide M.CheckTransition, M.IsDue, InOrder, M.CheckScope, M.ValidateMemory, S.CheckProposal;
  }

  lemma StepMirrors(st: State, step: Step, q: Query, subject: Subject)
    requires Mirrors(st.table, st.registry.events, q, subject)
    ensures var st' := StepOnce(st, step); Mirrors(st'.table, st'.registry.events, q, subject)
  {
    hide R.Apply, NewEvents, Ahead, Remaining, Received, LogVersions;
    match step
    case GovernanceStep(op, ids, now) =>
      var added := NewEvents(st.registry, op);
      EventsAreAppended(st.registry, op);
      if |ids| == |added| && CanDraw(st.table, ids) {
        InsertedMirrors(st.table, st.registry.events, added, ids, now, q, subject);
      }
    case NoticeStep(e) =>
      if e.body.Notice? && Ahead(st.table, e.id) { RowReceived(st.table, e, q, subject); }
  }

  lemma {:induction false} RunMirrors(steps: seq<Step>, q: Query, subject: Subject)
    ensures var st := RunSteps(steps); Mirrors(st.table, st.registry.events, q, subject)
  {
    hide StepOnce;
    if steps == [] {
      RemainingExact(map[], q, None);
      AscendingIsUnique(Remaining(map[], q, None), []);
    } else {
      hide Mirrors;
      RunMirrors(steps[..|steps| - 1], q, subject);
      StepMirrors(RunSteps(steps[..|steps| - 1]), steps[|steps| - 1], q, subject);
    }
  }

  // ------------------------------------------------- the log keeps to its scopes

  ghost predicate InScope(r: Registry, e: Event) {
    match e.subject
    case MemorySubject(id) => id in r.memories && r.memories[id].scope == e.scope
    case ShareSubject(id) => id in r.shares && r.shares[id].scope == e.scope
  }

  /** Every event carries the workspace of the row that it is about. */
  ghost predicate LogInScope(r: Registry) {
    forall e :: e in r.events ==> InScope(r, e)
  }

  ghost predicate KeepsScopes(r: Registry, r': Registry) {
    && (forall id :: id in r.memories ==> id in r'.memories && r'.memories[id].scope == r.memories[id].scope)
    && (forall id :: id in r.shares ==> id in r'.shares && r'.shares[id].scope == r.shares[id].scope)
  }

  lemma ApplyKeepsScopes(r: Registry, op: R.Op)
    ensures KeepsScopes(r, R.Apply(r, op))
  {
    hide M.IsDue, InOrder, M.CheckScope, M.ValidateMemory, M.CheckReplacement, M.CheckExpiry, S.CheckProposal;
  }

  lemma NewEventsInScope(r: Registry, op: R.Op)
    ensures forall e :: e in NewEvents(r, op) ==> InScope(R.Apply(r, op), e)
  {
    hide M.IsDue, InOrder, M.CheckScope, M.ValidateMemory, M.CheckReplacement, M.CheckExpiry, S.CheckProposal;
    EventsAreAppended(r, op);
    if op.ExpireOp? {
      var due := InOrder(M.DueMemories(r.memories, op.now));
      var added := M.ExpiryEvents(r.memories, due);
      assert NewEvents(r, op) == added;
      forall e | e in added
        ensures InScope(R.Apply(r, op), e)
      {
        var i :| 0 <= i < |due| && added[i] == e;
        assert due[i] in due;
      }
    }
  }

  lemma {:induction false} RunKeepsScopes(steps: seq<Step>)
    ensures LogInScope(RunSteps(steps).registry) && S.RegistryValid(RunSteps(steps).registry)
  {
    hide S.RegistryValid;
    if steps == [] {
      R.EmptyIsValid();
    } else {
      hide R.Apply, NewEvents, CanDraw, Ahead, Inserted, LogInScope;
      var st := RunSteps(steps[..|steps| - 1]);
      RunKeepsScopes(steps[..|steps| - 1]);
      var step := steps[|steps| - 1];
      if step.GovernanceStep? {
        R.ApplyKeepsRegistry(st.registry, step.op);
        LogStaysInScope(st.registry, step.op);
      }
    }
  }

  lemma LogStaysInScope(r: Registry, op: R.Op)
    requires LogInScope(r)
    ensures LogInScope(R.Apply(r, op))
  {
    hide R.Apply, NewEvents;
    ApplyKeepsScopes(r, op);
    NewEventsInScope(r, op);
    EventsAreAppended(r, op);
  }

  /** A query for the scope of a subject misses none of its versions. */
  lemma {:induction false} WholeLog(events: seq<Event>, q: Query, subject: Subject)
    requires forall e :: e in events && e.subject == subject ==> ScopeMatches(e.scope, q)
    ensures LogVersions(events, q, subject) == Versions(events, subject)
  {
    if events != [] { WholeLog(events[..|events| - 1], q, subject); }
  }

  // ------------------------------------------------- what a consumer receives

  /** How many steps happened before each page was fetched; the last page comes after all of them. */
  predicate Polls(polls: seq<nat>, steps: nat) {
    && polls != [] && polls[|polls| - 1] == steps
    && forall i, j :: 0 <= i <= j < |polls| ==> polls[i] <= polls[j]
  }

  ghost function Tables(steps: seq<Step>, polls: seq<nat>): (tables: seq<Table>)
    requires Polls(polls, |steps|)
    ensures |tables| == |polls|
  {
    seq(|polls|, k requires 0 <= k < |polls| => RunSteps(steps[..polls[k]]).table)
  }

  lemma TablesGrow(steps: seq<Step>, polls: seq<nat>)
    requires Polls(polls, |steps|)
    ensures Growing(Tables(steps, polls)) && FreshIdsIncrease(Tables(steps, polls))
    ensures Tables(steps, polls)[|polls| - 1] == RunSteps(steps).table
  {
    hide RunSteps, GrowsAhead;
    var tables := Tables(steps, polls);
    assert steps[..|steps|] == steps;
    forall i, j | 0 <= i <= j < |polls|
      ensures GrowsAhead(tables[i], tables[j])
    {
      LaterTable(steps, polls, i, j);
    }
    GrowthIsGrowing(tables);
  }

  lemma LaterTable(steps: seq<Step>, polls: seq<nat>, i: nat, j: nat)
    requires Polls(polls, |steps|) && i <= j < |polls|
    ensures GrowsAhead(Tables(steps, polls)[i], Tables(steps, polls)[j])
  {
    hide RunSteps, GrowsAhead;
    assert steps[..polls[j]][..polls[i]] == steps[..polls[i]];
    RunGrows(steps[..polls[j]], polls[i]);
  }

  lemma GrowthIsGrowing(tables: seq<Table>)
    requires forall i, j :: 0 <= i <= j < |tables| ==> GrowsAhead(tables[i], tables[j])
    ensures Growing(tables) && FreshIdsIncrease(tables)
  {
    hide NewRowsAhead;
    forall k | 0 < k < |tables|
      ensures NewRowsAhead(tables[k - 1], tables[k])
    {
      assert GrowsAhead(tables[k - 1], tables[k]);
    }
  }

  /**
   * End to end. While governance operations and others write events, a consumer that polls page by page and
   * catches up has received of each memory and each grant that its query covers the versions 1, 2, ..., up
   * to the current one: each once and in order, for every page limit and however the polls fall.
   */
  lemma ConsumerReceivesVersions(steps: seq<Step>, polls: seq<nat>, q: Query, limit: nat, id: Uuid)
    requires Polls(polls, |steps|) && CaughtUp(Tables(steps, polls), q, None, limit)
    ensures var (r, table) := (RunSteps(steps).registry, RunSteps(steps).table);
      var ids := Stream(Tables(steps, polls), q, None, limit, |polls|);
      && Ascending(ids)
      && (id in r.memories && ScopeMatches(r.memories[id].scope, q) ==>
            Received(table, ids, MemorySubject(id)) == CountUp(r.memories[id].version))
      && (id in r.shares && ScopeMatches(r.shares[id].scope, q) ==>
            Received(table, ids, ShareSubject(id)) == CountUp(r.shares[id].version))
  {
    hide RunSteps, Remaining, Received, Versions, LogVersions, Ascending, Page, CountUp, M.ChainsEnd, S.UniqueGrants;
    var tables := Tables(steps, polls);
    var st := RunSteps(steps);
    TablesGrow(steps, polls);
    StreamIsOneScan(tables, q, None, limit);
    StreamAscends(tables, q, None, limit, |tables|);
    RunKeepsScopes(steps);
    if id in st.registry.memories && ScopeMatches(st.registry.memories[id].scope, q) {
      RunMirrors(steps, q, MemorySubject(id));
      WholeLog(st.registry.events, q, MemorySubject(id));
      assert M.Announced(st.registry.memories, st.registry.events, id);
    }
    if id in st.registry.shares && ScopeMatches(st.registry.shares[id].scope, q) {
      RunMirrors(steps, q, ShareSubject(id));
      WholeLog(st.registry.events, q, ShareSubject(id));
      assert S.ShareAnnounced(st.registry.shares, st.registry.events, id);
    }
  }
}
