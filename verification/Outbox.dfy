/** The outbox table, its cursor pager, and what a consumer that polls it receives. */
module Outbox {
  import opened Basics
  import opened GovernanceTypes

  /** What an event is about: a memory or grant and its version, or something else in the store. */
  datatype Body = Announcement(event: Event) | Notice(kind: string, subject: string)

  datatype OutboxEvent = OutboxEvent(id: Uuid, body: Body, organization: string, workspace: Option<string>,
                                     occurredAt: nat)

  type Table = map<Uuid, OutboxEvent>

  /** A subscription: an organization, or one of its workspaces. */
  datatype Query = Query(organization: string, workspace: Option<string>)

  predicate Matches(e: OutboxEvent, q: Query) {
    e.organization == q.organization && (q.workspace.None? || e.workspace == q.workspace)
  }

  predicate Beyond(cursor: Option<Uuid>, id: Uuid) {
    cursor.None? || id > cursor.value
  }

  predicate IsDue(table: Table, q: Query, cursor: Option<Uuid>, id: Uuid) {
    id in table && Matches(table[id], q) && Beyond(cursor, id)
  }

  /** The keys whose events match and lie beyond the cursor. */
  function Select(table: Table, q: Query, cursor: Option<Uuid>, keys: seq<Uuid>): seq<Uuid> {
    if keys == [] then []
    else (if IsDue(table, q, cursor, keys[0]) then [keys[0]] else []) + Select(table, q, cursor, keys[1..])
  }

  /** Every event that is due, in id order. */
  function Remaining(table: Table, q: Query, cursor: Option<Uuid>): seq<Uuid> {
    Select(table, q, cursor, InOrder(table.Keys))
  }

  /** A page has room for one event even when its limit is zero: the limit is checked after the push. */
  function Capacity(limit: nat): nat {
    if limit == 0 then 1 else limit
  }

  function Page(table: Table, q: Query, cursor: Option<Uuid>, limit: nat): seq<Uuid> {
    var ids := Remaining(table, q, cursor);
    if |ids| <= Capacity(limit) then ids else ids[..Capacity(limit)]
  }

  class OutboxTable {
    var events: Table

    constructor ()
      ensures events == map[]
    {
      events := map[];
    }

    /** `insert_outbox_event`, with the id drawn for the row. */
    method InsertOutboxEvent(id: Uuid, body: Body, organization: string, workspace: Option<string>, now: nat)
      returns (e: OutboxEvent)
      requires id !in events
      modifies this
      ensures e == OutboxEvent(id, body, organization, workspace, now)
      ensures events == old(events)[id := e]
    {
      e := OutboxEvent(id, body, organization, workspace, now);
      events := events[id := e];
    }

    method ListOutboxEvents(q: Query, after: Option<Uuid>, limit: nat) returns (result: seq<OutboxEvent>)
      requires forall id :: id in events ==> events[id].id == id
      ensures IdsOf(result) == Page(events, q, after, limit)
      ensures forall e :: e in result ==> e.id in events && events[e.id] == e
    {
      result := ListEvents(events, q, after, limit);
    }
  }

  function IdsOf(events: seq<OutboxEvent>): (ids: seq<Uuid>)
    ensures |ids| == |events|
    ensures forall k :: 0 <= k < |events| ==> ids[k] == events[k].id
  {
    seq(|events|, k requires 0 <= k < |events| => events[k].id)
  }

  /** One scan of the table in key order, up to the limit. */
  method ListEvents(table: Table, q: Query, after: Option<Uuid>, limit: nat) returns (result: seq<OutboxEvent>)
    requires forall id :: id in table ==> table[id].id == id
    ensures IdsOf(result) == Page(table, q, after, limit)
    ensures forall e :: e in result ==> e.id in table && table[e.id] == e && AskedFor(e, q) && IsAfter(after, e.id)
    ensures |result| < limit ==>
              forall id :: id in table && AskedFor(table[id], q) && IsAfter(after, id) ==> table[id] in result
  {
    hide InOrder, Ascending, Select, Page, Matches, AskedFor, IsAfter;
    var keys := InOrder(table.Keys);
    result := [];
    assert keys[0..] == keys;
    for i := 0 to |keys|
      invariant Remaining(table, q, after) == IdsOf(result) + Select(table, q, after, keys[i..])
      invariant |result| < Capacity(limit)
      invariant forall e :: e in result ==> e.id in table && table[e.id] == e
    {
      SelectStep(table, q, after, keys, i);
      if after.Some? && keys[i] <= after.value { continue; }
      var event := table[keys[i]];
      if !Matches(event, q) { continue; }
      assert IdsOf(result + [event]) == IdsOf(result) + [event.id];
      result := result + [event];
      if |result| >= limit {
        PageIsPrefix(table, q, after, limit, IdsOf(result), Select(table, q, after, keys[i + 1..]));
        EventsAreAskedFor(table, q, after, limit, result);
        return;
      }
    }
    PageIsAll(table, q, after, limit, IdsOf(result), keys);
    EventsAreAskedFor(table, q, after, limit, result);
  }

  lemma EventsAreAskedFor(table: Table, q: Query, cursor: Option<Uuid>, limit: nat, result: seq<OutboxEvent>)
    requires IdsOf(result) == Page(table, q, cursor, limit)
    requires forall e :: e in result ==> e.id in table && table[e.id] == e
    ensures forall e :: e in result ==> AskedFor(e, q) && IsAfter(cursor, e.id)
    ensures |result| < limit ==>
              forall id :: id in table && AskedFor(table[id], q) && IsAfter(cursor, id) ==> table[id] in result
  {
    hide Page, AskedFor, IsAfter;
    PageIs(table, q, cursor, limit);
    forall e | e in result
      ensures e.id in IdsOf(result)
    {
      var k :| 0 <= k < |result| && result[k] == e;
      assert IdsOf(result)[k] == e.id;
    }
    forall id | id in IdsOf(result)
      ensures id in table && table[id] in result
    {
      var k :| 0 <= k < |result| && IdsOf(result)[k] == id;
      assert result[k] in result;
    }
  }

  lemma SelectStep(table: Table, q: Query, cursor: Option<Uuid>, keys: seq<Uuid>, i: nat)
    requires i < |keys|
    ensures Select(table, q, cursor, keys[i..]) ==
            (if IsDue(table, q, cursor, keys[i]) then [keys[i]] else []) + Select(table, q, cursor, keys[i + 1..])
  {
    hide IsDue;
    assert keys[i..][0] == keys[i] && keys[i..][1..] == keys[i + 1..];
  }

  lemma PageIsAll(table: Table, q: Query, cursor: Option<Uuid>, limit: nat, ids: seq<Uuid>, keys: seq<Uuid>)
    requires Remaining(table, q, cursor) == ids + Select(table, q, cursor, keys[|keys|..]) && |ids| < Capacity(limit)
    ensures Page(table, q, cursor, limit) == ids
  {
    hide IsDue, Remaining;
    assert ids + [] == ids;
  }

  lemma PageIsPrefix(table: Table, q: Query, cursor: Option<Uuid>, limit: nat, ids: seq<Uuid>, rest: seq<Uuid>)
    requires Remaining(table, q, cursor) == ids + rest && |ids| == Capacity(limit)
    ensures Page(table, q, cursor, limit) == ids
  {
  }

  // ------------------------------------------------- what a page holds

  lemma {:induction false} SelectExact(table: Table, q: Query, cursor: Option<Uuid>, keys: seq<Uuid>)
    requires Ascending(keys)
    ensures Ascending(Select(table, q, cursor, keys))
    ensures forall id :: id in Select(table, q, cursor, keys) <==> id in keys && IsDue(table, q, cursor, id)
  {
    hide IsDue;
    if keys != [] {
      SelectExact(table, q, cursor, keys[1..]);
      assert forall id :: id in keys <==> id == keys[0] || id in keys[1..];
      assert forall id :: id in keys[1..] ==> keys[0] < id;
      HeadAscends(keys[0], Select(table, q, cursor, keys[1..]));
    }
  }

  lemma HeadAscends(head: Uuid, rest: seq<Uuid>)
    requires Ascending(rest) && forall id :: id in rest ==> head < id
    ensures Ascending([head] + rest)
  {
    assert forall k :: 0 <= k < |rest| ==> rest[k] in rest;
  }

  lemma RemainingExact(table: Table, q: Query, cursor: Option<Uuid>)
    ensures Ascending(Remaining(table, q, cursor))
    ensures forall id :: id in Remaining(table, q, cursor) <==> IsDue(table, q, cursor, id)
  {
    hide InOrder, Ascending, Select;
    SelectExact(table, q, cursor, InOrder(table.Keys));
  }

  /** The event belongs to the organization that is asked for, and to the workspace if one is. */
  predicate AskedFor(e: OutboxEvent, q: Query) {
    && e.organization == q.organization
    && match q.workspace
       case None => true
       case Some(workspace) => e.workspace == Some(workspace)
  }

  predicate IsAfter(cursor: Option<Uuid>, id: Uuid) {
    match cursor
    case None => true
    case Some(last) => last < id
  }

  /**
   * What a page is, on the fields of its events: in id order, it holds events that were asked for and come
   * after the cursor, and as many of them as the limit allows, the first ones; a limit of zero allows one.
   */
  lemma PageIs(table: Table, q: Query, cursor: Option<Uuid>, limit: nat)
    ensures var page := Page(table, q, cursor, limit);
      && Ascending(page) && |page| <= (if limit == 0 then 1 else limit)
      && (forall id :: id in page ==> id in table && AskedFor(table[id], q) && IsAfter(cursor, id))
      && (forall id :: id in table && AskedFor(table[id], q) && IsAfter(cursor, id) ==>
            id in page || (|page| == (if limit == 0 then 1 else limit) && forall k :: k in page ==> k < id))
  {
    hide Remaining;
    var ids, page := Remaining(table, q, cursor), Page(table, q, cursor, limit);
    RemainingExact(table, q, cursor);
    assert forall id :: id in page ==> id in ids;
    assert forall id :: IsDue(table, q, cursor, id) <==> id in table && AskedFor(table[id], q) && IsAfter(cursor, id);
    forall id | id in ids
      ensures id in page || (|page| == Capacity(limit) && forall k :: k in page ==> k < id)
    {
      var i :| 0 <= i < |ids| && ids[i] == id;
      if i < |page| { assert page[i] == id; }
    }
  }

  function NextCursor(cursor: Option<Uuid>, page: seq<Uuid>): Option<Uuid> {
    if page == [] then cursor else Some(page[|page| - 1])
  }

  /** A page is the head of what remains; what remains beyond its last id is the rest. */
  lemma PageSplits(table: Table, q: Query, cursor: Option<Uuid>, limit: nat)
    ensures var page := Page(table, q, cursor, limit);
      && Remaining(table, q, cursor) == page + Remaining(table, q, NextCursor(cursor, page))
      && (page == [] <==> Remaining(table, q, cursor) == [])
  {
    hide Remaining, Matches;
    var ids := Remaining(table, q, cursor);
    var page := Page(table, q, cursor, limit);
    RemainingExact(table, q, cursor);
    RemainingExact(table, q, NextCursor(cursor, page));
    if page != [] {
      var rest := ids[|page|..];
      assert ids == page + rest;
      assert page[|page| - 1] == ids[|page| - 1] && ids[|page| - 1] in ids;
      forall id
        ensures id in rest <==> id in Remaining(table, q, NextCursor(cursor, page))
      {
        SplitAscending(ids, |page|, id);
      }
      AscendingIsUnique(rest, Remaining(table, q, NextCursor(cursor, page)));
    }
  }

  lemma SplitAscending(ids: seq<Uuid>, n: nat, id: Uuid)
    requires Ascending(ids) && 0 < n <= |ids|
    ensures Ascending(ids[n..])
    ensures id in ids[n..] <==> id in ids && id > ids[n - 1]
  {
    if id in ids {
      var k :| 0 <= k < |ids| && ids[k] == id;
      if k >= n { assert ids[n..][k - n] == id; }
    }
  }

  // ------------------------------------------------- reading a table that stands still

  /** Fetches pages until one is empty. */
  function ReadAll(table: Table, q: Query, cursor: Option<Uuid>, limit: nat): seq<Uuid>
    decreases |Remaining(table, q, cursor)|
  {
    var page := Page(table, q, cursor, limit);
    if page == [] then []
    else
      PageSplits(table, q, cursor, limit);
      page + ReadAll(table, q, NextCursor(cursor, page), limit)
  }

  /** For every page limit, the pages concatenate to the full filtered list: nothing missed, nothing twice. */
  lemma {:induction false} PagesConcatenate(table: Table, q: Query, cursor: Option<Uuid>, limit: nat)
    ensures ReadAll(table, q, cursor, limit) == Remaining(table, q, cursor)
    decreases |Remaining(table, q, cursor)|
  {
    hide Remaining, Page;
    var page := Page(table, q, cursor, limit);
    PageSplits(table, q, cursor, limit);
    if page != [] {
      PagesConcatenate(table, q, NextCursor(cursor, page), limit);
    }
  }

  // ------------------------------------------------- reading a table that grows

  /** The tables a consumer saw, page by page: rows are added, never changed or removed. */
  ghost predicate Growing(tables: seq<Table>) {
    forall i, j, id :: 0 <= i <= j < |tables| && id in tables[i] ==> id in tables[j] && tables[j][id] == tables[i][id]
  }

  /** The cursor before page `k`. */
  function CursorAt(tables: seq<Table>, q: Query, cursor: Option<Uuid>, limit: nat, k: nat): Option<Uuid>
    requires k <= |tables|
  {
    if k == 0 then cursor
    else
      var before := CursorAt(tables, q, cursor, limit, k - 1);
      NextCursor(before, Page(tables[k - 1], q, before, limit))
  }

  /** Event `id` is on page `k`. */
  predicate OnPage(tables: seq<Table>, q: Query, cursor: Option<Uuid>, limit: nat, k: nat, id: Uuid)
    requires k < |tables|
  {
    id in Page(tables[k], q, CursorAt(tables, q, cursor, limit, k), limit)
  }

  lemma PageExact(table: Table, q: Query, cursor: Option<Uuid>, limit: nat, id: Uuid)
    ensures var page := Page(table, q, cursor, limit);
      && (id in page <==> IsDue(table, q, cursor, id) && !Beyond(NextCursor(cursor, page), id))
      && (Beyond(NextCursor(cursor, page), id) ==> Beyond(cursor, id))
  {
    hide Page, Remaining;
    var page := Page(table, q, cursor, limit);
    PageSplits(table, q, cursor, limit);
    RemainingExact(table, q, cursor);
    RemainingExact(table, q, NextCursor(cursor, page));
    var ids := Remaining(table, q, cursor);
    if page != [] {
      SplitAscending(ids, |page|, id);
      assert page[|page| - 1] in ids;
      HeadUpTo(ids, |page|, id);
    }
  }

  lemma HeadUpTo(ids: seq<Uuid>, n: nat, id: Uuid)
    requires Ascending(ids) && 0 < n <= |ids|
    ensures id in ids[..n] <==> id in ids && id <= ids[n - 1]
  {
    if id in ids {
      var k :| 0 <= k < |ids| && ids[k] == id;
      if k < n { assert ids[..n][k] == id; }
    }
  }

  /** The cursor never moves back. */
  lemma {:induction false} CursorAdvances(tables: seq<Table>, q: Query, cursor: Option<Uuid>, limit: nat, j: nat,
                                          k: nat, id: Uuid)
    requires j <= k <= |tables| && Beyond(CursorAt(tables, q, cursor, limit, k), id)
    ensures Beyond(CursorAt(tables, q, cursor, limit, j), id)
    decreases k
  {
    hide Page, IsDue, Beyond;
    if j < k {
      PageExact(tables[k - 1], q, CursorAt(tables, q, cursor, limit, k - 1), limit, id);
      CursorAdvances(tables, q, cursor, limit, j, k - 1, id);
    }
  }

  /** No event is on two pages. */
  lemma DeliveredAtMostOnce(tables: seq<Table>, q: Query, cursor: Option<Uuid>, limit: nat, j: nat, k: nat, id: Uuid)
    requires j < k < |tables| && OnPage(tables, q, cursor, limit, j, id)
    ensures !OnPage(tables, q, cursor, limit, k, id)
  {
    hide Page;
    PageExact(tables[j], q, CursorAt(tables, q, cursor, limit, j), limit, id);
    PageExact(tables[k], q, CursorAt(tables, q, cursor, limit, k), limit, id);
    if OnPage(tables, q, cursor, limit, k, id) {
      CursorAdvances(tables, q, cursor, limit, j + 1, k, id);
    }
  }

  /** An event that is present and ahead of the cursor is delivered before the cursor passes it. */
  lemma {:induction false} DeliveredBefore(tables: seq<Table>, q: Query, cursor: Option<Uuid>, limit: nat, k: nat,
                                           n: nat, id: Uuid) returns (p: nat)
    requires k < n <= |tables| && Growing(tables)
    requires id in tables[k] && Matches(tables[k][id], q) && Beyond(CursorAt(tables, q, cursor, limit, k), id)
    requires !Beyond(CursorAt(tables, q, cursor, limit, n), id)
    ensures k <= p < n && OnPage(tables, q, cursor, limit, p, id)
    decreases n
  {
    hide Page;
    var before := CursorAt(tables, q, cursor, limit, n - 1);
    if Beyond(before, id) {
      p := n - 1;
      PageExact(tables[p], q, before, limit, id);
    } else {
      assert k != n - 1;
      p := DeliveredBefore(tables, q, cursor, limit, k, n - 1, id);
    }
  }

  /** The consumer has caught up: its last page was empty. */
  predicate CaughtUp(tables: seq<Table>, q: Query, cursor: Option<Uuid>, limit: nat) {
    tables != [] && Page(tables[|tables| - 1], q, CursorAt(tables, q, cursor, limit, |tables| - 1), limit) == []
  }

  ghost predicate Delivered(tables: seq<Table>, q: Query, cursor: Option<Uuid>, limit: nat, id: Uuid) {
    exists p :: 0 <= p < |tables| && OnPage(tables, q, cursor, limit, p, id)
  }

  /** `id` was inserted between pages `k - 1` and `k`. */
  ghost predicate AppearsAt(tables: seq<Table>, k: nat, id: Uuid) {
    k < |tables| && id in tables[k] && forall j :: 0 <= j < k ==> id !in tables[j]
  }

  /**
   * While the table grows, a consumer that catches up has received a matching event if and only if the
   * event's id was beyond the consumer's cursor when it was inserted.
   */
  lemma DeliveredIffAheadOfCursor(tables: seq<Table>, q: Query, cursor: Option<Uuid>, limit: nat, k: nat, id: Uuid)
    requires Growing(tables) && CaughtUp(tables, q, cursor, limit)
    requires AppearsAt(tables, k, id) && Matches(tables[k][id], q)
    ensures Delivered(tables, q, cursor, limit, id) <==> Beyond(CursorAt(tables, q, cursor, limit, k), id)
  {
    hide Page, Remaining;
    var n := |tables| - 1;
    var last := CursorAt(tables, q, cursor, limit, n);
    if Beyond(CursorAt(tables, q, cursor, limit, k), id) {
      PageSplits(tables[n], q, last, limit);
      RemainingExact(tables[n], q, last);
      assert !IsDue(tables[n], q, last, id);
      assert k != n;
      var p := DeliveredBefore(tables, q, cursor, limit, k, n, id);
    }
    if Delivered(tables, q, cursor, limit, id) {
      var p :| 0 <= p < |tables| && OnPage(tables, q, cursor, limit, p, id);
      PageExact(tables[p], q, CursorAt(tables, q, cursor, limit, p), limit, id);
      assert p >= k;
      CursorAdvances(tables, q, cursor, limit, k, p, id);
    }
  }

  /** Ids are drawn in increasing order: a new row is beyond every row before it. */
  ghost predicate FreshIdsIncrease(tables: seq<Table>) {
    forall k :: 0 < k < |tables| ==> NewRowsAhead(tables[k - 1], tables[k])
  }

  ghost predicate NewRowsAhead(before: Table, after: Table) {
    forall id, known :: id in after && id !in before && known in before ==> known < id
  }

  lemma {:induction false} CursorIsKnown(tables: seq<Table>, q: Query, cursor: Option<Uuid>, limit: nat, k: nat)
    requires k <= |tables| && Growing(tables)
    ensures var c := CursorAt(tables, q, cursor, limit, k);
      c == cursor || (k > 0 && c.Some? && c.value in tables[k - 1])
  {
    hide Page;
    if k > 0 {
      CursorIsKnown(tables, q, cursor, limit, k - 1);
      var before := CursorAt(tables, q, cursor, limit, k - 1);
      var page := Page(tables[k - 1], q, before, limit);
      if page != [] {
        PageExact(tables[k - 1], q, before, limit, page[|page| - 1]);
      }
    }
  }

  /** With increasing ids nothing is missed: every matching event beyond the starting cursor is delivered. */
  lemma IncreasingIdsMissNothing(tables: seq<Table>, q: Query, cursor: Option<Uuid>, limit: nat, k: nat, id: Uuid)
    requires Growing(tables) && CaughtUp(tables, q, cursor, limit) && FreshIdsIncrease(tables)
    requires AppearsAt(tables, k, id) && Matches(tables[k][id], q) && Beyond(cursor, id)
    ensures Delivered(tables, q, cursor, limit, id)
  {
    hide Page;
    CursorIsKnown(tables, q, cursor, limit, k);
    if k > 0 { assert NewRowsAhead(tables[k - 1], tables[k]); }
    DeliveredIffAheadOfCursor(tables, q, cursor, limit, k, id);
  }

  // ------------------------------------------------- the delivered stream

  /** Everything on the first `n` pages, in the order of delivery. */
  function Stream(tables: seq<Table>, q: Query, cursor: Option<Uuid>, limit: nat, n: nat): seq<Uuid>
    requires n <= |tables|
  {
    if n == 0 then []
    else Stream(tables, q, cursor, limit, n - 1)
         + Page(tables[n - 1], q, CursorAt(tables, q, cursor, limit, n - 1), limit)
  }

  /** What is delivered ascends in id order, across pages and whatever is inserted between them. */
  lemma {:induction false} StreamAscends(tables: seq<Table>, q: Query, cursor: Option<Uuid>, limit: nat, n: nat)
    requires n <= |tables|
    ensures Ascending(Stream(tables, q, cursor, limit, n))
    ensures forall id :: id in Stream(tables, q, cursor, limit, n) ==>
              !Beyond(CursorAt(tables, q, cursor, limit, n), id)
  {
    hide Page, IsDue, Remaining;
    if n > 0 {
      StreamAscends(tables, q, cursor, limit, n - 1);
      var before := CursorAt(tables, q, cursor, limit, n - 1);
      var page := Page(tables[n - 1], q, before, limit);
      PageAscends(tables[n - 1], q, before, limit);
      forall id
        ensures id in page ==> Beyond(before, id) && !Beyond(NextCursor(before, page), id)
        ensures Beyond(NextCursor(before, page), id) ==> Beyond(before, id)
      {
        PageExact(tables[n - 1], q, before, limit, id);
        PageIsDue(tables[n - 1], q, before, limit, id);
      }
      JoinAscends(Stream(tables, q, cursor, limit, n - 1), page, before);
    }
  }

  lemma PageIsDue(table: Table, q: Query, cursor: Option<Uuid>, limit: nat, id: Uuid)
    ensures id in Page(table, q, cursor, limit) ==> IsDue(table, q, cursor, id) && Beyond(cursor, id)
  {
    hide Page;
    PageExact(table, q, cursor, limit, id);
  }

  lemma PageAscends(table: Table, q: Query, cursor: Option<Uuid>, limit: nat)
    ensures Ascending(Page(table, q, cursor, limit))
  {
    hide Remaining;
    RemainingExact(table, q, cursor);
  }

  lemma JoinAscends(ids: seq<Uuid>, page: seq<Uuid>, cursor: Option<Uuid>)
    requires Ascending(ids) && Ascending(page)
    requires forall id :: id in ids ==> !Beyond(cursor, id)
    requires forall id :: id in page ==> Beyond(cursor, id)
    ensures Ascending(ids + page)
  {
    forall a, b | 0 <= a < |ids| && 0 <= b < |page|
      ensures ids[a] < page[b]
    {
      assert ids[a] in ids && page[b] in page;
    }
  }

  lemma {:induction false} StreamIsDelivered(tables: seq<Table>, q: Query, cursor: Option<Uuid>, limit: nat, n: nat,
                                             id: Uuid)
    requires n <= |tables|
    ensures id in Stream(tables, q, cursor, limit, n) <==>
              exists p :: 0 <= p < n && OnPage(tables, q, cursor, limit, p, id)
  {
    hide Page;
    if n > 0 {
      StreamIsDelivered(tables, q, cursor, limit, n - 1, id);
      if id in Page(tables[n - 1], q, CursorAt(tables, q, cursor, limit, n - 1), limit) {
        assert OnPage(tables, q, cursor, limit, n - 1, id);
      }
    }
  }

  lemma {:induction false} FirstAppearance(tables: seq<Table>, n: nat, id: Uuid) returns (k: nat)
    requires n < |tables| && id in tables[n]
    ensures k <= n && AppearsAt(tables, k, id)
  {
    if j: nat :| j < n && id in tables[j] {
      k := FirstAppearance(tables, j, id);
    } else {
      k := n;
    }
  }

  /**
   * The pager on a growing table delivers the same stream as one scan at the end would: with increasing
   * ids, a consumer that catches up has received exactly the matching events of the last table, in order.
   */
  lemma StreamIsOneScan(tables: seq<Table>, q: Query, cursor: Option<Uuid>, limit: nat)
    requires Growing(tables) && CaughtUp(tables, q, cursor, limit) && FreshIdsIncrease(tables)
    ensures Stream(tables, q, cursor, limit, |tables|) == Remaining(tables[|tables| - 1], q, cursor)
  {
    hide Page, Remaining, Stream, CursorAt;
    var last := tables[|tables| - 1];
    var stream := Stream(tables, q, cursor, limit, |tables|);
    StreamAscends(tables, q, cursor, limit, |tables|);
    RemainingExact(last, q, cursor);
    forall id
      ensures id in stream <==> id in Remaining(last, q, cursor)
    {
      StreamIsDelivered(tables, q, cursor, limit, |tables|, id);
      if id in stream { DeliveredIsDue(tables, q, cursor, limit, id); }
      if IsDue(last, q, cursor, id) {
        var k := FirstAppearance(tables, |tables| - 1, id);
        IncreasingIdsMissNothing(tables, q, cursor, limit, k, id);
      }
    }
    AscendingIsUnique(stream, Remaining(last, q, cursor));
  }

  lemma DeliveredIsDue(tables: seq<Table>, q: Query, cursor: Option<Uuid>, limit: nat, id: Uuid)
    requires Growing(tables) && Delivered(tables, q, cursor, limit, id)
    ensures IsDue(tables[|tables| - 1], q, cursor, id)
  {
    hide Page;
    var p :| 0 <= p < |tables| && OnPage(tables, q, cursor, limit, p, id);
    PageIsDue(tables[p], q, CursorAt(tables, q, cursor, limit, p), limit, id);
    CursorAdvances(tables, q, cursor, limit, 0, p, id);
  }
}
