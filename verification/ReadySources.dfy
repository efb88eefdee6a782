/** Reading a rebuild's input from the canonical tables, inside one read transaction. */
module ReadySources {
  import opened Basics
  import opened GraphProjection
  import opened StoreTypes
  import opened IntakeSpec
  import opened StoreSpec
  import opened PublishProofs
  import opened ReadyProofs
  import opened StoreRuns
  import opened TextIndex
  import opened VectorIndex

  /** The canonical text of a workspace: one entry for each chunk of a succeeded document. */
  method ReadyTextEntries(s: Store, scope: Scope) returns (entries: seq<TextEntry>)
    requires StoreValid(s)
    ensures Indexed(entries) == Live(s, scope) && OnceEach(entries)
  {
    hide StoreValid, RecordsValid, Live, Among, TextReady, Ascending, UniqueIds, ChunksById;
    ValidRecords(s);
    RecordsAreUnique(s);
    LiveHasManifests(s, scope);
    ghost var live := Live(s, scope);
    var byId := ChunksById(s.chunks);
    var keys := InOrder(s.texts.manifests.Keys);
    entries := [];
    AmongNone(live, keys);
    for i := 0 to |keys|
      invariant Indexed(entries) == Among(live, keys[..i]) && OnceEach(entries)
    {
      AmongOneMore(live, keys, i);
      TextReadyIsLive(s, scope, keys[i]);
      var manifest := s.texts.manifests[keys[i]];
      if !TextReady(s.intake.documents, byId, scope, manifest) { continue; }
      var entry := TextEntry(byId[manifest.chunkId].id, byId[manifest.chunkId].content);
      IndexedSnoc(entries, entry);
      entries := entries + [entry];
    }
    AmongAll(live, keys);
  }

  /** The vectors of a workspace under the current profile, by ANN key. */
  method ReadyVectorEntries(s: Store, scope: Scope, profile: Profile) returns (entries: seq<VectorEntry>)
    requires StoreValid(s)
    ensures Keyed(entries) == LiveKeys(s, scope, profile) && DistinctKeys(entries)
  {
    hide StoreValid, RecordsValid, Live, Among, VectorReady, Ascending, UniqueIds, UniqueKeys, ChunksById, KeyedBy,
         Keyed, InOrder, DistinctKeys;
    ValidRecords(s);
    RecordsAreUnique(s);
    LiveHasManifests(s, scope);
    ghost var live := Live(s, scope);
    var byId := ChunksById(s.chunks);
    var keys := InOrder(s.vectors.manifests.Keys);
    TextKeysAreVectorKeys(s);
    entries := [];
    var seen: set<nat> := {};
    KeyedEmpty();
    AmongNone(live, keys);
    KeyedNone(s.vectors.manifests, scope, profile);
    for i := 0 to |keys|
      invariant Keyed(entries) == KeyedBy(s.vectors.manifests, Among(live, keys[..i]), scope, profile)
      invariant seen == Keyed(entries).Keys && DistinctKeys(entries)
    {
      TextReadyIsLive(s, scope, keys[i]);
      VectorStep(s, scope, profile, keys, i);
      var manifest := s.vectors.manifests[keys[i]];
      if !VectorReady(s.intake.documents, byId, scope, profile, manifest) || manifest.annKey in seen { continue; }
      seen := seen + {manifest.annKey};
      KeyedSnoc(entries, VectorEntry(manifest.annKey, byId[manifest.chunkId].content));
      entries := entries + [VectorEntry(manifest.annKey, byId[manifest.chunkId].content)];
    }
    AmongAll(live, keys);
  }

  lemma VectorStep(s: Store, scope: Scope, profile: Profile, keys: seq<Uuid>, i: nat)
    requires RecordsValid(s) && Ascending(keys) && i < |keys| && keys[i] in s.texts.manifests
    ensures keys[i] in s.vectors.manifests
    ensures var m, live := s.vectors.manifests, Live(s, scope);
      var before := KeyedBy(m, Among(live, keys[..i]), scope, profile);
      && m[keys[i]].chunkId == keys[i]
      && (VectorReady(s.intake.documents, ChunksById(s.chunks), scope, profile, m[keys[i]])
          <==> keys[i] in live && m[keys[i]].profile == profile)
      && (keys[i] in live ==> m[keys[i]].annKey !in before)
      && KeyedBy(m, Among(live, keys[..i + 1]), scope, profile) ==
         if keys[i] in live && m[keys[i]].profile == profile then before[m[keys[i]].annKey := live[keys[i]]] else before
  {
    hide IntakeValid, RowsMatch, SucceededComplete, ManifestsAgree, ManifestsExact, KeysAllocated, UniqueKeys,
         UniqueIds, LiveIn, Among, Ascending, KeyedBy, VectorReady, ChunksById;
    var live := Live(s, scope);
    AmongOneMore(live, keys, i);
    VectorReadyIsLive(s, scope, profile, keys[i]);
    if keys[i] in live {
      KeyedOneMore(s.vectors.manifests, Among(live, keys[..i]), scope, profile, keys[i], live[keys[i]]);
    }
  }

  /** The chunks a workspace graph is rebuilt from. */
  method ReadyGraphChunks(s: Store, scope: Scope) returns (ready: seq<Chunk>)
    requires StoreValid(s)
    ensures Lists(ready, Live(s, scope))
  {
    hide StoreValid, RecordsValid, Live, Among, GraphReady, Ascending, UniqueIds, ChunksById, DistinctIds, IdsOf;
    ValidRecords(s);
    RecordsAreUnique(s);
    LiveHasManifests(s, scope);
    ghost var live := Live(s, scope);
    var byId := ChunksById(s.chunks);
    var keys := InOrder(s.graphManifests.Keys);
    TextKeysAreVectorKeys(s);
    ready := [];
    AmongNone(live, keys);
    ListsNothing();
    for i := 0 to |keys|
      invariant Lists(ready, Among(live, keys[..i]))
    {
      AmongOneMore(live, keys, i);
      GraphReadyIsLive(s, scope, keys[i]);
      TextReadyIsLive(s, scope, keys[i]);
      var manifest := s.graphManifests[keys[i]];
      if !GraphReady(s.intake.documents, byId, scope, manifest) { continue; }
      ListsOneMore(ready, Among(live, keys[..i]), byId[manifest.chunkId]);
      ready := ready + [byId[manifest.chunkId]];
    }
    AmongAll(live, keys);
  }

  /** The ready vectors followed by those of an attempt; a repeated key is refused. */
  method MergePending(ready: seq<VectorEntry>, pending: seq<VectorEntry>) returns (r: Result<seq<VectorEntry>>)
    ensures r.Ok? <==> DistinctKeys(pending) && Keyed(pending).Keys !! Keyed(ready).Keys
    ensures r.Ok? ==> Keyed(r.value) == Keyed(ready) + Keyed(pending)
    ensures r.Err? ==> r.error == DuplicateAnnKey
  {
    hide DistinctKeys, Keyed;
    var entries := ready;
    var seen := set e | e in ready :: e.key;
    KeysOfEntries(ready);
    NoKeys(pending);
    for i := 0 to |pending|
      invariant DistinctKeys(pending[..i]) && Keyed(pending[..i]).Keys !! Keyed(ready).Keys
      invariant Keyed(entries) == Keyed(ready) + Keyed(pending[..i])
      invariant seen == Keyed(ready).Keys + Keyed(pending[..i]).Keys
    {
      OneMoreKey(pending, i);
      if pending[i].key in seen { return Err(DuplicateAnnKey); }
      seen := seen + {pending[i].key};
      KeyedSnoc(entries, pending[i]);
      UpdateRight(Keyed(ready), Keyed(pending[..i]), pending[i].key, pending[i].text);
      entries := entries + [pending[i]];
    }
    assert pending[..|pending|] == pending;
    return Ok(entries);
  }

  lemma TextKeysAreVectorKeys(s: Store)
    requires RecordsValid(s)
    ensures s.vectors.manifests.Keys == s.texts.manifests.Keys == s.graphManifests.Keys
  {
  }

  lemma KeyedNone(manifests: map<Uuid, VectorManifest>, scope: Scope, profile: Profile)
    requires UniqueKeys(manifests)
    ensures KeyedBy(manifests, map[], scope, profile) == map[]
  {
  }

  lemma ListsNothing()
    ensures Lists([], map[])
  {
  }

  lemma ListsOneMore(chunks: seq<Chunk>, texts: map<Uuid, string>, c: Chunk)
    requires Lists(chunks, texts) && c.id !in texts
    ensures Lists(chunks + [c], texts[c.id := c.content])
  {
    assert forall d :: d in chunks ==> d.id in IdsOf(chunks);
    assert forall d :: d in chunks + [c] <==> d in chunks || d == c;
  }

  /** No entry repeats an earlier key. */
  ghost predicate DistinctKeys(entries: seq<VectorEntry>) {
    entries == [] ||
    (entries[|entries| - 1].key !in Keyed(entries[..|entries| - 1]) && DistinctKeys(entries[..|entries| - 1]))
  }

  lemma {:induction false} KeysOfEntries(entries: seq<VectorEntry>)
    ensures (set e | e in entries :: e.key) == Keyed(entries).Keys
  {
    if entries != [] {
      var n := |entries| - 1;
      KeysOfEntries(entries[..n]);
      assert forall e :: e in entries <==> e in entries[..n] || e == entries[n];
    }
  }

  lemma KeyedEmpty()
    ensures Keyed([]) == map[] && DistinctKeys([])
  {
  }

  lemma KeyedSnoc(entries: seq<VectorEntry>, e: VectorEntry)
    ensures Keyed(entries + [e]) == Keyed(entries)[e.key := e.text]
    ensures DistinctKeys(entries + [e]) <==> DistinctKeys(entries) && e.key !in Keyed(entries)
  {
    assert (entries + [e])[..|entries|] == entries;
  }

  lemma UpdateRight<K, V>(m: map<K, V>, n: map<K, V>, k: K, v: V)
    ensures (m + n)[k := v] == m + n[k := v]
  {
  }

  lemma NoKeys(pending: seq<VectorEntry>)
    ensures DistinctKeys(pending[..0]) && Keyed(pending[..0]) == map[]
  {
  }

  lemma {:induction false} DistinctPrefix(entries: seq<VectorEntry>, i: nat)
    requires DistinctKeys(entries) && i <= |entries|
    ensures DistinctKeys(entries[..i])
  {
    if i < |entries| {
      DistinctPrefix(entries[..|entries| - 1], i);
      assert entries[..|entries| - 1][..i] == entries[..i];
    } else {
      assert entries[..i] == entries;
    }
  }

  lemma OneMoreKey(pending: seq<VectorEntry>, i: nat)
    requires i < |pending| && DistinctKeys(pending[..i])
    ensures DistinctKeys(pending[..i + 1]) <==> pending[i].key !in Keyed(pending[..i])
    ensures DistinctKeys(pending) ==> DistinctKeys(pending[..i + 1])
    ensures Keyed(pending[..i + 1]) == Keyed(pending[..i])[pending[i].key := pending[i].text]
    ensures pending[i].key in Keyed(pending)
  {
    assert pending[..i + 1][..i] == pending[..i];
    if DistinctKeys(pending) { DistinctPrefix(pending, i + 1); }
    KeysOfEntries(pending);
    assert pending[i] in pending;
  }
}
