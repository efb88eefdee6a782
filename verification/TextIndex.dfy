/** Workspace text indexes on disk: immutable generation directories, renamed into place. */
module TextIndex {
  import opened Basics
  import opened StoreTypes

  datatype TextEntry = TextEntry(chunkId: Uuid, content: string)

  /** What a finished index answers from: the last content added under each chunk id. */
  function Indexed(entries: seq<TextEntry>): map<Uuid, string> {
    if entries == [] then map[]
    else
      var last := entries[|entries| - 1];
      Indexed(entries[..|entries| - 1])[last.chunkId := last.content]
  }

  /** No entry repeats an earlier chunk id. */
  ghost predicate OnceEach(entries: seq<TextEntry>) {
    var n := |entries| - 1;
    entries == [] || (entries[n].chunkId !in Indexed(entries[..n]) && OnceEach(entries[..n]))
  }

  lemma IndexedSnoc(entries: seq<TextEntry>, e: TextEntry)
    ensures Indexed(entries + [e]) == Indexed(entries)[e.chunkId := e.content]
    ensures OnceEach(entries + [e]) <==> OnceEach(entries) && e.chunkId !in Indexed(entries)
  {
    assert (entries + [e])[..|entries|] == entries;
  }

  class WorkspaceTextIndex {
    var directories: map<TextPath, map<Uuid, string>>

    constructor ()
      ensures directories == map[]
    {
      directories := map[];
    }

    /**
     * Builds a generation in a temporary directory and renames it into place. `io` tells how far it
     * gets: not at all, into the build, or to the end. A build cut short leaves `torn` behind.
     */
    method PublishGeneration(scope: Scope, generation: Uuid, entries: seq<TextEntry>, torn: map<Uuid, string>, io: nat)
      returns (r: Result<()>)
      modifies this
      ensures r.Ok? <==> Published(scope, generation) !in old(directories) && io >= 2
      ensures r == Err(GenerationExists) <==> Published(scope, generation) in old(directories)
      ensures Published(scope, generation) in old(directories) || io == 0 ==> directories == old(directories)
      ensures Published(scope, generation) !in old(directories) && io == 1 ==>
                directories == old(directories)[Temporary(scope, generation) := torn]
      ensures r.Ok? ==>
                directories == (old(directories) - {Temporary(scope, generation)})
                               [Published(scope, generation) := Indexed(entries)]
    {
      if Published(scope, generation) in directories { return Err(GenerationExists); }
      if io == 0 { return Err(Interrupted); }
      if io == 1 {
        directories := directories[Temporary(scope, generation) := torn];
        return Err(Interrupted);
      }
      var index := map[];
      for i := 0 to |entries|
        invariant index == Indexed(entries[..i])
      {
        assert entries[..i + 1][..i] == entries[..i];
        index := index[entries[i].chunkId := entries[i].content];
      }
      assert entries[..|entries|] == entries;
      directories := directories[Temporary(scope, generation) := index];
      directories := (directories - {Temporary(scope, generation)})[Published(scope, generation) := index];
      return Ok(());
    }

    /**
     * Removes every temporary directory and every generation that is not active, until a removal
     * fails. `spared` is what is left to the next cleanup.
     */
    method CleanupUnreferencedGenerations(active: set<TextPath>, failing: set<TextPath>)
      returns (r: Result<nat>, ghost spared: set<TextPath>)
      requires forall p :: p in active ==> p.Published?
      modifies this
      ensures directories == Kept(old(directories), active + spared)
      ensures spared !! active && spared <= old(directories).Keys
      ensures r.Ok? ==> spared == {} && r.value == |old(directories)| - |directories|
      ensures failing == {} ==> r.Ok?
    {
      ghost var before := directories;
      var pending := directories.Keys;
      var removed := 0;
      KeptAll(before, active + pending);
      while pending != {}
        invariant pending <= before.Keys
        invariant directories == Kept(before, active + pending)
        invariant removed + |directories| == |before|
      {
        hide Kept;
        var p :| p in pending;
        KeptStep(before, active, pending, p);
        pending := pending - {p};
        if p.Temporary? || p !in active {
          if p in failing {
            spared := pending - active + {p};
            assert active + spared == active + (pending + {p});
            return Err(Interrupted), spared;
          }
          SmallerWithout(directories, p);
          directories := directories - {p};
          removed := removed + 1;
        }
      }
      assert active + {} == active + pending;
      spared := {};
      return Ok(removed), spared;
    }
  }

  function Kept(directories: map<TextPath, map<Uuid, string>>, keep: set<TextPath>): map<TextPath, map<Uuid, string>> {
    map p | p in directories && p in keep :: directories[p]
  }

  lemma KeptAll(directories: map<TextPath, map<Uuid, string>>, keep: set<TextPath>)
    requires directories.Keys <= keep
    ensures Kept(directories, keep) == directories
  {
  }

  lemma KeptStep(directories: map<TextPath, map<Uuid, string>>, active: set<TextPath>, pending: set<TextPath>,
                 p: TextPath)
    requires p in pending && p in directories
    ensures p in Kept(directories, active + pending)
    ensures p in active ==> Kept(directories, active + (pending - {p})) == Kept(directories, active + pending)
    ensures p !in active ==> Kept(directories, active + (pending - {p})) == Kept(directories, active + pending) - {p}
    ensures pending - {p} + {p} == pending
  {
  }
}
