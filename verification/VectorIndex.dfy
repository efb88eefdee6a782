/** Workspace vector indexes on disk: one file per workspace and embedding profile, replaced as a whole. */
module VectorIndex {
  import opened Basics
  import opened StoreTypes

  /** A vector is represented by the text it embeds. */
  datatype VectorEntry = VectorEntry(key: nat, text: string)

  function Keyed(entries: seq<VectorEntry>): map<nat, string> {
    if entries == [] then map[]
    else
      var last := entries[|entries| - 1];
      Keyed(entries[..|entries| - 1])[last.key := last.text]
  }

  class WorkspaceVectorIndex {
    var files: map<VectorPath, map<nat, string>>

    constructor ()
      ensures files == map[]
    {
      files := map[];
    }

    /** The old file stays until the rename; `renamed` says whether the new one takes its place. */
    method PublishGeneration(scope: Scope, profile: Profile, entries: seq<VectorEntry>, renamed: bool)
      returns (r: Result<()>)
      modifies this
      ensures r == if renamed then Ok(()) else Err(Interrupted)
      ensures files == if renamed then old(files)[VectorPath(scope, profile) := Keyed(entries)] else old(files)
    {
      var index := map[];
      for i := 0 to |entries|
        invariant index == Keyed(entries[..i])
      {
        assert entries[..i + 1][..i] == entries[..i];
        index := index[entries[i].key := entries[i].text];
      }
      assert entries[..|entries|] == entries;
      if !renamed { return Err(Interrupted); }
      files := files[VectorPath(scope, profile) := index];
      return Ok(());
    }
  }
}
