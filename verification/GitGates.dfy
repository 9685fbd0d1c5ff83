/** Tracked-file snapshots and the gate that refuses a stage which changed a tracked file. */
module GitGates {
  import opened Wrappers
  import opened Text

  datatype Snapshot = Snapshot(gitRoot: Option<string>, files: map<string, string>)

  datatype MutationCheck = MutationCheck(ok: bool, mutated: seq<string>, reason: string)

  const DELETED := "__deleted__"

  // Hash every tracked file; `hashOf` answers None for a tracked file that is gone.
  method CaptureSnapshot(gitRoot: Option<string>, tracked: seq<string>, hashOf: string -> Option<string>)
    returns (snapshot: Snapshot)
    ensures snapshot.gitRoot == gitRoot
    ensures gitRoot.None? ==> snapshot.files == map[]
    ensures gitRoot.Some? ==> snapshot.files.Keys == set path | path in tracked
    ensures forall path :: path in snapshot.files ==>
              snapshot.files[path] == if hashOf(path).Some? then hashOf(path).value else "__deleted__"
  {
    var files: map<string, string> := map[];
    if gitRoot.Some? {
      for i := 0 to |tracked|
        invariant files.Keys == set path | path in tracked[..i]
        invariant forall path :: path in files ==>
          files[path] == if hashOf(path).Some? then hashOf(path).value else DELETED
      {
        assert tracked[..i + 1] == tracked[..i] + [tracked[i]];
        files := files[tracked[i] := if hashOf(tracked[i]).Some? then hashOf(tracked[i]).value else DELETED];
      }
      assert tracked[..|tracked|] == tracked;
    }
    snapshot := Snapshot(gitRoot, files);
  }

  function Lookup(files: map<string, string>, path: string): Option<string> {
    if path in files then Some(files[path]) else None
  }

  // What the gate accepts.
  predicate Unchanged(before: Snapshot, after: Snapshot) {
    before.gitRoot.Some? && after.gitRoot.Some? && before.files == after.files
  }

  method CheckTrackedMutations(before: Snapshot, after: Snapshot) returns (check: MutationCheck)
    ensures check.ok <==> Unchanged(before, after)
    ensures StrictlySorted(check.mutated)
    ensures before.gitRoot.Some? && after.gitRoot.Some? ==>
              forall path :: path in check.mutated <==> Lookup(before.files, path) != Lookup(after.files, path)
    ensures before.gitRoot.None? || after.gitRoot.None? ==>
              check == MutationCheck(false, [], "workspace is not a git checkout")
  {
    if before.gitRoot.None? || after.gitRoot.None? {
      return MutationCheck(false, [], "workspace is not a git checkout");
    }
    var mutated: seq<string> := [];
    var paths := Sorted(before.files.Keys + after.files.Keys);
    for i := 0 to |paths|
      invariant StrictlySorted(mutated)
      invariant forall path :: path in mutated <==>
          path in paths[..i] && Lookup(before.files, path) != Lookup(after.files, path)
    {
      assert paths[..i + 1] == paths[..i] + [paths[i]];
      if Lookup(before.files, paths[i]) != Lookup(after.files, paths[i]) {
        forall k | 0 <= k < |mutated| ensures Less(mutated[k], paths[i]) {
          assert mutated[k] in mutated;
          var j :| 0 <= j < i && paths[j] == mutated[k];
        }
        mutated := mutated + [paths[i]];
      }
    }
    assert paths[..|paths|] == paths;
    if mutated != [] {
      assert mutated[0] in mutated && before.files != after.files;
      return MutationCheck(false, mutated, "tracked-file mutations detected");
    }
    assert forall path :: Lookup(before.files, path) == Lookup(after.files, path) by {
      forall path ensures Lookup(before.files, path) == Lookup(after.files, path) {
        assert path !in mutated;
      }
    }
    assert forall path :: path in before.files ==> Lookup(before.files, path) == Lookup(after.files, path);
    assert forall path :: path in after.files ==> Lookup(before.files, path) == Lookup(after.files, path);
    assert before.files == after.files;
    return MutationCheck(true, [], "no tracked-file mutations detected");
  }
}
