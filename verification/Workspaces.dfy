/**
 Stage workspaces on disk: clearing one, synchronizing one from a source root, and preparing one for a stage.
 A path names at most one place, and source and destination may be the same path.
 */
module Workspaces {
  import opened Wrappers
  import opened DevflowPlan
  import opened DevflowState
  import opened DevflowMachine

  datatype Entry = File(content: string) | Link(target: string) | Tree(children: map<string, Entry>)
  type Entries = map<string, Entry>
  datatype Place = Folder(entries: Entries) | NotFolder
  type Places = map<string, Place>

  const PRESERVED := {".git", ".clawops"}
  const IGNORED := {".venv", ".venv312", ".venv313", ".mypy_cache", ".pytest_cache", ".ruff_cache", ".tox",
                    "node_modules", "dist", "build", "coverage", "htmlcov"}

  predicate IsFolder(places: Places, path: string) {
    path in places && places[path].Folder?
  }

  function Kept(entries: Entries): Entries {
    map name | name in entries && name in PRESERVED :: entries[name]
  }

  predicate Copied(name: string) {
    name !in PRESERVED && name !in IGNORED
  }

  // The destination's own metadata and the source's entries, less its metadata and the ignored names.
  function Synced(source: Entries, destination: Entries): Entries {
    map name | name in source.Keys + destination.Keys
               && (if name in PRESERVED then name in destination else name in source && Copied(name))
      :: if name in PRESERVED then destination[name] else source[name]
  }

  // What the git commands answer: whether the repository root is in a git repository, whether the destination is, and
  // what a new worktree holds, unless git refuses to add one.
  datatype Git = Git(repository: bool, destination: bool, worktree: Option<Entries>)

  datatype PrepareError = NotAWorktree | WorktreeAddFailed | NotADirectory | SourceUnreadable

  // The destination's entries before any copying.
  function Opened(places: Places, path: string, git: Git): Result<Entries, PrepareError> {
    if git.repository then
      if path in places then
        if git.destination && places[path].Folder? then Ok(places[path].entries) else Err(NotAWorktree)
      else if git.worktree.Some? then Ok(git.worktree.value) else Err(WorktreeAddFailed)
    else if path !in places then Ok(map[])
    else if places[path].Folder? then Ok(places[path].entries)
    else Err(NotADirectory)
  }

  // Only the primary workspace of a git repository is left alone when it is its own source.
  predicate LeftAlone(mode: Mode, source: string, path: string, git: Git) {
    mode == MutablePrimary && git.repository && source == path
  }

  // What a sync leaves at the destination: its metadata only, when it is its own source or the source cannot be listed.
  function AfterCopy(places: Places, source: string, destination: string): Entries
    requires IsFolder(places, destination)
  {
    var before := places[destination].entries;
    if IsFolder(places, source) && source != destination then Synced(places[source].entries, before) else Kept(before)
  }

  // The disk after preparing a stage's workspace, and the answer.
  function Prepared(places: Places, plan: Plan, stage: StagePlan, source: string, git: Git)
    : (Places, Result<string, PrepareError>)
  {
    var path := WorkspacePath(plan, stage);
    var found := Opened(places, path, git);
    if found.Err? then (places, Err(found.error))
    else
      var now := places[path := Folder(found.value)];
      if LeftAlone(stage.mode, source, path, git) then (now, Ok(path))
      else (now[path := Folder(AfterCopy(now, source, path))],
            if IsFolder(now, source) then Ok(path) else Err(SourceUnreadable))
  }

  class Disk {
    var places: Places

    constructor (start: Places)
      ensures places == start
    {
      places := start;
    }

    method Clear(path: string)
      requires IsFolder(places, path)
      modifies this
      ensures places == old(places)[path := Folder(Kept(old(places)[path].entries))]
    {
      ghost var before := places[path].entries;
      var rest := places[path].entries.Keys;
      while rest != {}
        invariant rest <= before.Keys && IsFolder(places, path)
        invariant places == old(places)[path := places[path]]
        invariant forall name :: name in places[path].entries <==> name in before && (name in rest || name in PRESERVED)
        invariant forall name :: name in places[path].entries ==> places[path].entries[name] == before[name]
        decreases rest
      {
        var name :| name in rest;
        rest := rest - {name};
        if name !in PRESERVED {
          places := places[path := Folder(places[path].entries - {name})];
        }
      }
      assert places[path].entries == Kept(before);
    }

    // Clears first; a source that cannot be listed raises after that.
    method CopyTreeContents(source: string, destination: string) returns (ok: bool)
      requires IsFolder(places, destination)
      modifies this
      ensures ok <==> IsFolder(old(places), source)
      ensures places == old(places)[destination := Folder(AfterCopy(old(places), source, destination))]
      ensures ok && source != destination ==> forall name ::
        var after, before := places[destination].entries, old(places)[destination].entries;
        var given := old(places)[source].entries;
        if name in PRESERVED then (name in after <==> name in before) && (name in after ==> after[name] == before[name])
        else (name in after <==> name in given && name !in IGNORED) && (name in after ==> after[name] == given[name])
    {
      ghost var before := places[destination].entries;
      Clear(destination);
      if source !in places || places[source].NotFolder? {
        return false;
      }
      ghost var kept := places[destination].entries;
      var rest := places[source].entries.Keys;
      while rest != {}
        invariant IsFolder(places, source) && IsFolder(places, destination)
        invariant rest <= places[source].entries.Keys
        invariant places == old(places)[destination := places[destination]]
        invariant source == destination ==> places[destination].entries == kept
        invariant source != destination ==> PartlyCopied(places[source].entries, kept, rest,
                                                         places[destination].entries)
        decreases rest
      {
        var name :| name in rest;
        rest := rest - {name};
        if Copied(name) {
          places := places[destination := Folder(places[destination].entries[name := places[source].entries[name]])];
        }
      }
      if source != destination {
        assert places[destination].entries == Synced(places[source].entries, before);
      }
      return true;
    }

    // The workspace a stage works in.
    method Prepare(plan: Plan, stage: StagePlan, source: string, git: Git) returns (r: Result<string, PrepareError>)
      modifies this
      ensures (places, r) == Prepared(old(places), plan, stage, source, git)
    {
      var path := WorkspacePath(plan, stage);
      if git.repository {
        if path in places {
          if !git.destination || places[path].NotFolder? {
            return Err(NotAWorktree);
          }
        } else if git.worktree.None? {
          return Err(WorktreeAddFailed);
        } else {
          places := places[path := Folder(git.worktree.value)];
        }
        if stage.mode == MutablePrimary && source == path {
          assert places == old(places)[path := Folder(places[path].entries)];
          return Ok(path);
        }
      } else {
        if path in places {
          if places[path].NotFolder? {
            return Err(NotADirectory);
          }
        } else {
          places := places[path := Folder(map[])];
        }
      }
      assert places == old(places)[path := Folder(places[path].entries)];
      var ok := CopyTreeContents(source, path);
      if !ok {
        return Err(SourceUnreadable);
      }
      return Ok(path);
    }
  }

  // Every name but those in `rest` has been copied over the kept ones.
  ghost predicate PartlyCopied(source: Entries, kept: Entries, rest: set<string>, now: Entries) {
    && (forall name :: name in now <==> name in kept || (name in source && name !in rest && Copied(name)))
    && (forall name :: name in now ==> now[name] == if name in kept then kept[name] else source[name])
    && (forall name :: name in kept ==> name in PRESERVED)
  }

  // --- What a synchronization means ---

  // A second synchronization from the same source changes nothing, and going through a workspace in between loses
  // nothing: the next workspace is what a direct synchronization would make it.
  lemma SyncedAgain(source: Entries, between: Entries, destination: Entries)
    ensures Synced(source, Synced(source, destination)) == Synced(source, destination)
    ensures Synced(Synced(source, between), destination) == Synced(source, destination)
  {
    var once := Synced(source, destination);
    assert Synced(source, once).Keys == once.Keys;
    var through := Synced(Synced(source, between), destination);
    assert through.Keys == once.Keys;
  }

  // --- What a preparation makes of the disk ---

  // Which places each refusal belongs to. A workspace that is its own source can always be listed.
  lemma RefusedIff(places: Places, plan: Plan, stage: StagePlan, source: string, git: Git)
    ensures var path := WorkspacePath(plan, stage); var r := Prepared(places, plan, stage, source, git).1;
            && (r == Err(NotAWorktree) <==>
                  git.repository && path in places && !(git.destination && IsFolder(places, path)))
            && (r == Err(WorktreeAddFailed) <==> git.repository && path !in places && git.worktree.None?)
            && (r == Err(NotADirectory) <==> !git.repository && path in places && !IsFolder(places, path))
            && (r == Err(SourceUnreadable) <==>
                  && source != path && !IsFolder(places, source)
                  && (path in places ==> IsFolder(places, path) && (git.repository ==> git.destination))
                  && (path !in places && git.repository ==> git.worktree.Some?))
            && (r.Ok? ==> r == Ok(path))
  {
  }

  // What is found at a stage's place before anything is copied: what was there, what git puts into a new worktree, or
  // nothing.
  function Found(places: Places, path: string, git: Git): Entries {
    if IsFolder(places, path) then places[path].entries
    else if git.repository && git.worktree.Some? then git.worktree.value else map[]
  }

  // A refusal before the copying changes nothing. After that the workspace keeps exactly the metadata found there,
  // that of a new worktree included, and its other entries are the source's, or the workspace's own when a primary is
  // left alone; a source that cannot be listed leaves none.
  lemma {:induction false} PreparedHolds(places: Places, plan: Plan, stage: StagePlan, source: string, git: Git,
                                         name: string)
    ensures var path := WorkspacePath(plan, stage); var (after, r) := Prepared(places, plan, stage, source, git);
            if r.Err? && r.error != SourceUnreadable then after == places
            else
              && after.Keys == places.Keys + {path} && IsFolder(after, path)
              && (forall other :: other in places && other != path ==> after[other] == places[other])
              && var given := if source == path && stage.mode == MutablePrimary && git.repository
                              then Found(places, path, git)
                              else if source != path && IsFolder(places, source) then places[source].entries else map[];
                 var entries := after[path].entries;
                 if name in {".git", ".clawops"}
                 then && (name in entries <==> name in Found(places, path, git))
                      && (name in entries ==> entries[name] == Found(places, path, git)[name])
                 else && (name in entries <==>
                            name in given && (source == path || name !in {
                              ".venv", ".venv312", ".venv313", ".mypy_cache", ".pytest_cache", ".ruff_cache", ".tox",
                              "node_modules", "dist", "build", "coverage", "htmlcov"}))
                      && (name in entries ==> entries[name] == given[name])
  {
  }

  // --- Resuming a stage in its own workspace ---

  // A resumed mutable stage has its own workspace as source root. Its unfinished work survives the preparation exactly
  // when it is the primary stage of a git repository, or there is nothing but metadata to lose.
  lemma {:induction false} ResumeKeepsWorkIff(plan: Plan, rows: seq<StageRow>, i: nat, git: Git, places: Places)
    requires DistinctNames(plan) && RowsMatch(plan, rows) && |rows| == i + 1 && Incomplete(rows[i])
    requires Mutable(plan.stages[i].mode)
    requires var path := WorkspacePath(plan, plan.stages[i]);
             IsFolder(places, path) && (git.repository ==> git.destination)
    ensures var stage := plan.stages[i]; var path := WorkspacePath(plan, stage);
            var (after, r) := Prepared(places, plan, stage, SourceRoot(plan, OrderByIndex(rows), i), git);
            && r == Ok(path)
            && (after == places <==>
                  (stage.mode == MutablePrimary && git.repository) || places[path].entries.Keys <= PRESERVED)
  {
    ResumeSource(plan, rows, i);
    var path := WorkspacePath(plan, plan.stages[i]);
    var entries := places[path].entries;
    assert places == places[path := Folder(entries)];
    if entries.Keys <= PRESERVED {
      assert Kept(entries) == entries;
    } else {
      var name :| name in entries && name !in PRESERVED;
      assert name !in Kept(entries);
    }
  }

  // --- Workspaces are private to their stage ---

  lemma NoDash(mode: Mode)
    ensures forall i :: 0 <= i < |ModeName(mode)| ==> ModeName(mode)[i] != '-'
  {
  }

  lemma WorkspacePathInjective(plan: Plan, a: StagePlan, b: StagePlan)
    requires WorkspacePath(plan, a) == WorkspacePath(plan, b)
    ensures a.name == b.name && a.mode == b.mode
  {
    var root := plan.runRoot + "/workspaces/";
    var path := WorkspacePath(plan, a);
    assert path[|root|..] == a.name + "-" + ModeName(a.mode);
    assert path[|root|..] == b.name + "-" + ModeName(b.mode);
    JoinedByDash(a.name, ModeName(a.mode), b.name, ModeName(b.mode)) by {
      NoDash(a.mode);
      NoDash(b.mode);
    }
  }

  lemma JoinedByDash(a: string, x: string, b: string, y: string)
    requires a + "-" + x == b + "-" + y
    requires forall i :: 0 <= i < |x| ==> x[i] != '-'
    requires forall i :: 0 <= i < |y| ==> y[i] != '-'
    ensures a == b && x == y
  {
    var whole := a + "-" + x;
    assert whole == b + "-" + y;
    assert forall k :: |a| < k < |whole| ==> whole[k] == x[k - |a| - 1];
    assert forall k :: |b| < k < |whole| ==> whole[k] == y[k - |b| - 1];
    assert whole[|a|] == whole[|b|] == '-';
    assert a == whole[..|a|] && x == whole[|a| + 1..];
    assert b == whole[..|a|] && y == whole[|a| + 1..];
  }

  // Preparing one stage never touches the workspace of another.
  lemma OtherWorkspacesKept(places: Places, plan: Plan, i: nat, j: nat, source: string, git: Git)
    requires DistinctNames(plan) && i < |plan.stages| && j < |plan.stages| && i != j
    ensures var other := WorkspacePath(plan, plan.stages[i]);
            var after := Prepared(places, plan, plan.stages[j], source, git).0;
            (other in after <==> other in places) && (other in after ==> after[other] == places[other])
  {
    if WorkspacePath(plan, plan.stages[i]) == WorkspacePath(plan, plan.stages[j]) {
      WorkspacePathInjective(plan, plan.stages[i], plan.stages[j]);
    }
  }

  // A stage whose source is another stage's workspace - what an uninterrupted run carries - starts from all of that
  // stage's work: every entry that is neither metadata nor ignored, and nothing else beside its own metadata.
  lemma HandedOver(places: Places, plan: Plan, i: nat, j: nat, git: Git, name: string)
    requires DistinctNames(plan) && i < |plan.stages| && j < |plan.stages| && i != j
    requires var source := WorkspacePath(plan, plan.stages[i]);
             IsFolder(places, source) && Opened(places, WorkspacePath(plan, plan.stages[j]), git).Ok?
    ensures var source, path := WorkspacePath(plan, plan.stages[i]), WorkspacePath(plan, plan.stages[j]);
            var (after, r) := Prepared(places, plan, plan.stages[j], source, git);
            && r == Ok(path) && IsFolder(after, path)
            && (name !in PRESERVED ==>
                  (name in after[path].entries <==> name in places[source].entries && name !in IGNORED)
                  && (name in after[path].entries ==> after[path].entries[name] == places[source].entries[name]))
  {
    if WorkspacePath(plan, plan.stages[i]) == WorkspacePath(plan, plan.stages[j]) {
      WorkspacePathInjective(plan, plan.stages[i], plan.stages[j]);
    }
  }
}
