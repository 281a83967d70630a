// Building a commit from the pinned base and a validated diff.
module CommitBuilder {
  import opened Text
  import opened Wrappers
  import opened Diff
  import opened ApplyHunks
  import opened Forge

  const BLOB_MODE := "100644"
  const EXECUTABLE_MODE := "100755"
  const SYMLINK_MODE := "120000"
  const GITLINK_MODE := "160000"

  datatype Failure =
    | NotImplemented(path: string)
    | UnsupportedMode(path: string, mode: string)
    | Missing(path: string)
    | Mismatched(mismatch: Mismatch)
    | InvalidJobBranch(branch: string)
    | Http

  predicate RefusedMode(f: FileChange) { f.mode in {Some(SYMLINK_MODE), Some(GITLINK_MODE)} }

  /** Only an executable bit the diff declares is kept. */
  function ResolveMode(f: FileChange): string {
    if f.mode == Some(EXECUTABLE_MODE) then EXECUTABLE_MODE else BLOB_MODE
  }

  /** Binary files and links are refused, unless they are only deleted. */
  predicate Refused(f: FileChange) { f.change != Delete && (f.binary || RefusedMode(f)) }

  // ---- branch names ----

  predicate BranchChar(c: char) {
    'A' <= c <= 'Z' || 'a' <= c <= 'z' || '0' <= c <= '9' || c == '.' || c == '_' || c == '-'
  }

  const BRANCH_PREFIX := "omadia/job-"

  predicate IsJobBranch(b: string) {
    && StartsWith(b, BRANCH_PREFIX) && |b| > |BRANCH_PREFIX|
    && (forall k | |BRANCH_PREFIX| <= k < |b| :: BranchChar(b[k]))
    && !Contains(b, "..") && !EndsWith(b, ".lock")
  }

  // ---- reconstructing files ----

  /** A file ready to be written; a rename also removes its source. */
  datatype Upsert = Upsert(path: string, content: string, mode: string, deleteOld: Option<string>)

  /** Where the old content is. */
  function Origin(f: FileChange): string { f.oldPath.GetOr(f.path) }

  function Source(base: Tree, f: FileChange): Result<string, Failure> {
    if f.change == Add then Ok("")
    else if Origin(f) in base then Ok(base[Origin(f)].content)
    else Err(Missing(Origin(f)))
  }

  function RenamedFrom(f: FileChange): Option<string> {
    if f.change == Rename && f.oldPath.Some? && f.oldPath.value !in {"", f.path} then f.oldPath else None
  }

  function Reconstructed(base: Tree, f: FileChange): Result<Upsert, Failure> {
    match Source(base, f)
    case Err(e) => Err(e)
    case Ok(text) =>
      match Applied(f.path, text, f.hunks)
      case Err(m) => Err(Mismatched(m))
      case Ok(content) => Ok(Upsert(f.path, content, ResolveMode(f), RenamedFrom(f)))
  }

  type Plan = Result<(seq<Upsert>, seq<string>), Failure>

  /** Everything to write and to delete, or the first file that cannot be reconstructed. */
  function PlanOf(base: Tree, files: seq<FileChange>): Plan
    decreases |files|
  {
    if files == [] then Ok(([], []))
    else
      var f := files[|files| - 1];
      match PlanOf(base, files[..|files| - 1])
      case Err(e) => Err(e)
      case Ok((upserts, deletions)) =>
        if f.change == Delete then Ok((upserts, deletions + [f.path]))
        else
          match Reconstructed(base, f)
          case Err(e) => Err(e)
          case Ok(u) => Ok((upserts + [u], deletions))
  }

  function UpsertEdits(u: Upsert): seq<Edit> {
    [Edit(u.path, Some(File(u.mode, u.content)))] + if u.deleteOld.Some? then [Edit(u.deleteOld.value, None)] else []
  }

  function AllUpsertEdits(upserts: seq<Upsert>): seq<Edit>
    decreases |upserts|
  {
    if upserts == [] then [] else AllUpsertEdits(upserts[..|upserts| - 1]) + UpsertEdits(upserts[|upserts| - 1])
  }

  function Removals(paths: seq<string>): seq<Edit>
    decreases |paths|
  {
    if paths == [] then [] else Removals(paths[..|paths| - 1]) + [Edit(paths[|paths| - 1], None)]
  }

  /** The tree entries, in the order they are sent: writes with their rename sources, then deletions. */
  function Edits(base: Tree, files: seq<FileChange>): seq<Edit>
    requires PlanOf(base, files).Ok?
  {
    AllUpsertEdits(PlanOf(base, files).value.0) + Removals(PlanOf(base, files).value.1)
  }

  // ---- the writes ----

  /** The entries say what the edits say. */
  ghost predicate Shows(blobs: seq<string>, entries: seq<TreeEntry>, edits: seq<Edit>) {
    |entries| == |edits| &&
    forall k | 0 <= k < |entries| ::
      && entries[k].path == edits[k].path
      && match entries[k].sha
         case Some(s) => s < |blobs| && edits[k].file == Some(File(entries[k].mode, blobs[s]))
         case None => edits[k].file == None
  }

  lemma ShowsLater(blobs: seq<string>, more: seq<string>, entries: seq<TreeEntry>, edits: seq<Edit>)
    requires Shows(blobs, entries, edits) && blobs <= more
    ensures Shows(more, entries, edits)
  {
  }

  lemma ShowsResolved(blobs: seq<string>, entries: seq<TreeEntry>, edits: seq<Edit>)
    requires Shows(blobs, entries, edits)
    ensures ShasKnown(blobs, entries) && Resolve(blobs, entries) == edits
  {
  }

  datatype Landed = Landed(commitSha: nat, treeSha: nat, branchRef: string)

  /** The first file that is refused without asking the forge anything. */
  method Prescan(files: seq<FileChange>) returns (refused: Option<Failure>)
    ensures refused.Some? <==> exists k | 0 <= k < |files| :: Refused(files[k])
  {
    for k := 0 to |files|
      invariant forall j | 0 <= j < k :: !Refused(files[j])
    {
      var f := files[k];
      if f.change == Delete { continue; }
      if f.binary {
        return Some(NotImplemented(f.path));
      }
      if RefusedMode(f) {
        return Some(UnsupportedMode(f.path, f.mode.value));
      }
    }
    refused := None;
  }

  lemma PlanStep(base: Tree, files: seq<FileChange>, k: nat)
    requires k < |files|
    ensures files[..k + 1][..k] == files[..k] && files[..k + 1][k] == files[k]
    ensures PlanOf(base, files[..k]).Err? ==> PlanOf(base, files[..k + 1]).Err?
  {
    assert files[..k + 1][..k] == files[..k];
  }

  lemma {:induction false} PlanFails(base: Tree, files: seq<FileChange>, k: nat)
    requires k <= |files| && PlanOf(base, files[..k]).Err?
    ensures PlanOf(base, files).Err?
    decreases |files| - k
  {
    if k == |files| {
      assert files[..k] == files;
    } else {
      PlanStep(base, files, k);
      PlanFails(base, files, k + 1);
    }
  }

  /** Reads only: reconstruct and check every file against the pinned base. */
  method ReadPhase(repo: Repository, baseSha: nat, files: seq<FileChange>)
    returns (plan: Result<(seq<Upsert>, seq<string>), Failure>)
    requires repo.Valid()
    modifies repo`requests
    ensures repo.Valid()
    ensures plan.Ok? ==> plan == PlanOf(repo.TreeAt(baseSha), files)
  {
    ghost var base := repo.TreeAt(baseSha);
    var upserts: seq<Upsert> := [];
    var deletions: seq<string> := [];
    for k := 0 to |files|
      invariant repo.Valid() && repo.TreeAt(baseSha) == base
      invariant PlanOf(base, files[..k]) == Ok((upserts, deletions))
    {
      var f := files[k];
      PlanStep(base, files, k);
      if f.change == Delete {
        deletions := deletions + [f.path];
        continue;
      }
      var text := "";
      if f.change != Add {
        var read := repo.ReadFile(Origin(f), baseSha);
        if read.None? {
          return Err(Http);
        }
        text := read.value;
      }
      var content := ApplyHunks.ApplyHunks(text, f.hunks, f.path);
      if content.Err? {
        return Err(Mismatched(content.error));
      }
      upserts := upserts + [Upsert(f.path, content.value, ResolveMode(f), RenamedFrom(f))];
    }
    assert files[..|files|] == files;
    plan := Ok((upserts, deletions));
  }

  /** Upload the contents and collect the tree entries. */
  method WriteBlobs(repo: Repository, upserts: seq<Upsert>, deletions: seq<string>)
    returns (entries: Option<seq<TreeEntry>>)
    requires repo.Valid()
    modifies repo`requests, repo`blobs
    ensures repo.Valid() && old(repo.blobs) <= repo.blobs
    ensures entries.Some? ==> Shows(repo.blobs, entries.value, AllUpsertEdits(upserts) + Removals(deletions))
  {
    var out: seq<TreeEntry> := [];
    for k := 0 to |upserts|
      invariant repo.Valid() && old(repo.blobs) <= repo.blobs
      invariant Shows(repo.blobs, out, AllUpsertEdits(upserts[..k]))
    {
      var u := upserts[k];
      assert upserts[..k + 1][..k] == upserts[..k];
      ghost var before := repo.blobs;
      var sha := repo.CreateBlob(u.content);
      if sha.None? {
        return None;
      }
      ShowsLater(before, repo.blobs, out, AllUpsertEdits(upserts[..k]));
      out := out + [TreeEntry(u.path, u.mode, sha)];
      if u.deleteOld.Some? {
        out := out + [TreeEntry(u.deleteOld.value, BLOB_MODE, None)];
      }
    }
    assert upserts[..|upserts|] == upserts;
    ghost var writes := AllUpsertEdits(upserts);
    for k := 0 to |deletions|
      invariant repo.Valid() && old(repo.blobs) <= repo.blobs
      invariant Shows(repo.blobs, out, writes + Removals(deletions[..k]))
    {
      assert deletions[..k + 1][..k] == deletions[..k];
      out := out + [TreeEntry(deletions[k], BLOB_MODE, None)];
      assert writes + Removals(deletions[..k + 1]) == writes + Removals(deletions[..k]) + [Edit(deletions[k], None)];
    }
    assert deletions[..|deletions|] == deletions;
    entries := Some(out);
  }

  /** What a created branch points to: one commit on the base, whose tree is the base with the edits. */
  ghost predicate Carries(repo: Repository, commit: nat, baseSha: nat, base: Tree, files: seq<FileChange>,
                          message: string)
    reads repo
  {
    && PlanOf(base, files).Ok?
    && commit < |repo.commits| && repo.commits[commit].tree < |repo.trees|
    && repo.commits[commit] == Commit(repo.commits[commit].tree, baseSha, message)
    && repo.trees[repo.commits[commit].tree] == ApplyEdits(base, Edits(base, files))
  }

  /** Blobs, tree and commit; no ref yet. */
  method WritePhase(repo: Repository, baseSha: nat, upserts: seq<Upsert>, deletions: seq<string>, message: string,
                    ghost files: seq<FileChange>)
    returns (commit: Option<nat>)
    requires repo.Valid() && PlanOf(repo.TreeAt(baseSha), files) == Ok((upserts, deletions))
    modifies repo`requests, repo`blobs, repo`trees, repo`commits
    ensures repo.Valid()
    ensures old(repo.blobs) <= repo.blobs && old(repo.trees) <= repo.trees && old(repo.commits) <= repo.commits
    ensures commit.Some? ==> Carries(repo, commit.value, baseSha, old(repo.TreeAt(baseSha)), files, message)
  {
    ghost var base := repo.TreeAt(baseSha);
    var entries := WriteBlobs(repo, upserts, deletions);
    if entries.None? {
      return None;
    }
    ShowsResolved(repo.blobs, entries.value, Edits(base, files));
    var tree := repo.CreateTree(baseSha, entries.value);
    if tree.None? {
      return None;
    }
    commit := repo.CreateCommit(tree.value, baseSha, message);
  }

  /** The ref is new and names a commit that carries the files. */
  twostate predicate Created(repo: Repository, branch: string, commit: nat, baseSha: nat,
                             files: seq<FileChange>, message: string)
    requires old(repo.Valid())
    reads repo
  {
    && IsJobBranch(branch) && branch !in old(repo.refs) && repo.refs == old(repo.refs)[branch := commit]
    && Carries(repo, commit, baseSha, old(repo.TreeAt(baseSha)), files, message)
  }

  /** Commit `files` on top of `baseSha` under a fresh branch. */
  method ApplyDiff(repo: Repository, baseSha: nat, branch: string, message: string, files: seq<FileChange>)
    returns (r: Result<Landed, Failure>)
    requires repo.Valid()
    modifies repo`requests, repo`blobs, repo`trees, repo`commits, repo`refs
    ensures repo.Valid()
    // history only grows
    ensures old(repo.blobs) <= repo.blobs && old(repo.trees) <= repo.trees && old(repo.commits) <= repo.commits
    // a refused file: the forge hears nothing
    ensures (exists k | 0 <= k < |files| :: Refused(files[k])) ==> r.Err? && repo.requests == old(repo.requests)
    // a file that does not fit the base: nothing is written
    ensures (exists k | 0 <= k < |files| :: Refused(files[k])) || PlanOf(old(repo.TreeAt(baseSha)), files).Err? ==>
              && r.Err? && repo.blobs == old(repo.blobs) && repo.trees == old(repo.trees)
              && repo.commits == old(repo.commits) && repo.refs == old(repo.refs)
    // the only ref that can appear is the fresh job branch, and it carries the intended tree
    ensures repo.refs == old(repo.refs) || exists c :: Created(repo, branch, c, baseSha, files, message)
    ensures r.Ok? ==> Created(repo, branch, r.value.commitSha, baseSha, files, message)
                      && repo.commits[r.value.commitSha].tree == r.value.treeSha
  {
    var refused := Prescan(files);
    if refused.Some? {
      return Err(refused.value);
    }
    var plan := ReadPhase(repo, baseSha, files);
    if plan.Err? {
      return Err(plan.error);
    }
    var commit := WritePhase(repo, baseSha, plan.value.0, plan.value.1, message, files);
    if commit.None? {
      return Err(Http);
    }
    if !IsJobBranch(branch) {
      return Err(InvalidJobBranch(branch));
    }
    var ok := repo.CreateRef(branch, commit.value);
    assert repo.refs == old(repo.refs) || Created(repo, branch, commit.value, baseSha, files, message);
    if !ok {
      return Err(Http);
    }
    r := Ok(Landed(commit.value, repo.commits[commit.value].tree, "refs/heads/" + branch));
  }
}
