// The forge as its git data API shows it: blobs, trees, commits, refs and pull requests.
module Forge {
  import opened Wrappers

  datatype File = File(mode: string, content: string)

  type Tree = map<string, File>

  /** A file to put at a path, or nothing to remove the path. */
  datatype Edit = Edit(path: string, file: Option<File>)

  function ApplyEdit(t: Tree, e: Edit): Tree {
    match e.file
    case Some(f) => t[e.path := f]
    case None => t - {e.path}
  }

  /** Later edits win. */
  function ApplyEdits(t: Tree, edits: seq<Edit>): Tree
    decreases |edits|
  {
    if edits == [] then t else ApplyEdit(ApplyEdits(t, edits[..|edits| - 1]), edits[|edits| - 1])
  }

  /** `sha` is the index of a blob; without one the entry removes its path. */
  datatype TreeEntry = TreeEntry(path: string, mode: string, sha: Option<nat>)

  datatype Commit = Commit(tree: nat, parent: nat, message: string)

  datatype PullRequest = PullRequest(head: string, base: string)

  /** What becomes of one request: it works, it never arrives, or it is carried out and the answer is lost. */
  datatype Weather = Works | NotSent | ReplyLost

  ghost predicate ShasKnown(blobs: seq<string>, entries: seq<TreeEntry>) {
    forall k | 0 <= k < |entries| :: entries[k].sha.Some? ==> entries[k].sha.value < |blobs|
  }

  function Resolve(blobs: seq<string>, entries: seq<TreeEntry>): seq<Edit>
    requires ShasKnown(blobs, entries)
  {
    seq(|entries|, k requires 0 <= k < |entries| =>
      Edit(entries[k].path,
           match entries[k].sha
           case Some(s) => Some(File(entries[k].mode, blobs[s]))
           case None => None))
  }

  class Repository {
    var blobs: seq<string>
    var trees: seq<Tree>
    var commits: seq<Commit>
    var refs: map<string, nat>
    var prs: seq<PullRequest>
    var requests: nat
    const weather: nat -> Weather

    constructor (weather: nat -> Weather, tree: Tree)
      ensures Valid() && blobs == [] && refs == map[] && prs == [] && commits == [Commit(0, 0, "")] && trees == [tree]
    {
      blobs, trees, commits, refs, prs, requests := [], [tree], [Commit(0, 0, "")], map[], [], 0;
      this.weather := weather;
    }

    /** Everything a commit or ref names exists; a branch has at most one pull request, and exists if it has one. */
    ghost predicate Valid()
      reads this
    {
      && (forall c | 0 <= c < |commits| :: commits[c].tree < |trees|)
      && (forall b | b in refs :: refs[b] < |commits|)
      && (forall i | 0 <= i < |prs| :: prs[i].head in refs)
      && (forall i, j | 0 <= i < j < |prs| :: prs[i].head != prs[j].head)
    }

    function TreeAt(commit: nat): Tree
      reads this
      requires Valid()
    {
      if commit < |commits| then trees[commits[commit].tree] else map[]
    }

    /** A file's content at a commit, if the request works and the path exists. */
    method ReadFile(path: string, commit: nat) returns (r: Option<string>)
      requires Valid()
      modifies this`requests
      ensures Valid() && requests == old(requests) + 1
      ensures r.Some? ==> path in TreeAt(commit) && r.value == TreeAt(commit)[path].content
    {
      var t := TreeAt(commit);
      r := if weather(requests).Works? && path in t then Some(t[path].content) else None;
      requests := requests + 1;
    }

    method CreateBlob(content: string) returns (sha: Option<nat>)
      requires Valid()
      modifies this`requests, this`blobs
      ensures Valid() && old(blobs) <= blobs
      ensures sha.Some? ==> sha.value < |blobs| && blobs[sha.value] == content
    {
      sha := if weather(requests).Works? then Some(|blobs|) else None;
      if !weather(requests).NotSent? {
        blobs := blobs + [content];
      }
      requests := requests + 1;
    }

    method CreateTree(commit: nat, entries: seq<TreeEntry>) returns (sha: Option<nat>)
      requires Valid() && ShasKnown(blobs, entries)
      modifies this`requests, this`trees
      ensures Valid() && old(trees) <= trees
      ensures sha.Some? ==>
                sha.value < |trees| && trees[sha.value] == ApplyEdits(old(TreeAt(commit)), Resolve(blobs, entries))
    {
      sha := if weather(requests).Works? then Some(|trees|) else None;
      if !weather(requests).NotSent? {
        trees := trees + [ApplyEdits(TreeAt(commit), Resolve(blobs, entries))];
      }
      requests := requests + 1;
    }

    method CreateCommit(tree: nat, parent: nat, message: string) returns (sha: Option<nat>)
      requires Valid() && tree < |trees|
      modifies this`requests, this`commits
      ensures Valid() && old(commits) <= commits
      ensures sha.Some? ==> sha.value < |commits| && commits[sha.value] == Commit(tree, parent, message)
    {
      sha := if weather(requests).Works? then Some(|commits|) else None;
      if !weather(requests).NotSent? {
        commits := commits + [Commit(tree, parent, message)];
      }
      requests := requests + 1;
    }

    /** A ref that exists is never moved. */
    method CreateRef(branch: string, commit: nat) returns (ok: bool)
      requires Valid() && commit < |commits|
      modifies this`requests, this`refs
      ensures Valid()
      ensures refs == old(refs) || (branch !in old(refs) && refs == old(refs)[branch := commit])
      ensures ok ==> branch !in old(refs) && refs == old(refs)[branch := commit]
    {
      ok := weather(requests).Works? && branch !in refs;
      if !weather(requests).NotSent? && branch !in refs {
        refs := refs[branch := commit];
      }
      requests := requests + 1;
    }

    /** A branch gets one pull request at most. */
    method CreatePr(head: string, base: string) returns (number: Option<nat>)
      requires Valid()
      modifies this`requests, this`prs
      ensures Valid()
      ensures prs == old(prs) || (head in refs && prs == old(prs) + [PullRequest(head, base)])
      ensures number.Some? ==> prs == old(prs) + [PullRequest(head, base)] && number.value == |old(prs)|
    {
      var unused := head in refs && forall i | 0 <= i < |prs| :: prs[i].head != head;
      number := if weather(requests).Works? && unused then Some(|prs|) else None;
      if !weather(requests).NotSent? && unused {
        prs := prs + [PullRequest(head, base)];
      }
      requests := requests + 1;
    }
  }
}
