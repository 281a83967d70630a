// Applying an uploaded diff: cross-check, path check, policy, then the forge.
module DiffApply {
  import opened Text
  import opened Wrappers
  import opened Diff
  import opened DiffParser
  import opened Numstat
  import opened DiffPolicy
  import opened Forge
  import opened CommitBuilder

  datatype Upload = Upload(diff: string, numstat: string, title: string, outbound: Outbound, overrides: Overrides,
                           approved: bool)

  /** The apply gate: the parsed diff, its numstat, outbound text, overrides and a human's approval decide. */
  type Evaluator = (seq<FileChange>, seq<Entry>, Outbound, Overrides, bool) -> Verdict

  function TheEngine(d: Detectors): Evaluator {
    (files: seq<FileChange>, numstat: seq<Entry>, out: Outbound, o: Overrides, approved: bool) =>
      Evaluate(files, numstat, out, o, approved, d)
  }

  datatype Job = Job(branch: string, baseSha: nat, defaultBranch: string)

  datatype ApplyError =
    | BadDiff(malformed: Malformed)
    | NumstatMismatch
    | PathEscape(path: string)
    | PolicyDeny(verdict: Verdict)
    | PolicyGate(verdict: Verdict)
    | ForgeFailed(failure: Failure)
    | NoPullRequest

  datatype Opened = Opened(prNumber: nat, commitSha: nat)

  predicate IsLetter(c: char) { 'A' <= c <= 'Z' || 'a' <= c <= 'z' }

  /** No absolute path, no ".." and no ".git" component. */
  predicate IsRepoRelative(p: string) {
    && p != "" && p[0] != '/' && p[0] != '\\'
    && !(|p| >= 3 && IsLetter(p[0]) && p[1] == ':' && p[2] in {'\\', '/'})
    && forall k | 0 <= k < |Split(p, '/')| :: Split(p, '/')[k] != ".." && Lower(Split(p, '/')[k]) != ".git"
  }

  /** The paths a file change names, in the order they are checked. */
  function NamedPaths(f: FileChange): seq<string> {
    [f.path] + if f.oldPath.Some? then [f.oldPath.value] else []
  }

  function FirstEscape(files: seq<FileChange>): Option<string>
    decreases |files|
  {
    if files == [] then None
    else
      var front := FirstEscape(files[..|files| - 1]);
      var f := files[|files| - 1];
      if front.Some? then front
      else if !IsRepoRelative(f.path) then Some(f.path)
      else if f.oldPath.Some? && !IsRepoRelative(f.oldPath.value) then f.oldPath
      else None
  }

  method CheckPaths(files: seq<FileChange>) returns (escape: Option<string>)
    ensures escape == FirstEscape(files)
  {
    for k := 0 to |files|
      invariant FirstEscape(files[..k]) == None
    {
      var f := files[k];
      assert files[..k + 1][..k] == files[..k];
      if !IsRepoRelative(f.path) {
        EscapeStays(files, k + 1);
        return Some(f.path);
      }
      if f.oldPath.Some? && !IsRepoRelative(f.oldPath.value) {
        EscapeStays(files, k + 1);
        return f.oldPath;
      }
    }
    assert files[..|files|] == files;
    escape := None;
  }

  lemma {:induction false} EscapeStays(files: seq<FileChange>, k: nat)
    requires k <= |files| && FirstEscape(files[..k]).Some?
    ensures FirstEscape(files) == FirstEscape(files[..k])
    decreases |files| - k
  {
    if k == |files| {
      assert files[..k] == files;
    } else {
      assert files[..k + 1][..k] == files[..k];
      EscapeStays(files, k + 1);
    }
  }

  /** No path of any file leaves the repository. */
  ghost predicate Contained(files: seq<FileChange>) {
    forall k, j | 0 <= k < |files| && 0 <= j < |NamedPaths(files[k])| :: IsRepoRelative(NamedPaths(files[k])[j])
  }

  lemma {:induction false} NoEscapeIff(files: seq<FileChange>)
    ensures FirstEscape(files) == None <==> Contained(files)
    decreases |files|
  {
    if files != [] {
      var n := |files| - 1;
      NoEscapeIff(files[..n]);
      assert forall k | 0 <= k < n :: files[..n][k] == files[k];
      var f := files[n];
      assert Contained(files) ==> IsRepoRelative(NamedPaths(f)[0]);
      assert Contained(files) && f.oldPath.Some? ==> IsRepoRelative(NamedPaths(f)[1]);
      if Contained(files[..n]) && IsRepoRelative(f.path) && (f.oldPath.Some? ==> IsRepoRelative(f.oldPath.value)) {
        forall k, j | 0 <= k < |files| && 0 <= j < |NamedPaths(files[k])|
          ensures IsRepoRelative(NamedPaths(files[k])[j])
        {
          assert k < n ==> files[..n][k] == files[k];
        }
      }
    }
  }

  method DiffTotals(files: seq<FileChange>) returns (t: Stats)
    ensures t == FileTotals(files)
  {
    var additions: nat, deletions: nat := 0, 0;
    for k := 0 to |files|
      invariant Stats(k, additions, deletions) == FileTotals(files[..k])
    {
      assert files[..k + 1][..k] == files[..k];
      additions := additions + files[k].additions;
      deletions := deletions + files[k].deletions;
    }
    assert files[..|files|] == files;
    t := Stats(|files|, additions, deletions);
  }

  /** Everything decided before the forge hears of the diff. */
  function Precheck(u: Upload, dec: Decoder, policy: Evaluator): Result<seq<FileChange>, ApplyError> {
    match Parse(u.diff, dec)
    case Err(m) => Err(BadDiff(m))
    case Ok(files) =>
      if FileTotals(files) != Totals(u.numstat) then Err(NumstatMismatch)
      else if FirstEscape(files).Some? then Err(PathEscape(FirstEscape(files).value))
      else
        var v := policy(files, Entries(u.numstat), u.outbound, u.overrides, u.approved);
        match v.decision
        case Refuse => Err(PolicyDeny(v))
        case HoldForGate => Err(PolicyGate(v))
        case Allow => Ok(files)
  }

  method RunChecks(u: Upload, dec: Decoder, policy: Evaluator) returns (r: Result<seq<FileChange>, ApplyError>)
    ensures r == Precheck(u, dec, policy)
  {
    var parsed := ParseUnifiedDiffDetailed(u.diff, dec);
    if parsed.Err? {
      return Err(BadDiff(parsed.error));
    }
    var files := parsed.value;
    var totals := DiffTotals(files);
    var claimed := NumstatTotals(u.numstat);
    if totals != claimed {
      return Err(NumstatMismatch);
    }
    var escape := CheckPaths(files);
    if escape.Some? {
      return Err(PathEscape(escape.value));
    }
    var entries := ParseNumstatEntries(u.numstat);
    var verdict := policy(files, entries, u.outbound, u.overrides, u.approved);
    if verdict.decision == Refuse {
      return Err(PolicyDeny(verdict));
    }
    if verdict.decision == HoldForGate {
      return Err(PolicyGate(verdict));
    }
    r := Ok(files);
  }

  /** The branch appeared in this call and carries the files. */
  twostate predicate Branched(repo: Repository, job: Job, files: seq<FileChange>, title: string)
    requires old(repo.Valid())
    reads repo
  {
    exists c :: Created(repo, job.branch, c, job.baseSha, files, title)
  }

  /** The pull request is the only new one. */
  twostate predicate PrOpened(repo: Repository, job: Job)
    reads repo
  {
    && job.branch !in old(repo.refs) && job.branch in repo.refs
    && repo.prs == old(repo.prs) + [PullRequest(job.branch, job.defaultBranch)]
  }

  /** Commit the files on a fresh branch and open its pull request. */
  method CommitAndOpen(repo: Repository, job: Job, files: seq<FileChange>, title: string)
    returns (r: Result<Opened, ApplyError>)
    requires repo.Valid()
    modifies repo
    ensures repo.Valid()
    ensures repo.refs == old(repo.refs) || Branched(repo, job, files, title)
    ensures repo.prs == old(repo.prs) || PrOpened(repo, job)
    ensures r.Err? ==> r.error.ForgeFailed? || r.error.NoPullRequest?
    ensures r.Ok? ==>
              && Created(repo, job.branch, r.value.commitSha, job.baseSha, files, title)
              && PrOpened(repo, job) && r.value.prNumber == |old(repo.prs)|
  {
    var landed := ApplyDiff(repo, job.baseSha, job.branch, title, files);
    if landed.Err? {
      return Err(ForgeFailed(landed.error));
    }
    var number := repo.CreatePr(job.branch, job.defaultBranch);
    assert Created(repo, job.branch, landed.value.commitSha, job.baseSha, files, title);
    if number.None? {
      return Err(NoPullRequest);
    }
    r := Ok(Opened(number.value, landed.value.commitSha));
  }

  /** Check the upload, commit it on a fresh branch and open a pull request. */
  method Apply(repo: Repository, job: Job, u: Upload, dec: Decoder, policy: Evaluator)
    returns (r: Result<Opened, ApplyError>)
    requires repo.Valid()
    modifies repo
    ensures repo.Valid()
    // a failed check: the forge hears nothing
    ensures Precheck(u, dec, policy).Err? ==>
              && r == Err(Precheck(u, dec, policy).error) && repo.requests == old(repo.requests)
              && repo.refs == old(repo.refs) && repo.prs == old(repo.prs)
    ensures Precheck(u, dec, policy).Ok? && r.Err? ==> r.error.ForgeFailed? || r.error.NoPullRequest?
    // a pull request only ever appears together with its branch, carrying exactly the checked files
    ensures repo.refs == old(repo.refs) ||
            (Precheck(u, dec, policy).Ok? && Branched(repo, job, Precheck(u, dec, policy).value, u.title))
    ensures repo.prs == old(repo.prs) || PrOpened(repo, job)
    ensures r.Ok? ==>
              && Precheck(u, dec, policy).Ok?
              && Created(repo, job.branch, r.value.commitSha, job.baseSha, Precheck(u, dec, policy).value, u.title)
              && PrOpened(repo, job) && r.value.prNumber == |old(repo.prs)|
  {
    var checked := RunChecks(u, dec, policy);
    if checked.Err? {
      return Err(checked.error);
    }
    label Checked:
    r := CommitAndOpen(repo, job, checked.value, u.title);
    if repo.refs != old(repo.refs) {
      ghost var c :| Created@Checked(repo, job.branch, c, job.baseSha, checked.value, u.title);
      assert Created(repo, job.branch, c, job.baseSha, checked.value, u.title);
    }
  }

  // ---- what the checks mean together ----

  /** An approved upload is never held. */
  lemma ApprovedNotHeld(u: Upload, dec: Decoder, d: Detectors)
    requires u.approved
    ensures !(Precheck(u, dec, TheEngine(d)).Err? && Precheck(u, dec, TheEngine(d)).error.PolicyGate?)
  {
    PrecheckMeans(u, dec, d);
  }

  /** After the cross-check the policy's integrity rule has nothing left to find. */
  lemma IntegritySettled(files: seq<FileChange>, numstat: string)
    ensures FileTotals(files) == Totals(numstat) <==> IntegrityGate(files, Entries(numstat)) == []
  {
    ReadersAgree(numstat);
  }

  /** Nothing passes that names a path outside the repository or that a denial forbids; an approved upload is
      applied or refused, never held again. */
  lemma PrecheckMeans(u: Upload, dec: Decoder, d: Detectors)
    ensures Precheck(u, dec, TheEngine(d)).Ok? ==>
              var files := Precheck(u, dec, TheEngine(d)).value;
              && Parse(u.diff, dec) == Ok(files)
              && Contained(files) && Denials(files, u.outbound, d) == []
              && FileTotals(files) == Uploaded(Entries(u.numstat))
              && (u.approved || Gates(files, Entries(u.numstat), u.overrides, d) == [])
    ensures u.approved ==> !(Precheck(u, dec, TheEngine(d)).Err? && Precheck(u, dec, TheEngine(d)).error.PolicyGate?)
  {
    if Parse(u.diff, dec).Ok? {
      var files := Parse(u.diff, dec).value;
      NoEscapeIff(files);
      ReadersAgree(u.numstat);
      VerdictIff(files, Entries(u.numstat), u.outbound, u.overrides, u.approved, d);
    }
  }
}
