// The worker's host-side apply: from a stored upload to a pull request, a human gate or a failed job.
module DevJobWorker {
  import opened Wrappers
  import opened JobStore
  import opened Gates
  import opened ApplyWorker
  import R = ApplyRuns
  import opened DiffPolicy
  import opened DiffApply
  import opened DiffBundle
  import F = Finalizer
  import Forge
  import G = GatedPipeline
  import P = DiffParser

  datatype ApplyOutcome =
    | Applied(pr: nat)
    | Gated(gate: GateId)
    | ApplyFailed
    | NotAllowed       // no such job, or not one that may be applied
    | InFlight         // an apply of the job is under way
    | Skipped          // nothing to resume
    | GateGone         // the gate it ran into was closed meanwhile: the apply throws, the row stays

  /** The stored diff artifact of a job, and what goes out with it. */
  datatype StoredDiff = StoredDiff(bundle: string, title: string, outbound: Outbound, overrides: Overrides) {
    function Upload(approved: bool): Upload {
      var (diff, numstat) := SplitDiffBundle(bundle);
      DiffApply.Upload(diff, numstat, title, outbound, overrides, approved)
    }
  }

  /** The findings become the gate's questions. */
  function Findings(v: Verdict): seq<string> {
    seq(|v.findings|, k requires 0 <= k < |v.findings| => v.findings[k].ruleId)
  }

  /** What an apply of the job may leave behind; `before` is its row when it began. */
  predicate RowAfter(before: Row, after: Row, out: ApplyOutcome) {
    match out
    // a retry that succeeds after a failure leaves the job failed: finalizing an ended job changes nothing
    case Applied(_) => after.status == if before.status == Failed then Failed else Done
    case Gated(_) => after.status == Waiting && after.lease == None && after.handle == None
    case ApplyFailed => after.status == Failed
    case GateGone => after == before
    case _ => after == before
  }

  /** No row but the job's own has changed, and that one as the outcome says. */
  predicate OnlyRow(before: Rows, after: Rows, id: JobId, out: ApplyOutcome) {
    && after.Keys == before.Keys && (forall j | j in before && j != id :: after[j] == before[j])
    && (id in before ==> RowAfter(before[id], after[id], out))
  }

  /** The branches that have pull requests. */
  function Heads(prs: seq<Forge.PullRequest>): multiset<Branch> {
    multiset(seq(|prs|, k requires 0 <= k < |prs| => prs[k].head))
  }

  lemma HeadsGrow(prs: seq<Forge.PullRequest>, pr: Forge.PullRequest)
    ensures Heads(prs + [pr]) == Heads(prs) + multiset{pr.head}
  {
    var heads := seq(|prs|, k requires 0 <= k < |prs| => prs[k].head);
    assert seq(|prs| + 1, k requires 0 <= k < |prs| + 1 => (prs + [pr])[k].head) == heads + [pr.head];
  }

  predicate Grown(before: set<Branch>, after: set<Branch>, b: Branch) { b !in before && after == before + {b} }

  lemma ForgeTold(s: State, t: State, before: seq<Forge.PullRequest>, after: seq<Forge.PullRequest>, job: DiffApply.Job,
                  approved: bool, r: Result<nat, Option<Verdict>>)
    requires s.prs == Heads(before) && t.prs == Heads(after)
    requires t.refs == s.refs || Grown(s.refs, t.refs, job.branch)
    requires after == before
             || (Grown(s.refs, t.refs, job.branch)
                 && after == before + [Forge.PullRequest(job.branch, job.defaultBranch)])
    requires r.Ok? ==> after != before
    requires r.Err? && r.error.Some? ==> !approved && t.refs == s.refs && after == before
    ensures R.ForgeTells(s, job.branch, t.refs, t.prs, approved, LeftAt(r))
  {
    HeadsGrow(before, Forge.PullRequest(job.branch, job.defaultBranch));
  }

  function BranchOf(targets: JobId -> DiffApply.Job): JobId -> Branch { (j: JobId) => targets(j).branch }

  /** Where the forge's answer leaves an apply. */
  function LeftAt(r: Result<nat, Option<Verdict>>): At {
    match r
    case Ok(_) => Finishing
    case Err(Some(_)) => OpeningGate
    case Err(None) => Failing
  }

  class DevJobWorker {
    const store: DevJobStore
    const gates: DevJobGateStore
    const fx: F.SideEffects
    const repo: Forge.Repository
    const dec: P.Decoder
    const detectors: Detectors
    /** The stored diff of each job, unless its repository or its artifact is gone. */
    const uploads: JobId -> Option<StoredDiff>
    const targets: JobId -> DiffApply.Job
    /** Jobs mid-apply in this process. */
    var applying: set<JobId>

    constructor (store: DevJobStore, gates: DevJobGateStore, fx: F.SideEffects, repo: Forge.Repository, dec: P.Decoder,
                 detectors: Detectors, uploads: JobId -> Option<StoredDiff>, targets: JobId -> DiffApply.Job)
      ensures this.store == store && this.gates == gates && this.fx == fx && this.repo == repo && this.dec == dec
      ensures this.detectors == detectors && this.uploads == uploads && this.targets == targets && applying == {}
    {
      this.store, this.gates, this.fx, this.repo, this.dec := store, gates, fx, repo, dec;
      this.detectors, this.uploads, this.targets, applying := detectors, uploads, targets, {};
    }

    ghost predicate Valid()
      reads gates, repo
    {
      gates.Valid() && repo.Valid()
    }

    /** What all applies share. */
    ghost function View(): State
      reads store, gates, repo
    {
      State(store.rows, gates.gates, {}, map[], repo.refs.Keys, Heads(repo.prs))
    }

    /** A held upload: open a gate over the findings, park the job, revoke its tokens. */
    method OnGate(id: JobId, verdict: Verdict, gate: GateId, meanwhile: seq<GateEvent>) returns (out: ApplyOutcome)
      requires gates.Valid() && gate !in gates.gates && id in store.rows && MayApply(store.rows[id])
      modifies store`rows, gates, fx
      ensures gates.Valid() && (out.Gated? || out.GateGone?)
      ensures OnlyRow(old(store.rows), store.rows, id, out)
      ensures out.Gated? ==>
                && out.gate in gates.gates && gates.gates[out.gate].job == id
                && gates.gates[out.gate].status == Pending
      ensures out.GateGone? ==>
                store.rows == old(store.rows) && PendingFor(old(gates.gates), id) && !PendingFor(gates.gates, id)
      ensures !PendingFor(old(gates.gates), id) ==>
                out == Gated(gate)
                && gates.gates == old(gates.gates)[gate := NewGate(HeldOpening(id, Findings(verdict)))]
      ensures if out.Gated? then R.Parked(old(View()), View(), id) else R.Lost(old(View()), View())
    {
      ghost var later := if PendingFor(gates.gates, id) then meanwhile else [];
      ghost var first := AfterGate(gates.gates, GateEvent.Opened(gate, HeldOpening(id, Findings(verdict))));
      var waiting := gates.Open(gate, HeldOpening(id, Findings(verdict)), meanwhile);
      if waiting.None? {
        return GateGone;
      }
      assert gates.gates == Played(first, later);
      var parked := store.ParkAtApplyGate(id);
      fx.RevokeAll(id);
      out := Gated(waiting.value);
    }

    /** Record how an apply ended. */
    method Conclude(id: JobId, out: ApplyOutcome)
      requires id in store.rows && MayApply(store.rows[id]) && (out.Applied? || out.ApplyFailed?)
      modifies store`rows, fx
      ensures OnlyRow(old(store.rows), store.rows, id, out)
      ensures store.rows == Exec(old(store.rows), id, R.Closing(if out.Applied? then Finishing else Failing))
    {
      F.FinalizeDevJob(store, fx, id, if out.Applied? then Done else Failed);
    }

    /** The forge's part of an apply: a pull request, a verdict that holds the upload, or nothing. */
    method Attempt(id: JobId, upload: Upload) returns (r: Result<nat, Option<Verdict>>)
      requires repo.Valid()
      modifies repo
      ensures repo.Valid()
      ensures r.Ok? ==> PrOpened(repo, targets(id)) && r.value == |old(repo.prs)|
      ensures r.Err? && r.error.Some? ==>
                !upload.approved && repo.refs == old(repo.refs) && repo.prs == old(repo.prs)
      ensures repo.prs == old(repo.prs) || PrOpened(repo, targets(id))
      ensures repo.refs == old(repo.refs) || Grown(old(repo.refs.Keys), repo.refs.Keys, targets(id).branch)
    {
      if upload.approved {
        ApprovedNotHeld(upload, dec, detectors);
      }
      var applied := Apply(repo, targets(id), upload, dec, TheEngine(detectors));
      match applied {
        case Ok(done) => r := Ok(done.prNumber);
        case Err(PolicyGate(verdict)) => r := Err(Some(verdict));
        case Err(_) => r := Err(None);
      }
    }

    /** Send an upload to the forge, hold it for a human, or fail the job. */
    method TryApply(id: JobId, upload: Upload, gate: GateId, meanwhile: seq<GateEvent>) returns (out: ApplyOutcome)
      requires Valid() && gate !in gates.gates && id in store.rows && MayApply(store.rows[id])
      modifies store`rows, gates, fx, repo
      ensures Valid() && (out.Applied? || out.ApplyFailed? || out.Gated? || out.GateGone?)
      ensures OnlyRow(old(store.rows), store.rows, id, out)
      ensures out.Applied? ==> PrOpened(repo, targets(id))
      ensures out.Gated? || out.GateGone? ==>
                !upload.approved && repo.refs == old(repo.refs) && repo.prs == old(repo.prs)
      ensures repo.prs == old(repo.prs) || PrOpened(repo, targets(id))
      ensures out.Gated? ==>
                && out.gate in gates.gates && gates.gates[out.gate].job == id
                && gates.gates[out.gate].status == Pending
      ensures out.Applied? || out.ApplyFailed? ==> gates.gates == old(gates.gates)
      ensures R.Commits(old(View()), View(), id, upload.approved, targets(id).branch)
    {
      var r := Attempt(id, upload);
      ForgeTold(old(View()), View(), old(repo.prs), repo.prs, targets(id), upload.approved, r);
      match r {
        case Ok(pr) =>
          out := Applied(pr);
          Conclude(id, out);
        case Err(Some(verdict)) =>
          out := OnGate(id, verdict, gate, meanwhile);
        case Err(None) =>
          out := ApplyFailed;
          Conclude(id, out);
      }
    }

    /** Commit a job's stored diff, hold it for a human, or fail the job. */
    method ApplyJobInner(id: JobId, resumed: bool, gate: GateId, meanwhile: seq<GateEvent>) returns (out: ApplyOutcome)
      requires Valid() && gate !in gates.gates
      modifies store`rows, gates, fx, repo
      ensures Valid() && !out.InFlight? && !out.Skipped?
      ensures out.NotAllowed? <==> !(id in old(store.rows) && MayApply(old(store.rows)[id]))
      ensures OnlyRow(old(store.rows), store.rows, id, out)
      // a pull request stands for an applied upload, and only a human's gate can hold one that was not approved
      ensures out.Applied? ==> PrOpened(repo, targets(id))
      ensures !out.Applied? && !out.ApplyFailed? ==> repo.refs == old(repo.refs) && repo.prs == old(repo.prs)
      ensures repo.prs == old(repo.prs) || PrOpened(repo, targets(id))
      ensures out.Gated? || out.GateGone? ==> !resumed && !Approved(old(gates.gates), id)
      ensures out.Gated? ==>
                && out.gate in gates.gates && gates.gates[out.gate].job == id
                && gates.gates[out.gate].status == Pending
      ensures !out.Gated? && !out.GateGone? ==> gates.gates == old(gates.gates)
      ensures R.Applies(old(View()), View(), id, resumed, targets(id).branch)
    {
      if id !in store.rows || !MayApply(store.rows[id]) {
        return NotAllowed;
      }
      if !store.rows[id].diff || uploads(id).None? {
        Conclude(id, ApplyFailed);
        return ApplyFailed;
      }
      var approved := resumed;
      if !resumed {
        approved := gates.HasApprovedApplyGate(id);
      }
      out := TryApply(id, uploads(id).value.Upload(approved), gate, meanwhile);
    }

    /** An apply of the job, unless one is in flight: the sweep's and the retry route's way in. */
    method ApplyJob(id: JobId, gate: GateId, meanwhile: seq<GateEvent>) returns (out: ApplyOutcome)
      requires Valid() && gate !in gates.gates
      modifies this, store`rows, gates, fx, repo
      ensures Valid() && applying == old(applying) && !out.Skipped?
      ensures out.InFlight? <==> id in old(applying)
      ensures OnlyRow(old(store.rows), store.rows, id, out)
      ensures out.Applied? ==> PrOpened(repo, targets(id))
      ensures repo.prs == old(repo.prs) || PrOpened(repo, targets(id))
      ensures !out.Applied? && !out.ApplyFailed? ==> repo.refs == old(repo.refs) && repo.prs == old(repo.prs)
      ensures Approved(old(gates.gates), id) ==> !out.Gated? && !out.GateGone?
      ensures out.Gated? ==>
                && out.gate in gates.gates && gates.gates[out.gate].job == id
                && gates.gates[out.gate].status == Pending
      // a run of the steps that all applies interleave, whatever others are in flight; and of the pipeline
      ensures R.AmongOthers(old(View()), View(), id, BranchOf(targets))
      ensures G.Refines(old(store.rows), old(gates.gates), store.rows, gates.gates)
    {
      if id in applying {
        R.NothingAmongOthers(View(), id, BranchOf(targets));
        out := InFlight;
      } else {
        applying := applying + {id};
        out := ApplyJobInner(id, false, gate, meanwhile);
        applying := applying - {id};
        R.ApplyAmongOthers(old(View()), View(), id, BranchOf(targets));
      }
      R.AmongOthersRefines(old(View()), View(), id, BranchOf(targets));
    }

    /** The resume itself: the flip back to applying, then an apply that counts as approved. */
    method ResumeInner(id: JobId) returns (out: ApplyOutcome)
      requires Valid()
      modifies store`rows, gates, fx, repo
      ensures Valid() && gates.gates == old(gates.gates)
      ensures out in {Skipped, ApplyFailed} || out.Applied?
      ensures out == Skipped <==> !Hits(old(store.rows), id, ResumeApply)
      ensures out == Skipped ==> View() == old(View()) && repo.prs == old(repo.prs)
      ensures R.AmongOthers(old(View()), View(), id, BranchOf(targets))
      ensures store.rows.Keys == old(store.rows).Keys
      ensures forall j | j in store.rows && j != id :: store.rows[j] == old(store.rows)[j]
      ensures out != Skipped ==> store.rows[id].status == if out.Applied? then Done else Failed
      ensures out.Applied? ==> PrOpened(repo, targets(id))
      ensures repo.prs == old(repo.prs) || PrOpened(repo, targets(id))
    {
      out := Skipped;
      var resumed := store.ResumeApplyAfterGate(id);
      if resumed {
        FreshId(gates.gates.Keys);
        var gate: GateId :| gate !in gates.gates;
        out := ApplyJobInner(id, true, gate, []);
        R.ResumeAmongOthers(old(View()), View(), id, BranchOf(targets));
      } else {
        R.NothingAmongOthers(View(), id, BranchOf(targets));
      }
    }

    /** Resume an approved apply: whatever the policy still finds, the job ends with a pull request or failed, and a
        resume that comes too late or twice does nothing. */
    method ResumeGatedApply(id: JobId) returns (out: ApplyOutcome)
      requires Valid()
      modifies this, store`rows, gates, fx, repo
      ensures Valid() && applying == old(applying) && gates.gates == old(gates.gates)
      ensures out in {Skipped, ApplyFailed} || out.Applied?
      ensures out == Skipped <==> id in old(applying) || !Hits(old(store.rows), id, ResumeApply)
      ensures out == Skipped ==> store.rows == old(store.rows) && repo.prs == old(repo.prs)
      ensures store.rows.Keys == old(store.rows).Keys
      ensures forall j | j in store.rows && j != id :: store.rows[j] == old(store.rows)[j]
      ensures out != Skipped ==> store.rows[id].status == if out.Applied? then Done else Failed
      ensures out.Applied? ==> PrOpened(repo, targets(id))
      ensures repo.prs == old(repo.prs) || PrOpened(repo, targets(id))
      ensures R.AmongOthers(old(View()), View(), id, BranchOf(targets))
      ensures G.Refines(old(store.rows), gates.gates, store.rows, gates.gates)
    {
      if id in applying {
        R.NothingAmongOthers(View(), id, BranchOf(targets));
        out := Skipped;
      } else {
        applying := applying + {id};
        out := ResumeInner(id);
        applying := applying - {id};
      }
      R.AmongOthersRefines(old(View()), View(), id, BranchOf(targets));
    }
  }
}
