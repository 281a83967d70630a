// The job rows and the guarded statements that change them; each statement is atomic.
module JobStore {
  import opened Wrappers
  import opened Phases

  datatype Status =
    | Queued | Provisioning | Running | Waiting | Applying
    | Done | Failed | Cancelled | Stalled | BudgetExceeded

  predicate Terminal(s: Status) { s in {Done, Failed, Cancelled, Stalled, BudgetExceeded} }

  /** The statuses that count against the concurrency limit. */
  predicate Active(s: Status) { s in {Provisioning, Running, Applying} }

  type JobId = nat
  type Lease = nat
  type GateId = nat

  /** `brief` lists the gates whose section was appended; `diff` says that the result names a stored diff. `origin` is
      in no column: the job that went past the human gate in place of one that was resumed behind it. */
  datatype Row = Row(status: Status, lease: Option<Lease>, handle: Option<string>, phase: Phase, mode: Mode, kind: Kind,
                     provision: nat, brief: seq<GateId>, attempt: nat, complaints: Option<Fingerprint>, diff: bool,
                     origin: Option<JobId>)

  type Rows = map<JobId, Row>

  datatype Stmt =
    | Claim(lease: Lease)
    | Release(lease: Lease)
    | MarkRunning
    | AdvancePhase(from: Phase, to: Phase)
    | RequeueAt(phase: Phase)
    | ParkForGate
    | ParkForApplyGate
    | ResumeApply
    | AppendToBrief(gate: GateId)
    | SetReview(attempt: nat, complaints: Option<Fingerprint>)
    | SetHandle(lease: Lease, handle: string)
    | Prepare(lease: Lease)
    | RecordResult(diffReady: bool, diff: bool)
    | Finish(status: Status)

  /** The WHERE clause. */
  predicate Matches(r: Row, s: Stmt) {
    match s
    case Claim(_) => r.status == Queued
    case Release(l) => r.lease == Some(l) && r.status == Provisioning && r.handle == None
    case MarkRunning => r.status == Provisioning
    case AdvancePhase(from, _) => r.phase == from && !Terminal(r.status)
    case RequeueAt(_) => r.phase == AwaitHuman && !Terminal(r.status)
    case ParkForGate => r.phase == AwaitHuman && !Terminal(r.status)
    case ParkForApplyGate => r.status in {Applying, Failed}
    case ResumeApply => r.status == Waiting && r.phase != AwaitHuman
    case AppendToBrief(g) => g !in r.brief && !Terminal(r.status)
    case SetReview(_, _) => !Terminal(r.status)
    case SetHandle(l, _) => r.lease == Some(l) && !Terminal(r.status)
    case Prepare(l) => r.lease == Some(l) && !Terminal(r.status)
    case RecordResult(_, _) => !Terminal(r.status)
    case Finish(to) => !Terminal(r.status) && Terminal(to)
  }

  /** The SET clause. */
  function Written(r: Row, s: Stmt): Row {
    match s
    case Claim(l) => r.(status := Provisioning, lease := Some(l))
    case Release(_) => r.(status := Queued, lease := None)
    case MarkRunning => r.(status := Running)
    case AdvancePhase(_, to) => r.(phase := to)
    case RequeueAt(p) => r.(phase := p, status := Queued, lease := None, handle := None, provision := r.provision + 1)
    case ParkForGate => r.(status := Waiting, lease := None, handle := None)
    case ParkForApplyGate => r.(status := Waiting, lease := None, handle := None)
    case ResumeApply => r.(status := Applying)
    case AppendToBrief(g) => r.(brief := r.brief + [g])
    case SetReview(a, c) => r.(attempt := a, complaints := c)
    case SetHandle(_, h) => r.(handle := Some(h))
    case Prepare(_) => r
    case RecordResult(diffReady, d) => r.(status := if diffReady then Applying else r.status, diff := d)
    case Finish(to) => r.(status := to)
  }

  predicate Hits(rows: Rows, job: JobId, s: Stmt) { job in rows && Matches(rows[job], s) }

  function Exec(rows: Rows, job: JobId, s: Stmt): Rows {
    if Hits(rows, job, s) then rows[job := Written(rows[job], s)] else rows
  }

  /** Statements of others, one after the other. */
  function ExecAll(rows: Rows, stmts: seq<(JobId, Stmt)>): (r: Rows)
    ensures r.Keys == rows.Keys
    decreases |stmts|
  {
    if stmts == [] then rows
    else Exec(ExecAll(rows, stmts[..|stmts| - 1]), stmts[|stmts| - 1].0, stmts[|stmts| - 1].1)
  }

  /** What a new job is created with. */
  datatype NewJob = NewJob(waiting: bool, phase: Phase, mode: Mode, kind: Kind, brief: seq<GateId>,
                           origin: Option<JobId>)

  function Fresh(n: NewJob): Row {
    Row(if n.waiting then Waiting else Queued, None, None, n.phase, n.mode, n.kind, 1, n.brief, 0, None, false,
        n.origin)
  }

  // ---- the store ----

  class DevJobStore {
    var rows: Rows
    /** Oldest first. */
    var created: seq<JobId>

    constructor ()
      ensures Valid() && rows == map[]
    {
      rows, created := map[], [];
    }

    ghost predicate Valid()
      reads this
    {
      && (forall j :: j in rows <==> j in created)
      && (forall i, k | 0 <= i < k < |created| :: created[i] != created[k])
    }

    /** A new job is queued, or parked right away: then it is never claimable before its gate. */
    method Insert(job: JobId, n: NewJob)
      requires Valid() && job !in rows
      modifies this
      ensures Valid() && created == old(created) + [job]
      ensures rows == old(rows)[job := Fresh(n)]
    {
      rows := rows[job := Fresh(n)];
      created := created + [job];
    }

    /** Claim the oldest queued job, skipping rows other transactions have locked, under a fresh lease. */
    method ClaimNextQueued(lease: Lease, locked: set<JobId>) returns (claimed: Option<JobId>)
      requires Valid()
      modifies this`rows
      ensures Valid()
      ensures claimed.None? ==> rows == old(rows) && forall j | j in rows && j !in locked :: rows[j].status != Queued
      ensures claimed.Some? ==>
                && claimed.value !in locked
                && Hits(old(rows), claimed.value, Claim(lease)) && rows == Exec(old(rows), claimed.value, Claim(lease))
                && exists k | 0 <= k < |created| ::
                     && created[k] == claimed.value
                     && forall i | 0 <= i < k && created[i] !in locked :: old(rows)[created[i]].status != Queued
    {
      for k := 0 to |created|
        invariant rows == old(rows)
        invariant forall i | 0 <= i < k && created[i] !in locked :: rows[created[i]].status != Queued
      {
        var job := created[k];
        if job !in locked && rows[job].status == Queued {
          rows := rows[job := rows[job].(status := Provisioning, lease := Some(lease))];
          return Some(job);
        }
      }
      claimed := None;
    }

    method ReleaseClaim(job: JobId, lease: Lease) returns (ok: bool)
      modifies this`rows
      ensures rows == Exec(old(rows), job, Release(lease)) && ok == Hits(old(rows), job, Release(lease))
    {
      ok := Hits(rows, job, Release(lease));
      if ok {
        rows := rows[job := rows[job].(status := Queued, lease := None)];
      }
    }

    method MarkJobRunning(job: JobId) returns (ok: bool)
      modifies this`rows
      ensures rows == Exec(old(rows), job, MarkRunning) && ok == Hits(old(rows), job, MarkRunning)
    {
      ok := job in rows && rows[job].status == Provisioning;
      if ok {
        rows := rows[job := rows[job].(status := Running)];
      }
    }

    /** Fenced on the phase the job is leaving. */
    method Advance(job: JobId, from: Phase, to: Phase) returns (ok: bool)
      modifies this`rows
      ensures rows == Exec(old(rows), job, AdvancePhase(from, to)) && ok == Hits(old(rows), job, AdvancePhase(from, to))
    {
      ok := job in rows && rows[job].phase == from && !Terminal(rows[job].status);
      if ok {
        rows := rows[job := rows[job].(phase := to)];
      }
    }

    method RequeueAtPhase(job: JobId, phase: Phase) returns (ok: bool)
      modifies this`rows
      ensures rows == Exec(old(rows), job, RequeueAt(phase)) && ok == Hits(old(rows), job, RequeueAt(phase))
    {
      ok := job in rows && rows[job].phase == AwaitHuman && !Terminal(rows[job].status);
      if ok {
        var r := rows[job];
        rows := rows[job := r.(phase := phase, status := Queued, lease := None, handle := None,
                               provision := r.provision + 1)];
      }
    }

    method Park(job: JobId) returns (ok: bool)
      modifies this`rows
      ensures rows == Exec(old(rows), job, ParkForGate) && ok == Hits(old(rows), job, ParkForGate)
    {
      ok := job in rows && rows[job].phase == AwaitHuman && !Terminal(rows[job].status);
      if ok {
        rows := rows[job := rows[job].(status := Waiting, lease := None, handle := None)];
      }
    }

    /** Also parks a job whose apply was retried after it failed. */
    method ParkAtApplyGate(job: JobId) returns (ok: bool)
      modifies this`rows
      ensures rows == Exec(old(rows), job, ParkForApplyGate) && ok == Hits(old(rows), job, ParkForApplyGate)
    {
      ok := job in rows && rows[job].status in {Applying, Failed};
      if ok {
        rows := rows[job := rows[job].(status := Waiting, lease := None, handle := None)];
      }
    }

    method ResumeApplyAfterGate(job: JobId) returns (ok: bool)
      modifies this`rows
      ensures rows == Exec(old(rows), job, ResumeApply) && ok == Hits(old(rows), job, ResumeApply)
    {
      ok := job in rows && rows[job].status == Waiting && rows[job].phase != AwaitHuman;
      if ok {
        rows := rows[job := rows[job].(status := Applying)];
      }
    }

    /** At most one section per gate. */
    method AppendSection(job: JobId, gate: GateId) returns (wrote: bool)
      modifies this`rows
      ensures rows == Exec(old(rows), job, AppendToBrief(gate)) && wrote == Hits(old(rows), job, AppendToBrief(gate))
    {
      wrote := job in rows && gate !in rows[job].brief && !Terminal(rows[job].status);
      if wrote {
        rows := rows[job := rows[job].(brief := rows[job].brief + [gate])];
      }
    }

    method SetReviewState(job: JobId, attempt: nat, complaints: Option<Fingerprint>)
      modifies this`rows
      ensures rows == Exec(old(rows), job, SetReview(attempt, complaints))
    {
      if job in rows && !Terminal(rows[job].status) {
        rows := rows[job := rows[job].(attempt := attempt, complaints := complaints)];
      }
    }

    /** Only a job under this lease may be provisioned; the row's token and pins are not part of the model. */
    method PrepareProvision(job: JobId, lease: Lease) returns (ok: bool)
      ensures ok == Hits(rows, job, Prepare(lease))
    {
      ok := job in rows && rows[job].lease == Some(lease) && !Terminal(rows[job].status);
    }

    /** What everybody else does while a caller waits. */
    method Others(stmts: seq<(JobId, Stmt)>)
      modifies this`rows
      ensures rows == ExecAll(old(rows), stmts)
    {
      for k := 0 to |stmts|
        invariant rows == ExecAll(old(rows), stmts[..k])
      {
        assert stmts[..k + 1][..k] == stmts[..k];
        rows := Exec(rows, stmts[k].0, stmts[k].1);
      }
      assert stmts[..|stmts|] == stmts;
    }

    method SetRunnerHandle(job: JobId, lease: Lease, handle: string) returns (ok: bool)
      modifies this`rows
      ensures rows == Exec(old(rows), job, SetHandle(lease, handle))
      ensures ok == Hits(old(rows), job, SetHandle(lease, handle))
    {
      ok := job in rows && rows[job].lease == Some(lease) && !Terminal(rows[job].status);
      if ok {
        rows := rows[job := rows[job].(handle := Some(handle))];
      }
    }

    method RecordJobResult(job: JobId, diffReady: bool, diff: bool) returns (ok: bool)
      modifies this`rows
      ensures rows == Exec(old(rows), job, RecordResult(diffReady, diff))
      ensures ok == Hits(old(rows), job, RecordResult(diffReady, diff))
    {
      ok := job in rows && !Terminal(rows[job].status);
      if ok {
        rows := rows[job := rows[job].(status := if diffReady then Applying else rows[job].status, diff := diff)];
      }
    }

    /** The only way into a terminal status. */
    method FinishTerminal(job: JobId, status: Status) returns (transitioned: bool)
      requires Terminal(status)
      modifies this`rows
      ensures rows == Exec(old(rows), job, Finish(status)) && transitioned == Hits(old(rows), job, Finish(status))
    {
      transitioned := job in rows && !Terminal(rows[job].status);
      if transitioned {
        rows := rows[job := rows[job].(status := status)];
      }
    }
  }

  // ---- leases, in every interleaving of statements ----

  /** A queued or waiting job holds nothing, a job with a runner holds a lease. */
  ghost predicate RowSound(r: Row) {
    && (r.status in {Queued, Waiting} ==> r.lease == None && r.handle == None)
    && (r.status in {Provisioning, Running} ==> r.lease.Some?)
  }

  /** `issued` leases have been handed out so far; no lease is in two rows. */
  ghost predicate Leased(rows: Rows, issued: nat) {
    && (forall j | j in rows :: RowSound(rows[j]) && (rows[j].lease.Some? ==> rows[j].lease.value < issued))
    && (forall i, j | i in rows && j in rows && i != j && rows[i].lease.Some? :: rows[i].lease != rows[j].lease)
  }

  datatype Event = New(job: JobId, row: Row) | On(job: JobId, stmt: Stmt)

  /** New rows are queued or waiting without a lease, and every claim brings a lease never used before. */
  ghost predicate Possible(rows: Rows, issued: nat, e: Event) {
    match e
    case New(j, r) => j !in rows && r.status in {Queued, Waiting} && r.lease == None && r.handle == None
    case On(_, s) => s.Claim? ==> s.lease == issued
  }

  function After(rows: Rows, e: Event): Rows {
    match e
    case New(j, r) => rows[j := r]
    case On(j, s) => Exec(rows, j, s)
  }

  function IssuedAfter(issued: nat, e: Event): nat { if e.On? && e.stmt.Claim? then issued + 1 else issued }

  lemma WrittenSound(r: Row, s: Stmt)
    requires RowSound(r) && Matches(r, s)
    ensures RowSound(Written(r, s))
    ensures Written(r, s).lease in {r.lease, None} || (s.Claim? && Written(r, s).lease == Some(s.lease))
  {
  }

  lemma StepLeased(rows: Rows, issued: nat, e: Event)
    requires Leased(rows, issued) && Possible(rows, issued, e)
    ensures Leased(After(rows, e), IssuedAfter(issued, e))
  {
    if e.On? && Hits(rows, e.job, e.stmt) {
      WrittenSound(rows[e.job], e.stmt);
    }
  }

  /** The rows and the number of leases after a run of events, each possible where it happens. */
  ghost predicate Reaches(rows: Rows, issued: nat, run: seq<Event>, rows': Rows, issued': nat)
    decreases |run|
  {
    if run == [] then rows' == rows && issued' == issued
    else
      && Possible(rows, issued, run[0])
      && Reaches(After(rows, run[0]), IssuedAfter(issued, run[0]), run[1..], rows', issued')
  }

  /** In every reachable state of every interleaving queued and waiting jobs hold nothing, provisioning and
      running jobs hold a lease, and no lease is in two rows. */
  lemma {:induction false} LeasesHold(rows: Rows, issued: nat, run: seq<Event>, rows': Rows, issued': nat)
    requires Leased(rows, issued) && Reaches(rows, issued, run, rows', issued')
    ensures Leased(rows', issued')
    decreases |run|
  {
    if run != [] {
      StepLeased(rows, issued, run[0]);
      LeasesHold(After(rows, run[0]), IssuedAfter(issued, run[0]), run[1..], rows', issued');
    }
  }

  /** The lease was handed out and the row does not hold it (any more). */
  predicate Superseded(rows: Rows, issued: nat, job: JobId, l: Lease) {
    l < issued && !(job in rows && rows[job].lease == Some(l))
  }

  predicate Fenced(s: Stmt, l: Lease) {
    (s.Release? && s.lease == l) || (s.SetHandle? && s.lease == l) || (s.Prepare? && s.lease == l)
  }

  /** A superseded lease stays superseded forever, and a write with it changes nothing. */
  lemma {:induction false} SupersededForever(rows: Rows, issued: nat, run: seq<Event>, rows': Rows, issued': nat,
                                             job: JobId, l: Lease, s: Stmt)
    requires Reaches(rows, issued, run, rows', issued') && Superseded(rows, issued, job, l) && Fenced(s, l)
    ensures Superseded(rows', issued', job, l) && Exec(rows', job, s) == rows'
    decreases |run|
  {
    if run != [] {
      SupersededForever(After(rows, run[0]), IssuedAfter(issued, run[0]), run[1..], rows', issued', job, l, s);
    }
  }

  /** Only a statement that parks a gated apply leaves a terminal status. */
  lemma OnlyParkLeavesTerminal(r: Row, s: Stmt)
    requires Matches(r, s) && Terminal(r.status)
    ensures s == ParkForApplyGate && r.status == Failed && Written(r, s).status == Waiting
  {
  }
}
