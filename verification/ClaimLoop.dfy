// Claiming and provisioning under the concurrency limit.
module ClaimLoop {
  import opened Wrappers
  import opened JobStore
  import opened Phases
  import F = Finalizer

  /** Jobs with a runner behind them. */
  function Occupied(rows: Rows): set<JobId> { set j | j in rows && rows[j].status in {Provisioning, Running} }

  /** Jobs that count against the limit: a job being applied keeps its slot. */
  function ActiveJobs(rows: Rows): set<JobId> { set j | j in rows && Active(rows[j].status) }

  function Slots(max: nat, rows: Rows): nat {
    if max > |ActiveJobs(rows)| then max - |ActiveJobs(rows)| else 0
  }

  lemma {:induction false} SubsetSize(a: set<JobId>, b: set<JobId>)
    requires a <= b
    ensures |a| <= |b|
    decreases a
  {
    if a != {} {
      var x :| x in a;
      SubsetSize(a - {x}, b - {x});
    }
  }

  /** A claim occupies one more slot at most; nothing else occupies one. */
  lemma OnlyClaimsOccupy(rows: Rows, e: Event)
    requires e.New? ==> e.row.status in {Queued, Waiting}
    ensures |Occupied(After(rows, e))| <= |Occupied(rows)| + if e.On? && e.stmt.Claim? then 1 else 0
  {
    if e.On? && e.stmt.Claim? {
      SubsetSize(Occupied(After(rows, e)), Occupied(rows) + {e.job});
    } else {
      SubsetSize(Occupied(After(rows, e)), Occupied(rows));
    }
  }

  lemma OccupiedAreActive(rows: Rows)
    ensures |Occupied(rows)| <= |ActiveJobs(rows)|
  {
    SubsetSize(Occupied(rows), ActiveJobs(rows));
  }

  // ---- one worker process among everything else that writes rows ----

  /** `slots` is what the claim loop still believes to be free, while a tick runs it. */
  datatype State = State(rows: Rows, slots: Option<nat>)

  datatype Step =
    | Begin                            // count the active jobs
    | ClaimOne(job: JobId, lease: Lease)
    | Finish                           // slots used up, queue drained or a claim failed
    | Crash                            // the process restarts: only the rows survive
    | Other(event: Event)              // provisioning, runners, gates, sweeps, finalizers

  predicate Enabled(s: State, e: Step) {
    match e
    case Begin => s.slots == None
    case ClaimOne(j, l) => s.slots.Some? && s.slots.value > 0 && Hits(s.rows, j, Claim(l))
    case Finish => s.slots.Some?
    case Crash => true
    case Other(x) => (x.On? ==> !x.stmt.Claim?) && (x.New? ==> x.row.status in {Queued, Waiting})
  }

  function Next(max: nat, s: State, e: Step): State
    requires Enabled(s, e)
  {
    match e
    case Begin => s.(slots := Some(Slots(max, s.rows)))
    case ClaimOne(j, l) => State(Exec(s.rows, j, Claim(l)), Some(s.slots.value - 1))
    case Finish => s.(slots := None)
    case Crash => s.(slots := None)
    case Other(x) => s.(rows := After(s.rows, x))
  }

  ghost predicate Bounded(max: nat, s: State) { |Occupied(s.rows)| + s.slots.GetOr(0) <= max }

  lemma StepBounded(max: nat, s: State, e: Step)
    requires Bounded(max, s) && Enabled(s, e)
    ensures Bounded(max, Next(max, s, e))
    ensures e.ClaimOne? ==> Next(max, s, e).slots.value < s.slots.value
  {
    match e {
      case Begin => OccupiedAreActive(s.rows);
      case ClaimOne(j, l) => OnlyClaimsOccupy(s.rows, On(j, Claim(l)));
      case Other(x) => OnlyClaimsOccupy(s.rows, x);
      case _ =>
    }
  }

  ghost predicate Runs(max: nat, s: State, run: seq<Step>, t: State)
    decreases |run|
  {
    if run == [] then t == s else Enabled(s, run[0]) && Runs(max, Next(max, s, run[0]), run[1..], t)
  }

  /** Jobs with a runner never exceed the limit: through restarts, releases, gate resumes, runner reports and
      anything else that happens between two steps of the loop. */
  lemma {:induction false} NeverOverTheLimit(max: nat, s: State, run: seq<Step>, t: State)
    requires Bounded(max, s) && Runs(max, s, run, t)
    ensures |Occupied(t.rows)| <= max
    decreases |run|
  {
    if run != [] {
      StepBounded(max, s, run[0]);
      NeverOverTheLimit(max, Next(max, s, run[0]), run[1..], t);
    }
  }

  // ---- the loop itself ----

  /** What a backend says to a provision request. */
  datatype Provisioned = Started(handle: string) | NotNow | Broken

  /** What a claimed job meets: whether it is admitted, the backend's answer, and what everybody else does before the
      provision is prepared and while the backend works. */
  datatype Fate = Fate(admitted: bool, answer: Provisioned, before: seq<(JobId, Stmt)>, during: seq<(JobId, Stmt)>)

  /** Only this loop claims. */
  ghost predicate NoClaims(stmts: seq<(JobId, Stmt)>) { forall k | 0 <= k < |stmts| :: !stmts[k].1.Claim? }

  /** Nobody else writes under this lease or hands it out. */
  ghost predicate Foreign(stmts: seq<(JobId, Stmt)>, lease: Lease) {
    forall k | 0 <= k < |stmts| :: stmts[k].1 != Claim(lease) && !Fenced(stmts[k].1, lease)
  }

  lemma {:induction false} OthersOccupy(rows: Rows, stmts: seq<(JobId, Stmt)>)
    requires NoClaims(stmts)
    ensures |Occupied(ExecAll(rows, stmts))| <= |Occupied(rows)|
    decreases |stmts|
  {
    if stmts != [] {
      var n := |stmts| - 1;
      OthersOccupy(rows, stmts[..n]);
      assert forall k | 0 <= k < n :: stmts[..n][k] == stmts[k];
      OnlyClaimsOccupy(ExecAll(rows, stmts[..n]), On(stmts[n].0, stmts[n].1));
    }
  }

  /** Held under the lease, but without a runner. */
  predicate Bare(rows: Rows, job: JobId, lease: Lease) {
    job in rows && (rows[job].lease == Some(lease) ==> rows[job].handle == None)
  }

  lemma {:induction false} StaysBare(rows: Rows, stmts: seq<(JobId, Stmt)>, job: JobId, lease: Lease)
    requires Foreign(stmts, lease) && Bare(rows, job, lease)
    ensures Bare(ExecAll(rows, stmts), job, lease)
    decreases |stmts|
  {
    if stmts != [] {
      var n := |stmts| - 1;
      assert forall k | 0 <= k < n :: stmts[..n][k] == stmts[k];
      StaysBare(rows, stmts[..n], job, lease);
      StepBare(ExecAll(rows, stmts[..n]), stmts[n].0, stmts[n].1, job, lease);
    }
  }

  lemma StepBare(rows: Rows, j: JobId, stmt: Stmt, job: JobId, lease: Lease)
    requires Bare(rows, job, lease) && stmt != Claim(lease) && !Fenced(stmt, lease)
    ensures Bare(Exec(rows, j, stmt), job, lease)
  {
  }

  function Max(a: nat, b: nat): nat { if a < b then b else a }

  /** The job as it is when the worker's last statement comes. */
  function Met(rows: Rows, job: JobId, lease: Lease, fate: Fate): (Rows, bool) {
    var ready := ExecAll(rows, fate.before);
    if fate.admitted && Hits(ready, job, Prepare(lease)) then (ExecAll(ready, fate.during), true) else (ready, false)
  }

  /** The one statement that settles a claim. */
  function Settling(lease: Lease, prepared: bool, answer: Provisioned): Stmt {
    if !prepared then JobStore.Finish(Failed)
    else
      match answer
      case Started(h) => SetHandle(lease, h)
      case NotNow => Release(lease)
      case Broken => JobStore.Finish(Failed)
  }

  lemma FateOccupies(rows: Rows, job: JobId, lease: Lease, fate: Fate)
    ensures var (met, prepared) := Met(rows, job, lease, fate);
            NoClaims(fate.before) && NoClaims(fate.during) ==>
              |Occupied(Exec(met, job, Settling(lease, prepared, fate.answer)))| <= |Occupied(rows)|
  {
    if NoClaims(fate.before) && NoClaims(fate.during) {
      var (met, prepared) := Met(rows, job, lease, fate);
      OthersOccupy(rows, fate.before);
      OthersOccupy(ExecAll(rows, fate.before), fate.during);
      OnlyClaimsOccupy(met, On(job, Settling(lease, prepared, fate.answer)));
    }
  }

  /** The lease's job has its runner, is queued again or has ended; or the lease is not its lease any more. */
  predicate Settled(rows: Rows, job: JobId, lease: Lease, answer: Provisioned) {
    && job in rows
    && (rows[job].lease == Some(lease) && !Terminal(rows[job].status) ==>
        || (answer.Started? && rows[job].handle == Some(answer.handle))
        || (answer.NotNow? && rows[job].status != Provisioning))
  }

  lemma FateBare(rows: Rows, job: JobId, lease: Lease, fate: Fate)
    ensures var (met, prepared) := Met(rows, job, lease, fate);
            Bare(rows, job, lease) && Foreign(fate.before, lease) && Foreign(fate.during, lease) ==>
              Settled(Exec(met, job, Settling(lease, prepared, fate.answer)), job, lease, fate.answer)
  {
    if Bare(rows, job, lease) && Foreign(fate.before, lease) && Foreign(fate.during, lease) {
      StaysBare(rows, fate.before, job, lease);
      StaysBare(ExecAll(rows, fate.before), fate.during, job, lease);
    }
  }

  /** The job is not held under the lease (any more). */
  predicate LeaseLost(rows: Rows, job: JobId, lease: Lease) { job in rows && rows[job].lease != Some(lease) }

  /** A worker that has lost its lease leaves the job alone exactly when the job has ended anyway, or the provision was
      prepared in time and the backend did not break: ending a job is not fenced by a lease. */
  lemma LeftAloneIff(rows: Rows, job: JobId, lease: Lease, fate: Fate)
    requires LeaseLost(Met(rows, job, lease, fate).0, job, lease)
    ensures var (met, prepared) := Met(rows, job, lease, fate);
            Exec(met, job, Settling(lease, prepared, fate.answer)) == met <==>
            Terminal(met[job].status) || (prepared && !fate.answer.Broken?)
  {
    var (met, prepared) := Met(rows, job, lease, fate);
    var stmt := Settling(lease, prepared, fate.answer);
    if stmt == JobStore.Finish(Failed) && !Terminal(met[job].status) {
      assert Exec(met, job, stmt)[job].status == Failed;
    }
  }

  /** For instance: a lease that was lost before the provision was prepared. */
  lemma LostEarlyStillEnds(row: Row, lease: Lease, answer: Provisioned)
    requires row.lease != Some(lease) && !Terminal(row.status)
    ensures var rows: Rows := map[0 := row];
            var (met, prepared) := Met(rows, 0, lease, Fate(true, answer, [], []));
            && met == rows && !prepared
            && Exec(met, 0, Settling(lease, prepared, answer)) == rows[0 := row.(status := Failed)]
  {
  }

  /** And one that is lost while the backend works: the job is parked at its human gate meanwhile, then the backend
      breaks, and the worker fails a job that waits for its human. */
  lemma LostLaterStillEnds(rows: Rows, job: JobId, lease: Lease)
    requires job in rows && rows[job].status == Running && rows[job].phase == Clarify && rows[job].lease == Some(lease)
    ensures var during := [(job, AdvancePhase(Clarify, AwaitHuman)), (job, ParkForGate)];
            var (met, prepared) := Met(rows, job, lease, Fate(true, Broken, [], during));
            && Foreign(during, lease) && prepared && LeaseLost(met, job, lease) && met[job].status == Waiting
            && job in Exec(met, job, Settling(lease, prepared, Broken))
            && Exec(met, job, Settling(lease, prepared, Broken))[job].status == Failed
  {
    var during := [(job, AdvancePhase(Clarify, AwaitHuman)), (job, ParkForGate)];
    TwoStatements(rows, during[0], during[1]);
    ParkedMeanwhile(rows, job);
    BrokenLater(rows, job, lease, during);
  }

  lemma BrokenLater(rows: Rows, job: JobId, lease: Lease, during: seq<(JobId, Stmt)>)
    requires Hits(rows, job, Prepare(lease)) && !Terminal(ExecAll(rows, during)[job].status)
    ensures var (met, prepared) := Met(rows, job, lease, Fate(true, Broken, [], during));
            && met == ExecAll(rows, during) && prepared
            && job in Exec(met, job, Settling(lease, prepared, Broken))
            && Exec(met, job, Settling(lease, prepared, Broken))[job].status == Failed
  {
    var none: seq<(JobId, Stmt)> := [];
    assert ExecAll(rows, none) == rows;
  }

  lemma ParkedMeanwhile(rows: Rows, job: JobId)
    requires job in rows && rows[job].status == Running && rows[job].phase == Clarify
    ensures var after := Exec(Exec(rows, job, AdvancePhase(Clarify, AwaitHuman)), job, ParkForGate);
            job in after && after[job].status == Waiting && after[job].lease == None
  {
  }

  lemma TwoStatements(rows: Rows, a: (JobId, Stmt), b: (JobId, Stmt))
    ensures ExecAll(rows, [a, b]) == Exec(Exec(rows, a.0, a.1), b.0, b.1)
  {
    var none: seq<(JobId, Stmt)> := [];
    assert [a, b][..1] == [a] && [a][..0] == none;
    assert ExecAll(rows, none) == rows;
    assert ExecAll(rows, [a]) == Exec(rows, a.0, a.1);
  }

  // ---- the loop as a run ----

  ghost predicate Leads(max: nat, s: State, t: State) { exists run :: Runs(max, s, run, t) }

  lemma Stays(max: nat, s: State)
    ensures Leads(max, s, s)
  {
    assert Runs(max, s, [], s);
  }

  lemma OneStep(max: nat, s: State, e: Step)
    requires Enabled(s, e)
    ensures Leads(max, s, Next(max, s, e))
  {
    assert [e][1..] == [];
    assert Runs(max, Next(max, s, e), [], Next(max, s, e));
    assert Runs(max, s, [e], Next(max, s, e));
  }

  lemma {:induction false} RunsJoin(max: nat, s: State, a: seq<Step>, t: State, b: seq<Step>, u: State)
    requires Runs(max, s, a, t) && Runs(max, t, b, u)
    ensures Runs(max, s, a + b, u)
    decreases |a|
  {
    if a == [] {
      assert a + b == b;
    } else {
      RunsJoin(max, Next(max, s, a[0]), a[1..], t, b, u);
      assert (a + b)[1..] == a[1..] + b;
    }
  }

  lemma Onwards(max: nat, s: State, t: State, u: State)
    requires Leads(max, s, t) && Leads(max, t, u)
    ensures Leads(max, s, u)
  {
    var a :| Runs(max, s, a, t);
    var b :| Runs(max, t, b, u);
    RunsJoin(max, s, a, t, b, u);
  }

  lemma StatementLeads(max: nat, rows: Rows, slots: Option<nat>, job: JobId, stmt: Stmt)
    requires !stmt.Claim?
    ensures Leads(max, State(rows, slots), State(Exec(rows, job, stmt), slots))
  {
    OneStep(max, State(rows, slots), Other(On(job, stmt)));
  }

  lemma {:induction false} OthersLead(max: nat, rows: Rows, slots: Option<nat>, stmts: seq<(JobId, Stmt)>)
    requires NoClaims(stmts)
    ensures Leads(max, State(rows, slots), State(ExecAll(rows, stmts), slots))
    decreases |stmts|
  {
    if stmts == [] {
      Stays(max, State(rows, slots));
    } else {
      var n := |stmts| - 1;
      var before := ExecAll(rows, stmts[..n]);
      assert forall k | 0 <= k < n :: stmts[..n][k] == stmts[k];
      OthersLead(max, rows, slots, stmts[..n]);
      StatementLeads(max, before, slots, stmts[n].0, stmts[n].1);
      Onwards(max, State(rows, slots), State(before, slots), State(ExecAll(rows, stmts), slots));
    }
  }

  lemma FateLeads(max: nat, rows: Rows, slots: Option<nat>, job: JobId, lease: Lease, fate: Fate)
    requires NoClaims(fate.before) && NoClaims(fate.during)
    ensures var (met, prepared) := Met(rows, job, lease, fate);
            Leads(max, State(rows, slots), State(Exec(met, job, Settling(lease, prepared, fate.answer)), slots))
  {
    var (met, prepared) := Met(rows, job, lease, fate);
    var ready := ExecAll(rows, fate.before);
    OthersLead(max, rows, slots, fate.before);
    if prepared {
      OthersLead(max, ready, slots, fate.during);
      Onwards(max, State(rows, slots), State(ready, slots), State(met, slots));
    }
    var stmt := Settling(lease, prepared, fate.answer);
    StatementLeads(max, met, slots, job, stmt);
    Onwards(max, State(rows, slots), State(met, slots), State(Exec(met, job, stmt), slots));
  }

  /** A claim and what becomes of it take one slot. */
  lemma ClaimLeads(max: nat, rows: Rows, slots: nat, job: JobId, lease: Lease, fate: Fate)
    requires slots > 0 && Hits(rows, job, Claim(lease)) && NoClaims(fate.before) && NoClaims(fate.during)
    ensures Leads(max, State(rows, Some(slots)), State(AfterClaim(rows, job, lease, fate), Some(slots - 1)))
  {
    var claimed := Exec(rows, job, Claim(lease));
    OneStep(max, State(rows, Some(slots)), ClaimOne(job, lease));
    FateLeads(max, claimed, Some(slots - 1), job, lease, fate);
    Onwards(max, State(rows, Some(slots)), State(claimed, Some(slots - 1)),
            State(AfterClaim(rows, job, lease, fate), Some(slots - 1)));
  }

  function AfterClaim(rows: Rows, job: JobId, lease: Lease, fate: Fate): Rows {
    var (met, prepared) := Met(Exec(rows, job, Claim(lease)), job, lease, fate);
    Exec(met, job, Settling(lease, prepared, fate.answer))
  }

  /** What one round of the loop does to the rows. */
  ghost predicate TakesSlot(max: nat, rows: Rows, after: Rows) {
    forall slots: nat | slots > 0 :: Leads(max, State(rows, Some(slots)), State(after, Some(slots - 1)))
  }

  lemma ClaimTakesSlot(max: nat, rows: Rows, job: JobId, lease: Lease, fate: Fate)
    requires Hits(rows, job, Claim(lease)) && NoClaims(fate.before) && NoClaims(fate.during)
    ensures TakesSlot(max, rows, AfterClaim(rows, job, lease, fate))
  {
    forall slots: nat | slots > 0
      ensures Leads(max, State(rows, Some(slots)), State(AfterClaim(rows, job, lease, fate), Some(slots - 1)))
    {
      ClaimLeads(max, rows, slots, job, lease, fate);
    }
  }

  class Worker {
    const store: DevJobStore
    const fx: F.SideEffects
    const maxConcurrent: nat
    var issued: Lease

    constructor (store: DevJobStore, fx: F.SideEffects, maxConcurrent: nat)
      ensures this.store == store && this.fx == fx && this.maxConcurrent == maxConcurrent && issued == 0
    {
      this.store, this.fx, this.maxConcurrent, issued := store, fx, maxConcurrent, 0;
    }

    /** Prepare a claimed job and start its runner; give the claim back when the backend says "not now", end the job
        when it cannot be started. A runner whose lease was lost meanwhile is torn down and the row left alone. */
    method ProvisionOne(job: JobId, lease: Lease, fate: Fate) returns (orphan: Option<string>)
      modifies store`rows, fx
      ensures var (met, prepared) := Met(old(store.rows), job, lease, fate);
              && store.rows == Exec(met, job, Settling(lease, prepared, fate.answer))
              && orphan == (if prepared && fate.answer.Started? && !Hits(met, job, SetHandle(lease, fate.answer.handle))
                            then Some(fate.answer.handle) else None)
      // a claim is never left without a runner: the job has one, is queued again or has ended, or the lease is gone
      ensures Bare(old(store.rows), job, lease) && Foreign(fate.before, lease) && Foreign(fate.during, lease) ==>
                Settled(store.rows, job, lease, fate.answer)
      // a worker without the lease leaves the job alone, unless it ends it
      ensures var (met, prepared) := Met(old(store.rows), job, lease, fate);
              LeaseLost(met, job, lease) ==>
                (store.rows == met <==> Terminal(met[job].status) || (prepared && !fate.answer.Broken?))
      ensures NoClaims(fate.before) && NoClaims(fate.during) ==>
                |Occupied(store.rows)| <= |Occupied(old(store.rows))|
    {
      orphan := None;
      if LeaseLost(Met(store.rows, job, lease, fate).0, job, lease) {
        LeftAloneIff(store.rows, job, lease, fate);
      }
      ghost var (met, prepared) := Met(store.rows, job, lease, fate);
      FateOccupies(store.rows, job, lease, fate);
      FateBare(store.rows, job, lease, fate);
      store.Others(fate.before);
      var ok := false;
      if fate.admitted {
        ok := store.PrepareProvision(job, lease);
      }
      if !ok {
        F.FinalizeDevJob(store, fx, job, Failed);
        return;
      }
      store.Others(fate.during);
      match fate.answer {
        case Started(h) =>
          var kept := store.SetRunnerHandle(job, lease, h);
          if !kept {
            fx.Attempt(F.Terminated(job, h));
            orphan := Some(h);
          }
        case NotNow =>
          var released := store.ReleaseClaim(job, lease);
        case Broken =>
          F.FinalizeDevJob(store, fx, job, Failed);
      }
    }

    /** Claim the next job and provision it, if there is one. */
    method ClaimOne(fate: Fate, locked: set<JobId>) returns (claimed: bool)
      requires store.Valid() && NoClaims(fate.before) && NoClaims(fate.during)
      modifies store`rows, fx
      ensures store.Valid()
      ensures claimed ==> |Occupied(store.rows)| <= |Occupied(old(store.rows))| + 1
      ensures claimed ==> TakesSlot(maxConcurrent, old(store.rows), store.rows)
      ensures !claimed ==>
                && store.rows == old(store.rows)
                && forall j | j in store.rows && j !in locked :: store.rows[j].status != Queued
    {
      var job := store.ClaimNextQueued(issued, locked);
      if job.None? {
        return false;
      }
      OnlyClaimsOccupy(old(store.rows), On(job.value, Claim(issued)));
      var orphan := ProvisionOne(job.value, issued, fate);
      ClaimTakesSlot(maxConcurrent, old(store.rows), job.value, issued, fate);
      claimed := true;
    }

    /** Claim up to the free-slot count and provision each; the loop ends early when a claim fails or finds nothing. */
    method ClaimAndProvision(fates: nat -> Fate, locked: nat -> set<JobId>, claimFails: nat -> bool)
      returns (claims: nat)
      requires store.Valid() && forall n :: NoClaims(fates(n).before) && NoClaims(fates(n).during)
      modifies this`issued, store`rows, fx
      ensures store.Valid()
      ensures |Occupied(store.rows)| <= Max(old(|Occupied(store.rows)|), maxConcurrent)
      ensures claims <= old(Slots(maxConcurrent, store.rows)) && issued == old(issued) + claims
      ensures claims < old(Slots(maxConcurrent, store.rows)) ==>
                || claimFails(claims)
                || forall j | j in store.rows && j !in locked(claims) :: store.rows[j].status != Queued
      // a run of the steps of one worker process
      ensures Leads(maxConcurrent, State(old(store.rows), None), State(store.rows, None))
    {
      var slots: int := maxConcurrent - |ActiveJobs(store.rows)|;
      ghost var s := State(store.rows, None);
      OneStep(maxConcurrent, s, Begin);
      OccupiedAreActive(store.rows);
      claims := 0;
      while slots > 0
        invariant store.Valid()
        invariant |Occupied(store.rows)| + (if slots > 0 then slots else 0) <=
                  Max(old(|Occupied(store.rows)|), maxConcurrent)
        invariant claims + (if slots > 0 then slots else 0) == old(Slots(maxConcurrent, store.rows))
        invariant issued == old(issued) + claims
        invariant Leads(maxConcurrent, s, State(store.rows, Some(if slots > 0 then slots else 0)))
        decreases slots
      {
        ghost var t := State(store.rows, Some(slots));
        if claimFails(claims) {
          OneStep(maxConcurrent, t, Step.Finish);
          Onwards(maxConcurrent, s, t, State(store.rows, None));
          return;
        }
        var claimed := ClaimOne(fates(claims), locked(claims));
        if !claimed {
          OneStep(maxConcurrent, t, Step.Finish);
          Onwards(maxConcurrent, s, t, State(store.rows, None));
          return;
        }
        slots := slots - 1;
        claims := claims + 1;
        issued := issued + 1;
        Onwards(maxConcurrent, s, t, State(store.rows, Some(slots)));
      }
      OneStep(maxConcurrent, State(store.rows, Some(0)), Step.Finish);
      Onwards(maxConcurrent, s, State(store.rows, Some(0)), State(store.rows, None));
    }
  }
}
