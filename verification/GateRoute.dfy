// Resolving a human gate: the route, its side effects, and the deadline worker.
module GateRoute {
  import opened Wrappers
  import opened Phases
  import opened JobStore
  import opened Gates
  import opened ApplyWorker
  import opened DevJobWorker
  import DiffApply
  import F = Finalizer
  import G = GatedPipeline

  datatype Reply =
    | Resolved(status: GateStatus)      // this call closed the gate
    | Recovered(status: GateStatus)     // it was closed before and its job still waited: driven again
    | NotFound
    | NotHolder
    | Conflict

  /** The gate is answered and its job still waits: a crash came between. */
  predicate Stuck(rows: Rows, gates: GateRows, g: GateId) {
    && g in gates && gates[g].status in {GateStatus.Resolved, Rejected}
    && gates[g].job in rows && rows[gates[g].job].status == Waiting
  }

  /** How often a gate's section is in the brief. */
  function Sections(brief: seq<GateId>, g: GateId): nat { multiset(brief)[g] }

  // ---- what the side effects of a review gate do ----

  /** Driving a gate again changes nothing, whatever became of the job in the first run. */
  lemma DrivenTwice(rows: Rows, job: JobId, g: GateId, approved: bool)
    ensures var once := G.Driven(rows, job, g, approved); G.Driven(once, job, g, approved) == once
  {
    var once := G.Driven(rows, job, g, approved);
    if job in rows {
      assert g in once[job].brief || Terminal(once[job].status);
    }
  }

  /** An approved gate sends its parked job on: queued at implement for its next provision, with nothing left of the
      first one, and exactly one section of this gate in its brief. */
  lemma ApprovalSendsOn(rows: Rows, job: JobId, g: GateId)
    requires job in rows && rows[job].phase == AwaitHuman && !Terminal(rows[job].status)
    requires Sections(rows[job].brief, g) <= 1
    ensures var (before, after) := (rows[job], G.Driven(rows, job, g, true)[job]);
            && after.status == Queued && after.phase == Implement && after.provision == before.provision + 1
            && after.lease == None && after.handle == None
            && Sections(after.brief, g) == 1
            && forall h | h != g :: Sections(after.brief, h) == Sections(before.brief, h)
  {
  }

  /** A rejected gate ends its job, once, with one section. */
  lemma RejectionEnds(rows: Rows, job: JobId, g: GateId)
    requires job in rows && !Terminal(rows[job].status) && Sections(rows[job].brief, g) <= 1
    ensures var after := G.Driven(rows, job, g, false)[job];
            after.status == Cancelled && Sections(after.brief, g) == 1
  {
  }

  /** Driving an old gate again while the job waits at a later one is harmless: once the job has left the human phase
      with the section in its brief, an approval has nothing left to do. */
  lemma LateRedriveHarmless(rows: Rows, job: JobId, g: GateId)
    requires job in rows ==> g in rows[job].brief && rows[job].phase != AwaitHuman
    ensures G.Driven(rows, job, g, true) == rows
  {
  }

  /** A crash between a gate's expiry and the cancellation of its job: neither a caller nor the deadline closes the gate
      again, and the route takes the job for settled. */
  lemma ExpiredGateStrands(rows: Rows, gates: GateRows, g: GateId, approved: bool, who: string,
                           answers: Option<seq<string>>)
    requires g in gates && gates[g].status == Expired && gates[g].job in rows && rows[gates[g].job].status == Waiting
    ensures !Stuck(rows, gates, g) && !Closes(gates, Answered(g, approved, answers, who), g)
    ensures Lapse(rows, gates, g) == (rows, gates)
  {
  }

  lemma DrivenOnly(rows: Rows, job: JobId, g: GateId, approved: bool)
    ensures var after := G.Driven(rows, job, g, approved);
            after.Keys == rows.Keys && forall j | j in rows && j != job :: after[j] == rows[j]
  {
  }

  // ---- the deadline ----

  /** One gate that is due. */
  function Lapse(rows: Rows, gates: GateRows, g: GateId): (Rows, GateRows) {
    (if g in gates && gates[g].status == Pending then Exec(rows, gates[g].job, Finish(Cancelled)) else rows,
     AfterGate(gates, Lapsed(g)))
  }

  predicate PendingAt(gates: GateRows, g: GateId, job: JobId) {
    g in gates && gates[g].status == Pending && gates[g].job == job
  }

  /** A due gate that was waiting is expired and its job has ended. */
  predicate Overdue(before: GateRows, after: GateRows, rows: Rows, g: GateId) {
    g in before && before[g].status == Pending ==>
      && g in after && after[g] == before[g].(status := Expired)
      && (before[g].job in rows ==> Terminal(rows[before[g].job].status))
  }

  /** After a tick every waiting gate that was due is expired and its job has ended; no other gate has changed, and a
      job only if such a gate was its own: it was live and is cancelled. */
  ghost predicate Ticked(rows0: Rows, gates0: GateRows, due: seq<GateId>, rows: Rows, gates: GateRows) {
    && rows.Keys == rows0.Keys && gates.Keys == gates0.Keys
    && (forall k | 0 <= k < |due| :: Overdue(gates0, gates, rows, due[k]))
    && (forall g | g in gates0 :: gates[g] == gates0[g] || (g in due && gates0[g].status == Pending))
    && (forall j | j in rows :: rows[j] == rows0[j] || Cancels(rows0, gates0, due, rows, j))
  }

  ghost predicate Cancels(rows0: Rows, gates0: GateRows, due: seq<GateId>, rows: Rows, j: JobId) {
    && j in rows && j in rows0 && !Terminal(rows0[j].status) && rows[j] == rows0[j].(status := Cancelled)
    && exists k | 0 <= k < |due| :: PendingAt(gates0, due[k], j)
  }

  lemma CancelsMore(rows0: Rows, gates0: GateRows, due: seq<GateId>, rows: Rows, j: JobId, g: GateId)
    requires Cancels(rows0, gates0, due, rows, j)
    ensures Cancels(rows0, gates0, due + [g], rows, j)
  {
    var k :| 0 <= k < |due| && PendingAt(gates0, due[k], j);
    assert (due + [g])[k] == due[k];
  }

  lemma TickedMore(rows0: Rows, gates0: GateRows, due: seq<GateId>, rows: Rows, gates: GateRows, g: GateId)
    requires Ticked(rows0, gates0, due, rows, gates)
    ensures var (rows', gates') := Lapse(rows, gates, g); Ticked(rows0, gates0, due + [g], rows', gates')
  {
    var (rows', gates') := Lapse(rows, gates, g);
    var more := due + [g];
    assert more[|due|] == g;
    forall k | 0 <= k < |more| ensures Overdue(gates0, gates', rows', more[k]) {
      if k < |due| {
        assert more[k] == due[k];
        assert Overdue(gates0, gates, rows, due[k]);
      }
    }
    forall j | j in rows' ensures rows'[j] == rows0[j] || Cancels(rows0, gates0, more, rows', j) {
      if rows[j] != rows0[j] {
        CancelsMore(rows0, gates0, due, rows, j, g);
      } else if rows'[j] != rows[j] {
        assert PendingAt(gates0, more[|due|], j);
      }
    }
  }

  class GateRoute {
    const worker: DevJobWorker

    constructor (worker: DevJobWorker)
      ensures this.worker == worker
    {
      this.worker := worker;
    }

    /** The job's way on after its gate was answered, from the stored gate alone. */
    method DriveSideEffect(g: GateId)
      requires worker.Valid() && g in worker.gates.gates
      requires worker.gates.gates[g].status in {GateStatus.Resolved, Rejected}
      modifies worker, worker.store`rows, worker.gates, worker.fx, worker.repo
      ensures worker.Valid() && worker.gates.gates == old(worker.gates.gates) && worker.applying == old(worker.applying)
      ensures worker.store.rows.Keys == old(worker.store.rows).Keys
      ensures var job := worker.gates.gates[g].job;
              forall j | j in worker.store.rows && j != job :: worker.store.rows[j] == old(worker.store.rows)[j]
      ensures worker.gates.gates[g].kind == ReviewGate || worker.gates.gates[g].status == Rejected ==>
                && worker.store.rows == G.Driven(old(worker.store.rows), worker.gates.gates[g].job, g,
                                                 worker.gates.gates[g].status == GateStatus.Resolved)
                && worker.repo.prs == old(worker.repo.prs)
      // an approved upload ends with its pull request or failed; driven again, nothing happens
      ensures worker.gates.gates[g].kind == DiffPolicyGate && worker.gates.gates[g].status == GateStatus.Resolved ==>
                var job := worker.gates.gates[g].job;
                && (if job in old(worker.applying) || !Hits(old(worker.store.rows), job, ResumeApply)
                    then worker.store.rows == old(worker.store.rows) && worker.repo.prs == old(worker.repo.prs)
                    else worker.store.rows[job].status in {Done, Failed})
                && (worker.repo.prs == old(worker.repo.prs) || DiffApply.PrOpened(worker.repo, worker.targets(job)))
      ensures G.Refines(old(worker.store.rows), worker.gates.gates, worker.store.rows, worker.gates.gates)
    {
      var store, gate := worker.store, worker.gates.gates[g];
      if gate.status == GateStatus.Resolved && gate.kind == DiffPolicyGate {
        var out := worker.ResumeGatedApply(gate.job);
        return;
      }
      DrivenOnly(store.rows, gate.job, g, gate.status == GateStatus.Resolved);
      G.DriveRefines(store.rows, worker.gates.gates, g);
      var wrote := store.AppendSection(gate.job, g);
      if gate.status == GateStatus.Resolved {
        var queued := store.RequeueAtPhase(gate.job, Implement);
      } else {
        F.FinalizeDevJob(store, worker.fx, gate.job, Cancelled);
      }
    }

    /** Resolve a gate for a caller. `holder` says whether the caller may. */
    method ResolveGate(g: GateId, approved: bool, who: string, holder: bool, answers: Option<seq<string>>)
      returns (r: Reply)
      requires worker.Valid()
      modifies worker, worker.store`rows, worker.gates, worker.fx, worker.repo
      ensures worker.Valid() && worker.store.rows.Keys == old(worker.store.rows).Keys
      ensures r == NotFound <==> g !in old(worker.gates.gates)
      ensures r == NotHolder <==> g in old(worker.gates.gates) && !holder
      // it counts as resolved exactly when this call closed the gate
      ensures r.Resolved? <==> holder && Closes(old(worker.gates.gates), Answered(g, approved, answers, who), g)
      ensures r.Resolved? ==>
                && r.status == (if approved then GateStatus.Resolved else Rejected)
                && worker.gates.gates == AfterGate(old(worker.gates.gates), Answered(g, approved, answers, who))
      // a gate that was closed is only driven again, and only if its job is stuck at it
      ensures r.Recovered? <==> holder && Stuck(old(worker.store.rows), old(worker.gates.gates), g)
      ensures r.Recovered? ==> r.status == old(worker.gates.gates)[g].status
      ensures !r.Resolved? ==> worker.gates.gates == old(worker.gates.gates)
      // whatever is refused changes nothing
      ensures r in {NotFound, NotHolder, Conflict} ==>
                worker.store.rows == old(worker.store.rows) && worker.repo.prs == old(worker.repo.prs)
      ensures (r.Resolved? || r.Recovered?) && old(worker.gates.gates)[g].kind == ReviewGate ==>
                worker.store.rows == G.Driven(old(worker.store.rows), old(worker.gates.gates)[g].job, g,
                                              r.status == GateStatus.Resolved)
      ensures G.Refines(old(worker.store.rows), old(worker.gates.gates), worker.store.rows, worker.gates.gates)
    {
      var gates, store := worker.gates, worker.store;
      G.Stays(store.rows, gates.gates);
      if g !in gates.gates {
        return NotFound;
      }
      if !holder {
        return NotHolder;
      }
      ghost var event := Answered(g, approved, answers, who);
      SingleEvent(gates.gates, event);
      G.GatesRefine(store.rows, gates.gates, [event]);
      var winner := gates.Resolve(g, approved, who, answers);
      if winner.Some? {
        ghost var (rows, closed) := (store.rows, gates.gates);
        DriveSideEffect(g);
        G.Composes(rows, old(gates.gates), rows, closed, store.rows, closed);
        return Reply.Resolved(winner.value.status);
      }
      var current := gates.gates[g];
      if current.status !in {GateStatus.Resolved, Rejected} {
        return Conflict;
      }
      if current.job !in store.rows || store.rows[current.job].status != Waiting {
        return Conflict;
      }
      DriveSideEffect(g);
      r := Recovered(current.status);
    }

    /** Close one gate that is due and, if this call closed it, cancel its job. */
    method ExpireGate(g: GateId) returns (won: bool)
      requires worker.Valid()
      modifies worker.store`rows, worker.gates, worker.fx
      ensures worker.Valid() && won == Closes(old(worker.gates.gates), Lapsed(g), g)
      ensures (worker.store.rows, worker.gates.gates) == Lapse(old(worker.store.rows), old(worker.gates.gates), g)
      ensures G.Refines(old(worker.store.rows), old(worker.gates.gates), worker.store.rows, worker.gates.gates)
    {
      var gates, store := worker.gates, worker.store;
      SingleEvent(gates.gates, Lapsed(g));
      G.GatesRefine(store.rows, gates.gates, [Lapsed(g)]);
      var closed := gates.Expire(g);
      won := closed.Some?;
      if won {
        F.FinalizeDevJob(store, worker.fx, closed.value.job, Cancelled);
        G.StatementRefines(old(store.rows), gates.gates, closed.value.job, Finish(Cancelled));
        G.Composes(old(store.rows), old(gates.gates), old(store.rows), gates.gates, store.rows, gates.gates);
      }
    }

    /** One more gate of a tick. */
    method ExpireNext(ghost rows0: Rows, ghost gates0: GateRows, ghost done: seq<GateId>, g: GateId) returns (won: bool)
      requires worker.Valid() && Ticked(rows0, gates0, done, worker.store.rows, worker.gates.gates)
      requires G.Refines(rows0, gates0, worker.store.rows, worker.gates.gates)
      modifies worker.store`rows, worker.gates, worker.fx
      ensures worker.Valid() && Ticked(rows0, gates0, done + [g], worker.store.rows, worker.gates.gates)
      ensures G.Refines(rows0, gates0, worker.store.rows, worker.gates.gates)
    {
      ghost var (rows, gates) := (worker.store.rows, worker.gates.gates);
      TickedMore(rows0, gates0, done, rows, gates, g);
      won := ExpireGate(g);
      G.Composes(rows0, gates0, rows, gates, worker.store.rows, worker.gates.gates);
    }

    /** Expire the gates that are due: whoever closes one cancels its job. `due` is the list as it was read. */
    method DeadlineTick(due: seq<GateId>) returns (expired: nat)
      requires worker.Valid()
      modifies worker.store`rows, worker.gates, worker.fx
      ensures worker.Valid() && expired <= |due|
      ensures Ticked(old(worker.store.rows), old(worker.gates.gates), due, worker.store.rows, worker.gates.gates)
      ensures G.Refines(old(worker.store.rows), old(worker.gates.gates), worker.store.rows, worker.gates.gates)
    {
      var gates, store := worker.gates, worker.store;
      expired := 0;
      G.Stays(store.rows, gates.gates);
      for k := 0 to |due|
        invariant worker.Valid() && expired <= k
        invariant Ticked(old(store.rows), old(gates.gates), due[..k], store.rows, gates.gates)
        invariant G.Refines(old(store.rows), old(gates.gates), store.rows, gates.gates)
      {
        assert due[..k + 1] == due[..k] + [due[k]];
        var won := ExpireNext(old(store.rows), old(gates.gates), due[..k], due[k]);
        if won {
          expired := expired + 1;
        }
      }
      assert due[..|due|] == due;
    }
  }
}
