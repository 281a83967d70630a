// The runner's routes over the job rows, and the runner's loop against them.
module RunnerRoutes {
  import opened Wrappers
  import opened Phases
  import opened JobStore
  import opened Gates
  import opened PhaseEngine
  import F = Finalizer
  import G = GatedPipeline

  /** What comes back: the answer, or why the call was refused. */
  datatype Reply<T> =
    | Accepted(value: T) | Unauthorized | JobTerminal | InvalidState | InvalidBody | StalePhase | Crashed

  /** Calls are only taken from a runner at work. */
  function StatusGate(s: Status): Option<Reply<()>> {
    if Terminal(s) then Some(JobTerminal)
    else if s !in {Provisioning, Running} then Some(InvalidState)
    else None
  }

  datatype RunOutcome = DiffReady | NoChanges | RunFailed

  /** A result body: `diff` says whether it names an artifact, and whether that artifact is the job's own. */
  datatype ResultBody = ResultBody(outcome: RunOutcome, diff: Option<bool>)

  predicate BadBody(b: ResultBody) { b.diff == Some(false) || (b.outcome == DiffReady && b.diff == None) }

  function EndOf(outcome: RunOutcome): Status { if outcome == RunFailed then Failed else Done }

  /** A result written down and, unless there is a diff to apply, the job ended. */
  function Posted(rows: Rows, id: JobId, body: ResultBody): Rows {
    var recorded := Exec(rows, id, RecordResult(body.outcome == DiffReady, body.diff.Some?));
    if body.outcome == DiffReady then recorded else Exec(recorded, id, Finish(EndOf(body.outcome)))
  }

  /** A live job goes on to be applied with its diff or ends, an ended one stays as it is, others are not touched. */
  lemma PostedMeans(rows: Rows, id: JobId, body: ResultBody)
    ensures var after := Posted(rows, id, body);
            && after.Keys == rows.Keys && (forall j | j in rows && j != id :: after[j] == rows[j])
            && (id in rows && Terminal(rows[id].status) ==> after == rows)
            && (id in rows && !Terminal(rows[id].status) ==>
                && after[id].diff == body.diff.Some?
                && after[id].status == if body.outcome == DiffReady then Applying else EndOf(body.outcome))
  {
  }

  lemma PostedRefines(rows: Rows, gates: GateRows, id: JobId, body: ResultBody)
    ensures G.Refines(rows, gates, Posted(rows, id, body), gates)
  {
    var s := RecordResult(body.outcome == DiffReady, body.diff.Some?);
    var recorded := Exec(rows, id, s);
    G.StatementRefines(rows, gates, id, s);
    G.StatementRefines(recorded, gates, id, Finish(EndOf(body.outcome)));
    if body.outcome != DiffReady {
      G.Composes(rows, gates, recorded, gates, Posted(rows, id, body), gates);
    }
  }

  /** Writes that leave phases and review notes alone. */
  predicate Background(stmts: seq<(JobId, Stmt)>) {
    forall k | 0 <= k < |stmts| ::
      !stmts[k].1.AdvancePhase? && !stmts[k].1.RequeueAt? && !stmts[k].1.SetReview?
  }

  lemma {:induction false} BackgroundKeeps(rows: Rows, stmts: seq<(JobId, Stmt)>, id: JobId)
    requires Background(stmts) && id in rows
    ensures var after := ExecAll(rows, stmts)[id];
            after.phase == rows[id].phase && after.attempt == rows[id].attempt
    decreases |stmts|
  {
    if stmts != [] {
      var n := |stmts| - 1;
      assert forall k | 0 <= k < n :: stmts[..n][k] == stmts[k];
      BackgroundKeeps(rows, stmts[..n], id);
      assert stmts[n] == stmts[n];
    }
  }

  lemma OthersBetween(rows: Rows, stmts: seq<(JobId, Stmt)>, id: JobId)
    requires id in rows
    ensures var (before, after) := (rows[id], ExecAll(rows, stmts)[id]);
            && AttemptsLeft(after) <= AttemptsLeft(before) + (if Background(stmts) then 0 else 2)
            && (Background(stmts) ==>
                  AttemptsLeft(after) == AttemptsLeft(before) && PhasesLeft(after) == PhasesLeft(before))
  {
    if Background(stmts) {
      BackgroundKeeps(rows, stmts, id);
    }
  }

  /** What happens around each phase: others write, then the runner is killed between phases, reports, or its post is
      lost; `gate` is a fresh id and `meanwhile` what happens to gates while one is opened. */
  datatype Round = Round(others: seq<(JobId, Stmt)>, event: RoundEvent, meanwhile: seq<GateEvent>)
  datatype RoundEvent = Killed | Reported(report: Report) | PostFailed

  function OutcomeOf(reply: Reply<Directive>): Outcome {
    match reply
    case Accepted(d) => Outcome.Directive(d)
    case StalePhase => Stale
    case _ => GateLost
  }

  lemma NoteNeverLowers(job: Row, r: Report)
    ensures NotedRow(job, r).attempt >= job.attempt
  {
    NoteCounts(job, r);
  }

  /** What a report does, whatever the reply and wherever the row is by now: only a report for the row's own phase is
      accepted, and then the shim goes on where the row is. */
  lemma ReportSettles(rows: Rows, id: JobId, s: Shim, r: Report, after: Rows, reply: Reply<Directive>)
    requires id in rows && r.phase == s.phase
    requires StatusGate(rows[id].status) != None ==> reply in {JobTerminal, InvalidState} && after == rows
    requires StatusGate(rows[id].status) == None && r.phase != rows[id].phase ==> reply == StalePhase && after == rows
    requires StatusGate(rows[id].status) == None && r.phase == rows[id].phase ==>
               Carried(MoveOf(rows[id], r), r.phase, AfterNote(rows, id, rows[id], r), id, after, OutcomeOf(reply))
    ensures id in after && AttemptsLeft(after[id]) <= AttemptsLeft(rows[id])
    ensures reply == Accepted(ParkNow) ==> after[id].status == Waiting
    ensures reply == Accepted(AllDone) ==> after[id].status == Done
    ensures reply.Accepted? && reply.value.Next? ==>
              && Closer(s, rows[id], after[id]) && Follow(s, reply.value.phase).phase == after[id].phase
              && (InSync(s, rows[id]) ==> InSync(Follow(s, reply.value.phase), after[id]))
  {
    if StatusGate(rows[id].status) == None && r.phase == rows[id].phase {
      NoteNeverLowers(rows[id], r);
      ReportMoves(rows, id, r, after, OutcomeOf(reply));
      if reply.Accepted? && reply.value.Next? {
        StepCloser(rows[id], s, r);
        if InSync(s, rows[id]) {
          StepInSync(rows[id], s, r);
        }
      }
    }
  }

  predicate Bounced(s: Shim, t: Shim) { s.phase == Review && t.phase == Implement }

  /** What one round does to the row: a bounce takes an attempt, and if others leave phase and note alone, a round that
      is not the last comes closer to the end. */
  ghost predicate Advanced(before: Row, after: Row, round: Round, goesOn: bool, bounced: bool) {
    && AttemptsLeft(after) <= AttemptsLeft(before) + (if Background(round.others) then 0 else 2)
    && (goesOn ==>
          && AttemptsLeft(after) + (if bounced then 1 else 0) <=
             AttemptsLeft(before) + (if Background(round.others) then 0 else 2)
          && (Background(round.others) ==>
                || AttemptsLeft(after) < AttemptsLeft(before)
                || (AttemptsLeft(after) == AttemptsLeft(before) && PhasesLeft(after) < PhasesLeft(before))))
  }

  /** The rounds among the first `n` in which others may move phases or review notes. */
  ghost function Intrusions(world: nat -> Round, n: nat): nat {
    if n == 0 then 0 else Intrusions(world, n - 1) + if Background(world(n - 1).others) then 0 else 1
  }

  lemma {:induction false} NoMoreIntrusions(world: nat -> Round, calm: nat, n: nat)
    requires forall k | k >= calm :: Background(world(k).others)
    ensures Intrusions(world, n) <= Intrusions(world, calm)
    decreases if n < calm then calm - n else n - calm
  {
    if n < calm {
      NoMoreIntrusions(world, calm, n + 1);
    } else if n > calm {
      NoMoreIntrusions(world, calm, n - 1);
    }
  }

  class RunnerRoutes {
    const engine: PhaseEngine

    constructor (engine: PhaseEngine)
      ensures this.engine == engine
    {
      this.engine := engine;
    }

    /** Hand the job to its runner, which makes it running. */
    method GetSpec(id: JobId) returns (r: Reply<Row>)
      modifies engine.store`rows
      ensures r.Accepted? <==>
              id in old(engine.store.rows) && old(engine.store.rows[id]).status in {Provisioning, Running}
      ensures r.Accepted? ==>
                && engine.store.rows == old(engine.store.rows)[id := old(engine.store.rows[id]).(status := Running)]
                && r.value == old(engine.store.rows[id])
      ensures !r.Accepted? ==> engine.store.rows == old(engine.store.rows)
      ensures r == JobTerminal <==> id in old(engine.store.rows) && Terminal(old(engine.store.rows[id]).status)
      ensures G.Refines(old(engine.store.rows), engine.gates.gates, engine.store.rows, engine.gates.gates)
    {
      var store := engine.store;
      G.Stays(store.rows, engine.gates.gates);
      if id !in store.rows {
        return Unauthorized;
      }
      var job := store.rows[id];
      match StatusGate(job.status) {
        case Some(JobTerminal) => return JobTerminal;
        case Some(_) => return InvalidState;
        case None =>
      }
      if job.status == Provisioning {
        var ok := store.MarkJobRunning(id);
        G.StatementRefines(old(store.rows), engine.gates.gates, id, MarkRunning);
      }
      assert store.rows == old(store.rows)[id := job.(status := Running)];
      r := Accepted(job);
    }

    /** Take a runner's result: a diff goes on to be applied, anything else ends the job. `job` is the row as it was
        read, possibly long ago; every write is guarded again. */
    method PostResult(id: JobId, job: Row, body: ResultBody) returns (r: Reply<()>)
      modifies engine.store`rows, engine.fx
      ensures r.Accepted? <==> StatusGate(job.status) == None && !BadBody(body)
      ensures !r.Accepted? ==> engine.store.rows == old(engine.store.rows)
      ensures engine.store.rows.Keys == old(engine.store.rows).Keys
      ensures forall j | j in engine.store.rows && j != id :: engine.store.rows[j] == old(engine.store.rows)[j]
      // a job that has ended meanwhile stays as it ended
      ensures id in old(engine.store.rows) && Terminal(old(engine.store.rows[id]).status) ==>
                engine.store.rows == old(engine.store.rows)
      // and a live one moves on: to the apply with its diff, or to its end
      ensures r.Accepted? && id in old(engine.store.rows) && !Terminal(old(engine.store.rows[id]).status) ==>
                && engine.store.rows[id].diff == body.diff.Some?
                && engine.store.rows[id].status ==
                   if body.outcome == DiffReady then Applying else EndOf(body.outcome)
      ensures G.Refines(old(engine.store.rows), engine.gates.gates, engine.store.rows, engine.gates.gates)
    {
      var store := engine.store;
      ghost var gates := engine.gates.gates;
      G.Stays(store.rows, gates);
      match StatusGate(job.status) {
        case Some(JobTerminal) => return JobTerminal;
        case Some(_) => return InvalidState;
        case None =>
      }
      if BadBody(body) {
        return InvalidBody;
      }
      PostedMeans(store.rows, id, body);
      PostedRefines(store.rows, gates, id, body);
      var recorded := store.RecordJobResult(id, body.outcome == DiffReady, body.diff.Some?);
      if body.outcome != DiffReady {
        F.FinalizeDevJob(store, engine.fx, id, EndOf(body.outcome));
      }
      assert store.rows == Posted(old(store.rows), id, body);
      r := Accepted(());
    }

    /** Take a phase result from a runner at work. */
    method PostPhaseResult(id: JobId, job: Row, r: Report, gate: GateId, meanwhile: seq<GateEvent>)
      returns (reply: Reply<Directive>)
      requires engine.gates.Valid() && gate !in engine.gates.gates
      modifies engine, engine.store`rows, engine.gates, engine.fx
      ensures engine.gates.Valid() && engine.store.rows.Keys == old(engine.store.rows).Keys
      ensures StatusGate(job.status) != None ==>
                reply in {JobTerminal, InvalidState} && engine.store.rows == old(engine.store.rows)
                && engine.gates.gates == old(engine.gates.gates)
      ensures StatusGate(job.status) == None && r.phase != job.phase ==>
                reply == StalePhase && engine.store.rows == old(engine.store.rows)
      ensures StatusGate(job.status) == None && r.phase == job.phase ==>
                Carried(MoveOf(job, r), r.phase, AfterNote(old(engine.store.rows), id, job, r), id, engine.store.rows,
                        OutcomeOf(reply))
      ensures id in old(engine.store.rows) && SameJob(old(engine.store.rows)[id], job) ==>
                G.Refines(old(engine.store.rows), old(engine.gates.gates), engine.store.rows, engine.gates.gates)
    {
      G.Stays(engine.store.rows, engine.gates.gates);
      match StatusGate(job.status) {
        case Some(JobTerminal) => return JobTerminal;
        case Some(_) => return InvalidState;
        case None =>
      }
      var out := engine.HandlePhaseResult(id, job, r, gate, meanwhile);
      match out {
        case Directive(d) => reply := Accepted(d);
        case Stale => reply := StalePhase;
        case GateLost => reply := Crashed;
      }
    }

    /** One phase of the shim: others write, then it reports its phase and does as it is told. */
    method PlayRound(id: JobId, shim: Shim, round: Round) returns (exit: Option<nat>, next: Shim)
      requires engine.gates.Valid() && id in engine.store.rows
      modifies engine, engine.store`rows, engine.gates, engine.fx
      ensures engine.gates.Valid() && id in engine.store.rows
      ensures exit == Some(0) ==> engine.store.rows[id].status in {Waiting, Done}
      ensures Advanced(old(engine.store.rows)[id], engine.store.rows[id], round, exit.None?, Bounced(shim, next))
    {
      var store := engine.store;
      OthersBetween(store.rows, round.others, id);
      store.Others(round.others);
      var job := store.rows[id];
      FreshId(engine.gates.gates.Keys);
      var gate: GateId :| gate !in engine.gates.gates;
      if round.event.PostFailed? {
        return Some(1), shim;
      }
      var sent := if round.event.Killed? then Report(shim.phase, false, None, [], None)
                  else round.event.report.(phase := shim.phase);
      ghost var rows := store.rows;
      var reply := PostPhaseResult(id, job, sent, gate, round.meanwhile);
      ReportSettles(rows, id, shim, sent, store.rows, reply);
      if round.event.Killed? {
        return Some(1), shim;
      }
      match reply {
        case Accepted(ParkNow) => return Some(0), shim;
        case Accepted(AllDone) => return Some(0), shim;
        case Accepted(Next(to)) => return None, Follow(shim, to);
        case _ => return Some(1), shim;
      }
    }

    /** The shim's loop, started at any phase. Whatever the phases report and others do to the job meanwhile: it ends
        once others leave its phase and note alone (`calm`), every round in which they did not is worth two more
        bounces at most, and it only exits cleanly when the job is parked or done. */
    method RunPhasedShim(id: JobId, start: Shim, world: nat -> Round, ghost calm: nat) returns (exit: nat, bounces: nat)
      requires engine.gates.Valid() && id in engine.store.rows
      requires forall n | n >= calm :: Background(world(n).others)
      modifies engine, engine.store`rows, engine.gates, engine.fx
      ensures id in engine.store.rows
      ensures bounces + AttemptsLeft(engine.store.rows[id]) <=
              AttemptsLeft(old(engine.store.rows)[id]) + 2 * Intrusions(world, calm)
      ensures exit == 0 ==> engine.store.rows[id].status in {Waiting, Done}
    {
      var store := engine.store;
      var shim := start;
      var round := 0;
      bounces := 0;
      while true
        invariant engine.gates.Valid() && id in store.rows
        invariant bounces + AttemptsLeft(store.rows[id]) <=
                  AttemptsLeft(old(store.rows)[id]) + 2 * Intrusions(world, round)
        decreases if round < calm then calm - round else 0, AttemptsLeft(store.rows[id]), PhasesLeft(store.rows[id])
      {
        NoMoreIntrusions(world, calm, round + 1);
        var exited, next := PlayRound(id, shim, world(round));
        if exited.Some? {
          return exited.value, bounces;
        }
        if Bounced(shim, next) {
          bounces := bounces + 1;
        }
        shim, round := next, round + 1;
      }
    }
  }
}
