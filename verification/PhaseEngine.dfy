// The stateful phase engine over the job rows, and the runner's loop that follows its directives.
module PhaseEngine {
  import opened Wrappers
  import opened Phases
  import opened JobStore
  import opened Gates
  import F = Finalizer
  import G = GatedPipeline

  datatype Artifact = Artifact(kind: string, content: string, planSha: Option<string>)

  /** What a runner reports for the phase it ran. `verdict` is nothing when it is malformed. */
  datatype Report = Report(phase: Phase, ok: bool, artifact: Option<Artifact>, questions: seq<string>,
                           verdict: Option<Verdict>)

  datatype Directive = Next(phase: Phase) | ParkNow | AllDone | Failing

  /** The engine's answer; it throws when the report is stale, or when the gate it ran into is gone when read back. */
  datatype Outcome = Directive(d: Directive) | Stale | GateLost

  // ---- what the engine makes of a report ----

  /** What is noted about a review before the phase moves, the verdict for the table, and whether the loop gives up. */
  function Noted(job: Row, r: Report): (Option<Stmt>, Option<bool>, bool) {
    if r.phase != Review || !r.ok || r.verdict.None? then (None, None, false)
    else
      match DecideReview(r.verdict.value, job.attempt, job.complaints)
      case Retry(next, c) => (Some(SetReview(next, Some(c))), Some(false), false)
      case GiveUp(c) => (Some(SetReview(job.attempt, Some(c))), Some(false), true)
      case Approve => (None, Some(true), false)
  }

  datatype Move = Discard | EndAs(status: Status) | GoTo(to: Phase) | GoParked

  /** Decided from the row as it was read and the report alone. */
  function MoveOf(job: Row, r: Report): Move {
    if r.phase != job.phase then Discard
    else if r.phase == Review && r.ok && r.verdict.None? then EndAs(Failed)
    else
      var (_, verdict, exhausted) := Noted(job, r);
      MoveFor(ComputeTransition(PhaseResult(r.phase, r.ok, verdict, exhausted), job.mode, job.kind))
  }

  function MoveFor(t: Transition): Move {
    match t
    case Fail => EndAs(Failed)
    case Finished => EndAs(Done)
    case RetryImplement => GoTo(Implement)
    case Advance(to) => GoTo(to)
    case Park => GoParked
    case Requeue(_) => EndAs(Failed)
  }

  function AfterNote(rows: Rows, id: JobId, job: Row, r: Report): Rows {
    if r.phase == job.phase && Noted(job, r).0.Some? then Exec(rows, id, Noted(job, r).0.value) else rows
  }

  /** Index of the last artifact of a kind. */
  function Latest(artifacts: seq<Artifact>, kind: string): (i: Option<nat>)
    ensures i.Some? ==> i.value < |artifacts| && artifacts[i.value].kind == kind
    ensures forall k | (if i.Some? then i.value + 1 else 0) <= k < |artifacts| :: artifacts[k].kind != kind
    decreases |artifacts|
  {
    if artifacts == [] then None
    else if artifacts[|artifacts| - 1].kind == kind then Some(|artifacts| - 1)
    else Latest(artifacts[..|artifacts| - 1], kind)
  }

  /** The gate clarify opens pins the plan that is stored, not anything the runner sends along. */
  function PlanGate(id: JobId, artifacts: seq<Artifact>, questions: seq<string>): Opening {
    var plan := Latest(artifacts, "plan");
    Opening(id, ReviewGate, plan, if plan.Some? then artifacts[plan.value].planSha else None, questions)
  }

  /** Another row of the same job. */
  predicate SameJob(a: Row, b: Row) { a.mode == b.mode && a.kind == b.kind }

  /** Only the review note of a row has changed. */
  predicate OnlyNoteChanged(before: Row, after: Row) {
    after == before.(attempt := after.attempt, complaints := after.complaints)
  }

  /** The gate a parked job waits at, freshly opened or the one that was open already. */
  predicate WaitsAt(gates: GateRows, job: JobId, g: GateId) {
    g in gates && gates[g].job == job && gates[g].status == Pending
  }

  /** What an accepted report has done to the rows, and what the runner is told. */
  predicate Carried(m: Move, from: Phase, rows: Rows, id: JobId, after: Rows, out: Outcome) {
    match m
    case Discard => false
    case EndAs(status) =>
      && out == Directive(if status == Done then AllDone else Failing)
      && after == Exec(rows, id, Finish(status))
    case GoTo(to) =>
      && after == Exec(rows, id, AdvancePhase(from, to))
      && out == if Hits(rows, id, AdvancePhase(from, to)) then Directive(Next(to)) else Stale
    case GoParked =>
      && var advanced := Exec(rows, id, AdvancePhase(Clarify, AwaitHuman));
         if !Hits(rows, id, AdvancePhase(Clarify, AwaitHuman)) then out == Stale && after == rows
         else if out == GateLost then after == advanced
         else out == Directive(ParkNow) && after == Exec(advanced, id, ParkForGate) && after[id].status == Waiting
  }

  /** Nothing but the job's own row changes, and a stale answer has changed its review note at most. */
  lemma CarriedKeeps(rows: Rows, id: JobId, job: Row, r: Report, after: Rows, out: Outcome)
    requires r.phase == job.phase
    requires Carried(MoveOf(job, r), r.phase, AfterNote(rows, id, job, r), id, after, out)
    ensures after.Keys == rows.Keys && forall j | j in rows && j != id :: after[j] == rows[j]
    ensures out == Stale && id in rows ==> OnlyNoteChanged(rows[id], after[id])
  {
    NoteKeeps(rows, id, job, r);
    MoveKeeps(MoveOf(job, r), r.phase, AfterNote(rows, id, job, r), id, after, out);
  }

  lemma NoteIsReview(job: Row, r: Report)
    ensures Noted(job, r).0.Some? ==> Noted(job, r).0.value.SetReview?
  {
  }

  lemma NoteKeeps(rows: Rows, id: JobId, job: Row, r: Report)
    ensures var noted := AfterNote(rows, id, job, r);
            && noted.Keys == rows.Keys && (forall j | j in rows && j != id :: noted[j] == rows[j])
            && (id in rows ==> OnlyNoteChanged(rows[id], noted[id]))
  {
    NoteIsReview(job, r);
    if Noted(job, r).0.Some? {
      ReviewKeeps(rows, id, Noted(job, r).0.value);
    }
  }

  lemma ReviewKeeps(rows: Rows, id: JobId, note: Stmt)
    requires note.SetReview?
    ensures var noted := Exec(rows, id, note);
            && noted.Keys == rows.Keys && (forall j | j in rows && j != id :: noted[j] == rows[j])
            && (id in rows ==> OnlyNoteChanged(rows[id], noted[id]))
  {
  }

  lemma MoveKeeps(m: Move, from: Phase, rows: Rows, id: JobId, after: Rows, out: Outcome)
    requires Carried(m, from, rows, id, after, out)
    ensures after.Keys == rows.Keys && forall j | j in rows && j != id :: after[j] == rows[j]
    ensures out == Stale ==> after == rows
  {
  }

  /** A move the engine makes is one of the moves of the pipeline. */
  lemma MovesAllowed(job: Row, r: Report)
    ensures MoveOf(job, r).GoTo? ==> G.EngineMove(r.phase, MoveOf(job, r).to, job.mode, job.kind)
    ensures MoveOf(job, r).GoParked? ==> G.EngineMove(Clarify, AwaitHuman, job.mode, job.kind)
  {
    var (_, verdict, exhausted) := Noted(job, r);
    var t := ComputeTransition(PhaseResult(r.phase, r.ok, verdict, exhausted), job.mode, job.kind);
    assert MoveOf(job, r).GoParked? ==> r.phase == Clarify;
  }

  /** The statements of an accepted report, with the gate's events in between, are a run of the gated pipeline. */
  lemma EngineRefines(rows: Rows, gates: GateRows, id: JobId, job: Row, r: Report, after: Rows, out: Outcome,
                      events: seq<GateEvent>)
    requires r.phase == job.phase
    requires Carried(MoveOf(job, r), r.phase, AfterNote(rows, id, job, r), id, after, out)
    ensures id in rows && SameJob(rows[id], job) ==> G.Refines(rows, gates, after, Played(gates, events))
  {
    if id in rows && SameJob(rows[id], job) {
      var noted := AfterNote(rows, id, job, r);
      NoteIsReview(job, r);
      NoteKeeps(rows, id, job, r);
      if Noted(job, r).0.Some? {
        G.StatementRefines(rows, gates, id, Noted(job, r).0.value);
      } else {
        G.Stays(rows, gates);
      }
      MoveRefines(gates, id, job, r, noted, after, out, events);
      G.Composes(rows, gates, noted, gates, after, Played(gates, events));
    }
  }

  lemma MoveRefines(gates: GateRows, id: JobId, job: Row, r: Report, noted: Rows, after: Rows, out: Outcome,
                    events: seq<GateEvent>)
    requires id in noted && SameJob(noted[id], job)
    requires Carried(MoveOf(job, r), r.phase, noted, id, after, out)
    ensures G.Refines(noted, gates, after, Played(gates, events))
  {
    var gates' := Played(gates, events);
    MovesAllowed(job, r);
    match MoveOf(job, r) {
      case EndAs(status) =>
        G.StatementRefines(noted, gates, id, Finish(status));
        G.GatesRefine(after, gates, events);
        G.Composes(noted, gates, after, gates, after, gates');
      case GoTo(to) =>
        G.MoveRefines(noted, gates, id, r.phase, to);
        G.GatesRefine(after, gates, events);
        G.Composes(noted, gates, after, gates, after, gates');
      case GoParked =>
        var advanced := Exec(noted, id, AdvancePhase(Clarify, AwaitHuman));
        G.MoveRefines(noted, gates, id, Clarify, AwaitHuman);
        G.GatesRefine(advanced, gates, events);
        G.Composes(noted, gates, advanced, gates, advanced, gates');
        if after != advanced {
          G.StatementRefines(advanced, gates', id, ParkForGate);
          G.Composes(noted, gates, advanced, gates', after, gates');
        }
    }
  }

  class PhaseEngine {
    const store: DevJobStore
    const gates: DevJobGateStore
    const fx: F.SideEffects
    /** Of each job, in order of arrival. */
    var artifacts: map<JobId, seq<Artifact>>

    constructor (store: DevJobStore, gates: DevJobGateStore, fx: F.SideEffects)
      ensures this.store == store && this.gates == gates && this.fx == fx && artifacts == map[]
    {
      this.store, this.gates, this.fx, artifacts := store, gates, fx, map[];
    }

    function Stored(id: JobId): seq<Artifact>
      reads this
    {
      if id in artifacts then artifacts[id] else []
    }

    method AddArtifact(id: JobId, a: Option<Artifact>)
      modifies this
      ensures Stored(id) == old(Stored(id)) + if a.Some? then [a.value] else []
      ensures forall j | j != id :: Stored(j) == old(Stored(j))
    {
      if a.Some? {
        artifacts := artifacts[id := Stored(id) + [a.value]];
      }
    }

    /** Decide a review and note its attempt and complaints; the note is not fenced on the phase. */
    method NoteReview(id: JobId, job: Row, r: Report) returns (verdict: Option<bool>, exhausted: bool)
      modifies store`rows
      ensures r.phase == job.phase ==> store.rows == AfterNote(old(store.rows), id, job, r)
      ensures (verdict, exhausted) == (Noted(job, r).1, Noted(job, r).2)
    {
      verdict, exhausted := None, false;
      if r.phase == Review && r.ok && r.verdict.Some? {
        match DecideReview(r.verdict.value, job.attempt, job.complaints) {
          case Retry(next, c) =>
            store.SetReviewState(id, next, Some(c));
            verdict := Some(false);
          case GiveUp(c) =>
            store.SetReviewState(id, job.attempt, Some(c));
            verdict, exhausted := Some(false), true;
          case Approve => verdict := Some(true);
        }
      }
    }

    /** Clarify leads to the human: move the phase, open the gate, park the job, revoke the runner's tokens. */
    method ParkAtGate(id: JobId, questions: seq<string>, gate: GateId, meanwhile: seq<GateEvent>)
      returns (out: Outcome)
      requires gates.Valid() && gate !in gates.gates
      modifies store`rows, gates, fx
      ensures gates.Valid()
      ensures out in {Directive(ParkNow), Stale, GateLost}
      ensures out == Stale <==> !Hits(old(store.rows), id, AdvancePhase(Clarify, AwaitHuman))
      ensures out == Stale ==> store.rows == old(store.rows) && gates.gates == old(gates.gates)
      ensures out != Stale ==>
                var advanced := Exec(old(store.rows), id, AdvancePhase(Clarify, AwaitHuman));
                store.rows == if out == GateLost then advanced else Exec(advanced, id, ParkForGate)
      ensures out == Directive(ParkNow) ==>
                && id in store.rows && store.rows[id].status == Waiting
                && exists g :: WaitsAt(gates.gates, id, g)
      ensures out == Directive(ParkNow) && !PendingFor(old(gates.gates), id) ==>
                gates.gates == old(gates.gates)[gate := NewGate(PlanGate(id, Stored(id), questions))]
      ensures out == GateLost ==> PendingFor(old(gates.gates), id) && !PendingFor(gates.gates, id)
      ensures exists events :: gates.gates == Played(old(gates.gates), events)
    {
      assert gates.gates == Played(gates.gates, []);
      var advanced := store.Advance(id, Clarify, AwaitHuman);
      if !advanced {
        return Stale;
      }
      var waiting := gates.Open(gate, PlanGate(id, Stored(id), questions), meanwhile);
      if waiting.None? {
        return GateLost;
      }
      var parked := store.Park(id);
      fx.RevokeAll(id);
      assert WaitsAt(gates.gates, id, waiting.value);
      out := Directive(ParkNow);
    }

    /** Carry out a transition. A retry leaves review, a park leaves clarify. */
    method CarryOut(id: JobId, from: Phase, t: Transition, questions: seq<string>, gate: GateId,
                    meanwhile: seq<GateEvent>)
      returns (out: Outcome)
      requires gates.Valid() && gate !in gates.gates
      requires (t.RetryImplement? ==> from == Review) && (t.Park? ==> from == Clarify)
      modifies store`rows, gates, fx
      ensures gates.Valid() && Carried(MoveFor(t), from, old(store.rows), id, store.rows, out)
      ensures out != Directive(ParkNow) && out != GateLost ==> gates.gates == old(gates.gates)
      ensures out == Directive(ParkNow) ==>
                && (exists g :: WaitsAt(gates.gates, id, g))
                && (!PendingFor(old(gates.gates), id) ==>
                    gates.gates == old(gates.gates)[gate := NewGate(PlanGate(id, Stored(id), questions))])
      ensures exists events :: gates.gates == Played(old(gates.gates), events)
    {
      assert gates.gates == Played(gates.gates, []);
      match t {
        case Fail =>
          F.FinalizeDevJob(store, fx, id, Failed);
          out := Directive(Failing);
        case Finished =>
          F.FinalizeDevJob(store, fx, id, Done);
          out := Directive(AllDone);
        case RetryImplement =>
          var ok := store.Advance(id, Review, Implement);
          out := if ok then Directive(Next(Implement)) else Stale;
        case Advance(to) =>
          var ok := store.Advance(id, from, to);
          out := if ok then Directive(Next(to)) else Stale;
        case Park =>
          out := ParkAtGate(id, questions, gate, meanwhile);
        case Requeue(_) =>
          F.FinalizeDevJob(store, fx, id, Failed);
          out := Directive(Failing);
      }
    }

    /** Handle one phase result. `job` is the row as the route read it, possibly long ago; `gate` is a fresh id. */
    method HandlePhaseResult(id: JobId, job: Row, r: Report, gate: GateId, meanwhile: seq<GateEvent>)
      returns (out: Outcome)
      requires gates.Valid() && gate !in gates.gates
      modifies this, store`rows, gates, fx
      ensures gates.Valid() && store.rows.Keys == old(store.rows).Keys
      ensures forall j | j in store.rows && j != id :: store.rows[j] == old(store.rows)[j]
      // a report for another phase than the one that was read leaves no trace at all
      ensures r.phase != job.phase ==>
                && out == Stale && store.rows == old(store.rows) && gates.gates == old(gates.gates)
                && artifacts == old(artifacts)
      // a stale answer changes the review note at most
      ensures out == Stale && id in store.rows ==> OnlyNoteChanged(old(store.rows)[id], store.rows[id])
      ensures out != Directive(ParkNow) && out != GateLost ==> gates.gates == old(gates.gates)
      // an accepted report is stored and moves the row exactly as decided
      ensures r.phase == job.phase ==>
                && Stored(id) == old(Stored(id)) + (if r.artifact.Some? then [r.artifact.value] else [])
                && Carried(MoveOf(job, r), r.phase, AfterNote(old(store.rows), id, job, r), id, store.rows, out)
      // the human is asked about the plan that is stored
      ensures out == Directive(ParkNow) ==>
                && (exists g :: WaitsAt(gates.gates, id, g))
                && (!PendingFor(old(gates.gates), id) ==>
                    gates.gates == old(gates.gates)[gate := NewGate(PlanGate(id, Stored(id), r.questions))])
      // every statement sent is a step of the gated pipeline
      ensures id in old(store.rows) && SameJob(old(store.rows)[id], job) ==>
                G.Refines(old(store.rows), old(gates.gates), store.rows, gates.gates)
    {
      G.Stays(store.rows, gates.gates);
      if r.phase != job.phase {
        return Stale;
      }
      AddArtifact(id, r.artifact);
      if r.phase == Review && r.ok && r.verdict.None? {
        F.FinalizeDevJob(store, fx, id, Failed);
        CarriedKeeps(old(store.rows), id, job, r, store.rows, Directive(Failing));
        EngineRefines(old(store.rows), gates.gates, id, job, r, store.rows, Directive(Failing), []);
        return Directive(Failing);
      }
      var verdict, exhausted := NoteReview(id, job, r);
      var t := ComputeTransition(PhaseResult(r.phase, r.ok, verdict, exhausted), job.mode, job.kind);
      out := CarryOut(id, r.phase, t, r.questions, gate, meanwhile);
      CarriedKeeps(old(store.rows), id, job, r, store.rows, out);
      ghost var events :| gates.gates == Played(old(gates.gates), events);
      EngineRefines(old(store.rows), old(gates.gates), id, job, r, store.rows, out, events);
    }
  }

  // ---- a runner in step with the row ----

  /** What the shim keeps between phases. */
  datatype Shim = Shim(phase: Phase, attempt: nat)

  /** Follow a `next` directive: a review that leads back to implement starts another attempt. */
  function Follow(s: Shim, to: Phase): Shim {
    Shim(to, if to == Implement && s.phase == Review then s.attempt + 1 else s.attempt)
  }

  predicate InSync(s: Shim, row: Row) { s.phase == row.phase && s.attempt == row.attempt }

  function AttemptsLeft(row: Row): nat {
    if row.attempt >= MAX_REVIEW_ATTEMPTS then 0 else MAX_REVIEW_ATTEMPTS - row.attempt
  }

  /** Phases left in the gated order. */
  function PhasesLeft(row: Row): nat { 7 - GatedRank(row.phase) }

  /** Attempts and phases left fall lexicographically, and only a bounce from review to implement uses an attempt. */
  predicate Closer(s: Shim, before: Row, after: Row) {
    && (AttemptsLeft(after) < AttemptsLeft(before) ||
        (AttemptsLeft(after) == AttemptsLeft(before) && PhasesLeft(after) < PhasesLeft(before)))
    && (if s.phase == Review && after.phase == Implement then AttemptsLeft(after) + 1 == AttemptsLeft(before)
        else AttemptsLeft(after) == AttemptsLeft(before))
  }

  /** The row of a live job with the note on its review. */
  function NotedRow(row: Row, r: Report): Row {
    if Noted(row, r).0.Some? then Written(row, Noted(row, r).0.value) else row
  }

  lemma NoteAt(rows: Rows, id: JobId, r: Report)
    requires id in rows && !Terminal(rows[id].status) && r.phase == rows[id].phase
    ensures AfterNote(rows, id, rows[id], r) == rows[id := NotedRow(rows[id], r)]
    ensures OnlyNoteChanged(rows[id], NotedRow(rows[id], r))
  {
    NoteIsReview(rows[id], r);
    var note := Noted(rows[id], r).0;
    if note.Some? {
      assert Matches(rows[id], note.value);
    } else {
      assert rows[id := rows[id]] == rows;
    }
  }

  /** The row once the phase moved on, too. */
  function MovedRow(row: Row, r: Report): Row
    requires MoveOf(row, r).GoTo?
  {
    NotedRow(row, r).(phase := MoveOf(row, r).to)
  }

  lemma StepInSync(row: Row, s: Shim, r: Report)
    requires InSync(s, row) && r.phase == s.phase && MoveOf(row, r).GoTo?
    ensures InSync(Follow(s, MoveOf(row, r).to), MovedRow(row, r))
  {
    NoteCounts(row, r);
    TableMoves(row, r);
  }

  lemma StepCloser(row: Row, s: Shim, r: Report)
    requires s.phase == row.phase && r.phase == s.phase && MoveOf(row, r).GoTo?
    ensures Closer(s, row, MovedRow(row, r))
  {
    NoteCounts(row, r);
    TableMoves(row, r);
  }

  /** The review asks for changes once more. */
  predicate AsksAgain(row: Row, r: Report) {
    r.phase == Review && Noted(row, r).1 == Some(false) && !Noted(row, r).2
  }

  lemma NoteCounts(row: Row, r: Report)
    ensures NotedRow(row, r).phase == row.phase && NotedRow(row, r).status == row.status
    ensures if AsksAgain(row, r) then row.attempt < MAX_REVIEW_ATTEMPTS && NotedRow(row, r).attempt == row.attempt + 1
            else NotedRow(row, r).attempt == row.attempt
  {
    NoteIs(row, r);
    var note := Noted(row, r).0;
    if note.Some? {
      ReviewWritten(row, note.value);
    }
  }

  lemma NoteIs(row: Row, r: Report)
    ensures var note := Noted(row, r).0;
            && (note.Some? ==> note.value.SetReview?)
            && (if AsksAgain(row, r)
                then row.attempt < MAX_REVIEW_ATTEMPTS && note.Some? && note.value.attempt == row.attempt + 1
                else note.Some? ==> note.value.attempt == row.attempt)
  {
  }

  lemma ReviewWritten(row: Row, note: Stmt)
    requires note.SetReview?
    ensures Written(row, note) == row.(attempt := note.attempt, complaints := note.complaints)
  {
  }

  lemma TableMoves(row: Row, r: Report)
    requires MoveOf(row, r).GoTo?
    ensures if AsksAgain(row, r) then MoveOf(row, r).to == Implement
            else GatedRank(MoveOf(row, r).to) > GatedRank(row.phase)
  {
  }

  lemma ParkFromClarify(row: Row, r: Report)
    requires MoveOf(row, r).GoParked?
    ensures r.phase == row.phase == Clarify
  {
  }

  /** A report for the phase of a live job is never stale, and every directive leaves the row where it says: at the next
      phase, parked at the human gate, or at the end. */
  lemma ReportMoves(rows: Rows, id: JobId, r: Report, after: Rows, out: Outcome)
    requires id in rows && !Terminal(rows[id].status) && r.phase == rows[id].phase
    requires Carried(MoveOf(rows[id], r), r.phase, AfterNote(rows, id, rows[id], r), id, after, out)
    ensures id in after && out != Stale && after[id].attempt == NotedRow(rows[id], r).attempt
    ensures out.Directive? ==>
              match out.d
              case Next(to) => MoveOf(rows[id], r) == GoTo(to) && after[id] == MovedRow(rows[id], r)
              case ParkNow => after[id].status == Waiting && after[id].phase == AwaitHuman
              case AllDone => after[id].status == Done
              case Failing => after[id].status == Failed
  {
    NoteAt(rows, id, r);
    if MoveOf(rows[id], r).GoParked? {
      ParkFromClarify(rows[id], r);
    }
  }

  /** And a shim in step with the row stays in step, and comes closer to the end. */
  lemma ReportInSync(rows: Rows, id: JobId, s: Shim, r: Report, after: Rows, out: Outcome)
    requires id in rows && !Terminal(rows[id].status) && InSync(s, rows[id]) && r.phase == s.phase
    requires Carried(MoveOf(rows[id], r), r.phase, AfterNote(rows, id, rows[id], r), id, after, out)
    ensures id in after && out != Stale
    ensures out.Directive? ==>
              match out.d
              case Next(to) =>
                && InSync(Follow(s, to), after[id]) && after[id].status == rows[id].status
                && Closer(s, rows[id], after[id])
              case ParkNow => after[id].status == Waiting && after[id].phase == AwaitHuman
              case AllDone => after[id].status == Done
              case Failing => after[id].status == Failed
  {
    ReportMoves(rows, id, r, after, out);
    if out.Directive? && out.d.Next? {
      StepInSync(rows[id], s, r);
      StepCloser(rows[id], s, r);
      NoteAt(rows, id, r);
    }
  }

  /** The shim followed one `next` directive; since then others may have written to the row, but for its phase and its
      attempt. */
  ghost predicate Followed(row: Row, s: Shim, r: Report, later: Row, t: Shim) {
    exists rows: Rows, id: JobId, after: Rows, to: Phase ::
      && id in rows && rows[id] == row && !Terminal(row.status) && r.phase == s.phase
      && Carried(MoveOf(row, r), r.phase, AfterNote(rows, id, row, r), id, after, Directive(Next(to)))
      && id in after && later.phase == after[id].phase && later.attempt == after[id].attempt
      && t == Follow(s, to)
  }

  /** A run: reports handled one after the other, each for the phase the shim is in, while `next` comes back. */
  ghost predicate Ran(rows: seq<Row>, shims: seq<Shim>, reports: seq<Report>) {
    && |rows| == |shims| == |reports| + 1
    && forall k | 0 <= k < |reports| :: Followed(rows[k], shims[k], reports[k], rows[k + 1], shims[k + 1])
  }

  /** How often the shim went back from review to implement in its first `n` steps. */
  function Bounces(shims: seq<Shim>, n: nat): nat
    requires n < |shims|
  {
    if n == 0 then 0
    else Bounces(shims, n - 1) + if shims[n - 1].phase == Review && shims[n].phase == Implement then 1 else 0
  }

  lemma FollowedInSync(row: Row, s: Shim, r: Report, later: Row, t: Shim)
    requires Followed(row, s, r, later, t) && InSync(s, row)
    ensures InSync(t, later)
    ensures AttemptsLeft(later) + (if s.phase == Review && t.phase == Implement then 1 else 0) == AttemptsLeft(row)
  {
    var rows: Rows, id: JobId, after: Rows, to: Phase :|
      && id in rows && rows[id] == row && !Terminal(row.status) && r.phase == s.phase
      && Carried(MoveOf(row, r), r.phase, AfterNote(rows, id, row, r), id, after, Directive(Next(to)))
      && id in after && later.phase == after[id].phase && later.attempt == after[id].attempt
      && t == Follow(s, to);
    ReportInSync(rows, id, s, r, after, Directive(Next(to)));
  }

  /** In every run the shim stays in step with the row and bounces from review to implement at most twice. */
  lemma {:induction false} RunsInSync(rows: seq<Row>, shims: seq<Shim>, reports: seq<Report>, n: nat)
    requires Ran(rows, shims, reports) && InSync(shims[0], rows[0]) && n <= |reports|
    ensures InSync(shims[n], rows[n])
    ensures Bounces(shims, n) + AttemptsLeft(rows[n]) == AttemptsLeft(rows[0]) <= 2
  {
    if n > 0 {
      RunsInSync(rows, shims, reports, n - 1);
      assert Followed(rows[n - 1], shims[n - 1], reports[n - 1], rows[n - 1 + 1], shims[n - 1 + 1]);
      FollowedInSync(rows[n - 1], shims[n - 1], reports[n - 1], rows[n], shims[n]);
    }
  }

  // ---- reports that come late ----

  /** The row carries the note already that a review read from an older row leaves: there is none to leave, or its
      attempt and its complaints are the row's. */
  predicate NoteThere(row: Row, job: Row, r: Report) {
    r.phase == Review && r.ok && r.verdict.Some? ==>
      match DecideReview(r.verdict.value, job.attempt, job.complaints)
      case Retry(next, c) => row.attempt == next && row.complaints == Some(c)
      case GiveUp(c) => row.attempt == job.attempt && row.complaints == Some(c)
      case Approve => true
  }

  lemma NoteThereIff(rows: Rows, id: JobId, job: Row, r: Report)
    requires id in rows && !Terminal(rows[id].status) && r.phase == job.phase
    ensures AfterNote(rows, id, job, r) == rows <==> NoteThere(rows[id], job, r)
  {
    NoteIsReview(job, r);
    NoteSame(rows[id], job, r);
    var note := Noted(job, r).0;
    if note.Some? {
      ReviewSame(rows, id, note.value);
    }
  }

  lemma NoteSame(row: Row, job: Row, r: Report)
    ensures NoteThere(row, job, r) <==> Noted(job, r).0.Some? ==> Written(row, Noted(job, r).0.value) == row
  {
  }

  lemma ReviewSame(rows: Rows, id: JobId, note: Stmt)
    requires id in rows && !Terminal(rows[id].status) && note.SetReview?
    ensures Exec(rows, id, note) == rows <==> Written(rows[id], note) == rows[id]
  {
    assert Exec(rows, id, note) == rows[id := Written(rows[id], note)];
    assert rows[id := rows[id]] == rows;
  }

  /** A delayed report, handled when a live job is at another phase: it moves no phase. It ends the job exactly when it
      would have ended it then, wherever the job is by now. It leaves no trace exactly when it ends nothing and its
      review note, which is not fenced on the phase either, is there already. */
  lemma DelayedReport(rows: Rows, id: JobId, job: Row, r: Report, after: Rows, out: Outcome)
    requires id in rows && r.phase == job.phase && rows[id].phase != job.phase && !Terminal(rows[id].status)
    requires Carried(MoveOf(job, r), r.phase, AfterNote(rows, id, job, r), id, after, out)
    ensures id in after
    ensures after[id].phase == rows[id].phase
    ensures Terminal(after[id].status) <==> MoveOf(job, r).EndAs?
    ensures after == rows <==> !MoveOf(job, r).EndAs? && NoteThere(rows[id], job, r)
  {
    NoteKeeps(rows, id, job, r);
    NoteThereIff(rows, id, job, r);
    if MoveOf(job, r).GoParked? {
      ParkFromClarify(job, r);
    }
    LateMove(MoveOf(job, r), r.phase, AfterNote(rows, id, job, r), id, after, out);
  }

  lemma LateMove(m: Move, from: Phase, rows: Rows, id: JobId, after: Rows, out: Outcome)
    requires id in rows && rows[id].phase != from && !Terminal(rows[id].status)
    requires (m.GoParked? ==> from == Clarify) && (m.EndAs? ==> Terminal(m.status))
    requires Carried(m, from, rows, id, after, out)
    ensures !m.EndAs? ==> after == rows
    ensures m.EndAs? ==> id in after && after[id].phase == rows[id].phase && Terminal(after[id].status)
  {
  }

  /** An ended job is not touched by any report. */
  lemma EndedStays(rows: Rows, id: JobId, job: Row, r: Report, after: Rows, out: Outcome)
    requires id in rows && r.phase == job.phase && Terminal(rows[id].status)
    requires Carried(MoveOf(job, r), r.phase, AfterNote(rows, id, job, r), id, after, out)
    ensures after == rows
  {
    NoteIsReview(job, r);
    assert AfterNote(rows, id, job, r) == rows;
  }

  /** For instance: a review that asked for changes in the first round, handled in the third: the attempt falls back to
      one, so that the job may be bounced once more than reports in step allow. */
  lemma LateReviewLowersAttempt(row: Row)
    requires row.phase == Implement && row.status == Running && row.attempt == MAX_REVIEW_ATTEMPTS
    requires row.kind != AnalyzeOnly
    ensures var job := row.(phase := Review, attempt := 0, complaints := None);
            var late := Report(Review, true, None, [], Some(Verdict(false, [Finding(Blocker, "a", "b")])));
            var after := AfterNote(map[0 := row], 0, job, late);
            && !MoveOf(job, late).EndAs? && 0 in after && after[0].attempt == 1
            && AttemptsLeft(row) == 0 && AttemptsLeft(after[0]) == 1
  {
    var job := row.(phase := Review, attempt := 0, complaints := None);
    var f := Finding(Blocker, "a", "b");
    var late := Report(Review, true, None, [], Some(Verdict(false, [f])));
    BlockingIff([f]);
    assert Blocking([f][0]);
    assert DecideReview(Verdict(false, [f]), 0, None) == Retry(1, FingerprintOf([f]));
    assert Noted(job, late) == (Some(SetReview(1, Some(FingerprintOf([f])))), Some(false), false);
    assert MoveOf(job, late) == MoveFor(ComputeTransition(PhaseResult(Review, true, Some(false), false), job.mode,
                                                          job.kind));
  }

  /** For instance: an implement report that failed, handled when the job is in review already. */
  lemma LateFailureEnds(row: Row)
    requires row.phase == Review && row.status == Running
    ensures var late := Report(Implement, false, None, [], None);
            var job := row.(phase := Implement);
            && MoveOf(job, late) == EndAs(Failed)
            && Exec(AfterNote(map[0 := row], 0, job, late), 0, Finish(Failed))[0] == row.(status := Failed)
  {
    var late := Report(Implement, false, None, [], None);
    var job := row.(phase := Implement);
    assert Noted(job, late) == (None, None, false);
    assert ComputeTransition(PhaseResult(Implement, false, None, false), row.mode, row.kind) == Fail;
  }
}
