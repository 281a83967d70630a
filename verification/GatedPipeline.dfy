// The human gate in the middle of the pipeline: engine, gate route, deadline and crashes interleaved.
module GatedPipeline {
  import opened Wrappers
  import opened Phases
  import opened JobStore
  import opened Gates

  /** A run of the gate route's callback, at the statement it is about to send. */
  datatype Callback =
    | AppendAnswers(gate: GateId)
    | RequeueJob(gate: GateId)
    | AppendRejection(gate: GateId)
    | CancelJob(gate: GateId)

  datatype State = State(rows: Rows, gates: GateRows, callbacks: multiset<Callback>)

  datatype Step =
    | Arrive(job: JobId, waiting: bool, mode: Mode, kind: Kind, phase: Phase)
    | RetryAs(job: JobId, of: JobId, resume: bool)      // a new job after one that has ended, at its phase or anew
    | EngineMoves(job: JobId, from: Phase, to: Phase)   // an accepted phase result, possibly a delayed one
    | OtherStatement(job: JobId, stmt: Stmt)            // worker, runner, finalizers, apply gate
    | GateChanges(event: GateEvent)
    | Redrive(gate: GateId)                             // the route runs a closed gate's callback, any number of times
    | Proceed(callback: Callback)
    | Crash

  /** The phase moves the engine makes for some report. */
  ghost predicate EngineMove(from: Phase, to: Phase, mode: Mode, kind: Kind) {
    exists ok: bool, verdict: Option<bool>, exhausted: bool ::
      var t := ComputeTransition(PhaseResult(from, ok, verdict, exhausted), mode, kind);
      t == Advance(to) || (t == RetryImplement && to == Implement) || (t == Park && to == AwaitHuman)
  }

  /** A rejection cancels the job of any gate; an approval re-queues the job of a review gate. */
  predicate HasCallback(g: Gate) { g.status == Rejected || (g.status == Resolved && g.kind == ReviewGate) }

  /** Statements that neither move the phase nor write the brief. */
  predicate Elsewhere(s: Stmt) { !s.AdvancePhase? && !s.RequeueAt? && !s.AppendToBrief? }

  /** A retried job keeps kind and brief, is gated whatever it was, and starts at the beginning or at the phase the old
      one ended in. Behind the human gate it stands for the job that went past it. */
  function Clone(rows: Rows, from: JobId, resume: bool): NewJob
    requires from in rows
  {
    var r := rows[from];
    NewJob(false, if resume then r.phase else Analyze, Gated, r.kind, r.brief,
           if resume && PastGate(r.phase) then Some(r.origin.GetOr(from)) else None)
  }

  ghost predicate Enabled(s: State, e: Step) {
    match e
    case Arrive(j, _, _, _, p) => j !in s.rows && p in {Analyze, AwaitHuman}
    case RetryAs(j, from, _) => j !in s.rows && from in s.rows && Terminal(s.rows[from].status)
    case EngineMoves(j, from, to) => j in s.rows && EngineMove(from, to, s.rows[j].mode, s.rows[j].kind)
    case OtherStatement(_, stmt) => Elsewhere(stmt)
    case GateChanges(_) => true
    case Redrive(g) => g in s.gates && HasCallback(s.gates[g])
    case Proceed(c) => c in s.callbacks && c.gate in s.gates
    case Crash => true
  }

  function Next(s: State, e: Step): State
    requires Enabled(s, e)
  {
    match e
    case Arrive(j, waiting, mode, kind, p) =>
      s.(rows := s.rows[j := Fresh(NewJob(waiting, p, mode, kind, [], None))])
    case RetryAs(j, from, resume) => s.(rows := s.rows[j := Fresh(Clone(s.rows, from, resume))])
    case EngineMoves(j, from, to) => s.(rows := Exec(s.rows, j, AdvancePhase(from, to)))
    case OtherStatement(j, stmt) => s.(rows := Exec(s.rows, j, stmt))
    case GateChanges(x) => s.(gates := AfterGate(s.gates, x))
    case Redrive(g) =>
      var first := if s.gates[g].status == Resolved then AppendAnswers(g) else AppendRejection(g);
      s.(callbacks := s.callbacks + multiset{first})
    case Proceed(c) =>
      var (j, rest) := (s.gates[c.gate].job, s.callbacks - multiset{c});
      (match c
       case AppendAnswers(g) =>
         s.(rows := Exec(s.rows, j, AppendToBrief(g)), callbacks := rest + multiset{RequeueJob(g)})
       case RequeueJob(g) => s.(rows := Exec(s.rows, j, RequeueAt(Implement)), callbacks := rest)
       case AppendRejection(g) =>
         s.(rows := Exec(s.rows, j, AppendToBrief(g)), callbacks := rest + multiset{CancelJob(g)})
       case CancelJob(g) => s.(rows := Exec(s.rows, j, Finish(Cancelled)), callbacks := rest))
    case Crash => s.(callbacks := multiset{})
  }

  ghost predicate Runs(s: State, run: seq<Step>, t: State)
    decreases |run|
  {
    if run == [] then t == s else Enabled(s, run[0]) && Runs(Next(s, run[0]), run[1..], t)
  }

  // ---- the invariant ----

  predicate ReviewApproved(gates: GateRows, job: JobId) {
    exists g | g in gates :: gates[g].job == job && gates[g].kind == ReviewGate && gates[g].status == Resolved
  }

  predicate PastGate(p: Phase) { p in {Implement, Review, Pr} }

  predicate NoRepeats(brief: seq<GateId>) { forall i, k | 0 <= i < k < |brief| :: brief[i] != brief[k] }

  /** A job for which a human must have spoken before it is implemented. */
  predicate NeedsHuman(r: Row) { r.mode == Gated && r.kind != AnalyzeOnly }

  ghost predicate RowRight(gates: GateRows, job: JobId, r: Row) {
    && NoRepeats(r.brief)
    && (forall k | 0 <= k < |r.brief| :: r.brief[k] in gates && gates[r.brief[k]].status in {Resolved, Rejected})
    && (r.origin.Some? ==> PastGate(r.phase))
    && (NeedsHuman(r) && r.origin.None? ==>
        && (PastGate(r.phase) ==> ReviewApproved(gates, job) && r.provision == 2)
        && (!PastGate(r.phase) ==> r.provision == 1))
    && (NeedsHuman(r) && r.origin.Some? ==> r.provision == 1)
  }

  /** The job went past the human gate itself. */
  predicate Root(rows: Rows, job: JobId) { job in rows && rows[job].origin == None && PastGate(rows[job].phase) }

  ghost predicate CallbackRight(gates: GateRows, c: Callback) {
    && c.gate in gates && HasCallback(gates[c.gate])
    && gates[c.gate].status == (if c.AppendAnswers? || c.RequeueJob? then Resolved else Rejected)
  }

  ghost predicate RowsRight(gates: GateRows, rows: Rows) {
    && (forall j | j in rows :: RowRight(gates, j, rows[j]))
    && (forall j | j in rows && rows[j].origin.Some? :: Root(rows, rows[j].origin.value))
  }

  ghost predicate CallbacksRight(gates: GateRows, callbacks: multiset<Callback>) {
    forall c | c in callbacks :: CallbackRight(gates, c)
  }

  ghost predicate Right(s: State) { RowsRight(s.gates, s.rows) && CallbacksRight(s.gates, s.callbacks) }

  /** Gates that are closed stay as they are, so everything said about rows and callbacks stays true. */
  lemma GateStepKeeps(s: State, x: GateEvent)
    requires Right(s)
    ensures Right(Next(s, GateChanges(x)))
  {
    var gates := AfterGate(s.gates, x);
    assert forall g | g in s.gates && s.gates[g].status != Pending :: g in gates && gates[g] == s.gates[g];
    forall j | j in s.rows ensures RowRight(gates, j, s.rows[j]) {
      if ReviewApproved(s.gates, j) {
        var g :| g in s.gates && s.gates[g].job == j && s.gates[g].kind == ReviewGate && s.gates[g].status == Resolved;
        assert gates[g] == s.gates[g];
      }
    }
  }

  /** The engine never carries a gated job past the human gate. */
  lemma EngineStopsAtGate(r: Row, from: Phase, to: Phase)
    requires NeedsHuman(r) && EngineMove(from, to, r.mode, r.kind)
    ensures PastGate(to) <==> PastGate(from)
  {
  }

  /** Behind the human gate the engine stays behind it. */
  lemma EngineStaysPast(from: Phase, to: Phase, mode: Mode, kind: Kind)
    requires EngineMove(from, to, mode, kind) && PastGate(from)
    ensures PastGate(to)
  {
  }

  lemma RowStepKeeps(gates: GateRows, rows: Rows, j: JobId, stmt: Stmt)
    requires RowsRight(gates, rows) && j in rows && Matches(rows[j], stmt)
    requires RowRight(gates, j, Written(rows[j], stmt)) && Written(rows[j], stmt).origin == rows[j].origin
    requires PastGate(rows[j].phase) ==> PastGate(Written(rows[j], stmt).phase)
    ensures RowsRight(gates, Exec(rows, j, stmt))
  {
    var after := Exec(rows, j, stmt);
    forall k | k in after && after[k].origin.Some? ensures Root(after, after[k].origin.value) {
      assert Root(rows, rows[k].origin.value);
    }
  }

  lemma AppendKeeps(gates: GateRows, rows: Rows, g: GateId)
    requires RowsRight(gates, rows) && g in gates && gates[g].status in {Resolved, Rejected}
    ensures RowsRight(gates, Exec(rows, gates[g].job, AppendToBrief(g)))
  {
    var j := gates[g].job;
    if Hits(rows, j, AppendToBrief(g)) {
      assert RowRight(gates, j, rows[j]);
      RowStepKeeps(gates, rows, j, AppendToBrief(g));
    }
  }

  lemma RequeueKeeps(gates: GateRows, rows: Rows, g: GateId)
    requires RowsRight(gates, rows) && CallbackRight(gates, RequeueJob(g))
    ensures RowsRight(gates, Exec(rows, gates[g].job, RequeueAt(Implement)))
  {
    var j := gates[g].job;
    if Hits(rows, j, RequeueAt(Implement)) {
      assert ReviewApproved(gates, j) && RowRight(gates, j, rows[j]);
      RowStepKeeps(gates, rows, j, RequeueAt(Implement));
    }
  }

  lemma ElsewhereKeeps(gates: GateRows, rows: Rows, j: JobId, stmt: Stmt)
    requires RowsRight(gates, rows) && Elsewhere(stmt)
    ensures RowsRight(gates, Exec(rows, j, stmt))
  {
    if Hits(rows, j, stmt) {
      assert RowRight(gates, j, rows[j]);
      RowStepKeeps(gates, rows, j, stmt);
    }
  }

  lemma MoveKeeps(gates: GateRows, rows: Rows, j: JobId, from: Phase, to: Phase)
    requires RowsRight(gates, rows) && j in rows && EngineMove(from, to, rows[j].mode, rows[j].kind)
    ensures RowsRight(gates, Exec(rows, j, AdvancePhase(from, to)))
  {
    if Hits(rows, j, AdvancePhase(from, to)) {
      assert RowRight(gates, j, rows[j]);
      if NeedsHuman(rows[j]) { EngineStopsAtGate(rows[j], from, to); }
      if PastGate(from) { EngineStaysPast(from, to, rows[j].mode, rows[j].kind); }
      RowStepKeeps(gates, rows, j, AdvancePhase(from, to));
    }
  }

  lemma ProceedKeeps(s: State, c: Callback)
    requires Right(s) && Enabled(s, Proceed(c))
    ensures Right(Next(s, Proceed(c)))
  {
    assert CallbackRight(s.gates, c);
    NextCallback(s, c);
    match c {
      case AppendAnswers(g) => AppendKeeps(s.gates, s.rows, g);
      case RequeueJob(g) => RequeueKeeps(s.gates, s.rows, g);
      case AppendRejection(g) => AppendKeeps(s.gates, s.rows, g);
      case CancelJob(g) => ElsewhereKeeps(s.gates, s.rows, s.gates[g].job, Finish(Cancelled));
    }
  }

  lemma NextCallback(s: State, c: Callback)
    requires CallbacksRight(s.gates, s.callbacks) && Enabled(s, Proceed(c))
    ensures CallbacksRight(s.gates, Next(s, Proceed(c)).callbacks)
  {
    assert CallbackRight(s.gates, c);
    forall d | d in Next(s, Proceed(c)).callbacks ensures CallbackRight(s.gates, d) {
      if d in s.callbacks {
        assert CallbackRight(s.gates, d);
      }
    }
  }

  lemma NewRowKeeps(gates: GateRows, rows: Rows, j: JobId, row: Row)
    requires RowsRight(gates, rows) && j !in rows && RowRight(gates, j, row)
    requires row.origin.Some? ==> Root(rows, row.origin.value)
    ensures RowsRight(gates, rows[j := row])
  {
    var after := rows[j := row];
    forall k | k in after && after[k].origin.Some? ensures Root(after, after[k].origin.value) {
      assert k != j ==> Root(rows, rows[k].origin.value);
    }
  }

  lemma RetryKeeps(s: State, j: JobId, from: JobId, resume: bool)
    requires Right(s) && Enabled(s, RetryAs(j, from, resume))
    ensures Right(Next(s, RetryAs(j, from, resume)))
  {
    assert RowRight(s.gates, from, s.rows[from]);
    NewRowKeeps(s.gates, s.rows, j, Fresh(Clone(s.rows, from, resume)));
  }

  lemma StepKeeps(s: State, e: Step)
    requires Right(s) && Enabled(s, e)
    ensures Right(Next(s, e))
  {
    match e {
      case Arrive(j, waiting, mode, kind, p) =>
        NewRowKeeps(s.gates, s.rows, j, Fresh(NewJob(waiting, p, mode, kind, [], None)));
      case RetryAs(j, from, resume) => RetryKeeps(s, j, from, resume);
      case EngineMoves(j, from, to) => MoveKeeps(s.gates, s.rows, j, from, to);
      case OtherStatement(j, stmt) => ElsewhereKeeps(s.gates, s.rows, j, stmt);
      case GateChanges(x) => GateStepKeeps(s, x);
      case Redrive(_) =>
      case Proceed(c) => ProceedKeeps(s, c);
      case Crash =>
    }
  }

  lemma {:induction false} RunKeeps(s: State, run: seq<Step>, t: State)
    requires Right(s) && Runs(s, run, t)
    ensures Right(t)
    decreases |run|
  {
    if run != [] {
      StepKeeps(s, run[0]);
      RunKeeps(Next(s, run[0]), run[1..], t);
    }
  }

  const START := State(map[], map[], multiset{})

  /** A human spoke for the job before it went past the gate: for itself, or for the job it was resumed from. */
  ghost predicate Spoken(rows: Rows, gates: GateRows, job: JobId)
    requires job in rows
  {
    var root := rows[job].origin.GetOr(job);
    Root(rows, root) && (NeedsHuman(rows[root]) ==> ReviewApproved(gates, root))
  }

  /** In every reachable state a gated job that is implemented, reviewed or handed over had a review gate approved: its
      own, or that of the job it was resumed from behind the gate (which need not have been a gated one). A job that was
      not resumed there has its own, and was re-queued once for it. Each gate has one section in a brief at most,
      however often callbacks were driven again and whatever crashed in between. */
  lemma ImplementedOnlyIfApproved(run: seq<Step>, t: State, j: JobId)
    requires Runs(START, run, t) && j in t.rows && NeedsHuman(t.rows[j])
    ensures PastGate(t.rows[j].phase) ==> Spoken(t.rows, t.gates, j)
    ensures PastGate(t.rows[j].phase) && t.rows[j].origin == None ==> ReviewApproved(t.gates, j)
    ensures t.rows[j].provision == if PastGate(t.rows[j].phase) && t.rows[j].origin == None then 2 else 1
    ensures NoRepeats(t.rows[j].brief)
  {
    RunKeeps(START, run, t);
    assert RowRight(t.gates, j, t.rows[j]);
    RightSpeaks(t, j);
  }

  /** A job resumed at implement is implemented without any gate of its own. */
  lemma ResumedWithoutItsOwn(s: State, job: JobId, from: JobId)
    requires Enabled(s, RetryAs(job, from, true)) && s.rows[from].phase == Implement && s.rows[from].kind != AnalyzeOnly
    requires forall g | g in s.gates :: s.gates[g].job != job
    ensures var t := Next(s, RetryAs(job, from, true));
            && NeedsHuman(t.rows[job]) && PastGate(t.rows[job].phase) && !ReviewApproved(t.gates, job)
            && t.rows[job].origin == Some(s.rows[from].origin.GetOr(from))
  {
  }

  // ---- calls as runs ----

  /** Some run leads from the one to the other and leaves no callback under way. */
  ghost predicate Refines(rows: Rows, gates: GateRows, rows': Rows, gates': GateRows) {
    exists run :: Runs(State(rows, gates, multiset{}), run, State(rows', gates', multiset{}))
  }

  lemma {:induction false} RunsJoin(s: State, a: seq<Step>, t: State, b: seq<Step>, u: State)
    requires Runs(s, a, t) && Runs(t, b, u)
    ensures Runs(s, a + b, u)
    decreases |a|
  {
    if a == [] {
      assert a + b == b;
    } else {
      RunsJoin(Next(s, a[0]), a[1..], t, b, u);
      assert (a + b)[1..] == a[1..] + b;
    }
  }

  lemma Stays(rows: Rows, gates: GateRows)
    ensures Refines(rows, gates, rows, gates)
  {
    var s := State(rows, gates, multiset{});
    assert Runs(s, [], s);
  }

  lemma Composes(r0: Rows, g0: GateRows, r1: Rows, g1: GateRows, r2: Rows, g2: GateRows)
    requires Refines(r0, g0, r1, g1) && Refines(r1, g1, r2, g2)
    ensures Refines(r0, g0, r2, g2)
  {
    var (s, t, u) := (State(r0, g0, multiset{}), State(r1, g1, multiset{}), State(r2, g2, multiset{}));
    var a :| Runs(s, a, t);
    var b :| Runs(t, b, u);
    RunsJoin(s, a, t, b, u);
  }

  lemma OneStep(s: State, e: Step)
    requires Enabled(s, e)
    ensures Runs(s, [e], Next(s, e))
  {
    assert [e][1..] == [];
    assert Runs(Next(s, e), [], Next(s, e));
  }

  lemma StatementRefines(rows: Rows, gates: GateRows, job: JobId, stmt: Stmt)
    requires Elsewhere(stmt)
    ensures Refines(rows, gates, Exec(rows, job, stmt), gates)
  {
    OneStep(State(rows, gates, multiset{}), OtherStatement(job, stmt));
  }

  lemma MoveRefines(rows: Rows, gates: GateRows, job: JobId, from: Phase, to: Phase)
    requires job in rows ==> EngineMove(from, to, rows[job].mode, rows[job].kind)
    ensures Refines(rows, gates, Exec(rows, job, AdvancePhase(from, to)), gates)
  {
    if job in rows {
      OneStep(State(rows, gates, multiset{}), EngineMoves(job, from, to));
    } else {
      Stays(rows, gates);
    }
  }

  lemma {:induction false} GatesRefine(rows: Rows, gates: GateRows, events: seq<GateEvent>)
    ensures Refines(rows, gates, rows, Played(gates, events))
    decreases |events|
  {
    if events == [] {
      Stays(rows, gates);
    } else {
      var n := |events| - 1;
      GatesRefine(rows, gates, events[..n]);
      OneStep(State(rows, Played(gates, events[..n]), multiset{}), GateChanges(events[n]));
      Composes(rows, gates, rows, Played(gates, events[..n]), rows, Played(gates, events));
    }
  }

  /** What the callback of a closed review gate sends: the section, then the way on. */
  function Driven(rows: Rows, job: JobId, g: GateId, approved: bool): Rows {
    Exec(Exec(rows, job, AppendToBrief(g)), job, if approved then RequeueAt(Implement) else Finish(Cancelled))
  }

  lemma DriveRefines(rows: Rows, gates: GateRows, g: GateId)
    requires g in gates && HasCallback(gates[g])
    ensures Refines(rows, gates, Driven(rows, gates[g].job, g, gates[g].status == Resolved), gates)
  {
    var s := State(rows, gates, multiset{});
    var (first, then') := if gates[g].status == Resolved then (AppendAnswers(g), RequeueJob(g))
                          else (AppendRejection(g), CancelJob(g));
    var t := Next(s, Redrive(g));
    assert t.callbacks == multiset{first};
    OneStep(s, Redrive(g));
    var u := Next(t, Proceed(first));
    assert u.callbacks == multiset{then'};
    OneStep(t, Proceed(first));
    RunsJoin(s, [Redrive(g)], t, [Proceed(first)], u);
    var v := Next(u, Proceed(then'));
    assert v.callbacks == multiset{};
    OneStep(u, Proceed(then'));
    RunsJoin(s, [Redrive(g)] + [Proceed(first)], u, [Proceed(then')], v);
  }

  /** Whatever calls of this kind are made, the invariant of the pipeline stays. */
  lemma RefinesKeeps(rows: Rows, gates: GateRows, rows': Rows, gates': GateRows)
    requires Right(State(rows, gates, multiset{})) && Refines(rows, gates, rows', gates')
    ensures Right(State(rows', gates', multiset{}))
  {
    var s := State(rows, gates, multiset{});
    var run :| Runs(s, run, State(rows', gates', multiset{}));
    RunKeeps(s, run, State(rows', gates', multiset{}));
  }

  /** A job is created at the start of its pipeline, or right at the human gate: then it can never be claimed before a
      human has spoken. */
  method CreateJob(store: DevJobStore, ghost gates: GateRows, job: JobId, gated: bool, mode: Mode, kind: Kind)
    requires store.Valid() && job !in store.rows
    modifies store
    ensures store.Valid() && store.rows.Keys == old(store.rows).Keys + {job}
    ensures forall j | j in old(store.rows) :: store.rows[j] == old(store.rows)[j]
    ensures if gated then store.rows[job].status == Waiting && store.rows[job].phase == AwaitHuman
            else store.rows[job].status == Queued && store.rows[job].phase == Analyze
    ensures Refines(old(store.rows), gates, store.rows, gates)
  {
    var phase := if gated then AwaitHuman else Analyze;
    store.Insert(job, NewJob(gated, phase, mode, kind, [], None));
    OneStep(State(old(store.rows), gates, multiset{}), Arrive(job, gated, mode, kind, phase));
  }

  /** A job that has ended is tried again as a new job, refused while it is live. */
  method RetryJob(store: DevJobStore, ghost gates: GateRows, job: JobId, from: JobId, resume: bool) returns (ok: bool)
    requires store.Valid() && job !in store.rows
    modifies store
    ensures store.Valid() && (ok <==> from in old(store.rows) && Terminal(old(store.rows)[from].status))
    ensures !ok ==> store.rows == old(store.rows)
    ensures ok ==>
              && store.rows.Keys == old(store.rows).Keys + {job}
              && (forall j | j in old(store.rows) :: store.rows[j] == old(store.rows)[j])
              && store.rows[job].status == Queued && store.rows[job].lease == None
              && store.rows[job].phase == if resume then store.rows[from].phase else Analyze
    ensures Refines(old(store.rows), gates, store.rows, gates)
  {
    Stays(store.rows, gates);
    ok := from in store.rows && Terminal(store.rows[from].status);
    if ok {
      OneStep(State(store.rows, gates, multiset{}), RetryAs(job, from, resume));
      store.Insert(job, Clone(store.rows, from, resume));
    }
  }

  /** Through any sequence of such calls from an empty store: no gated job is implemented, reviewed or handed over that
      no human spoke for, and one that was not resumed behind the gate was approved itself. */
  lemma {:induction false} CallsKeep(rows: seq<Rows>, gates: seq<GateRows>, n: nat, job: JobId)
    requires |rows| == |gates| && n < |rows| && rows[0] == map[] && gates[0] == map[]
    requires forall k | 0 < k < |rows| :: Refines(rows[k - 1], gates[k - 1], rows[k], gates[k])
    ensures Right(State(rows[n], gates[n], multiset{}))
    ensures job in rows[n] && NeedsHuman(rows[n][job]) && PastGate(rows[n][job].phase) ==>
              && Spoken(rows[n], gates[n], job)
              && (rows[n][job].origin == None ==> ReviewApproved(gates[n], job) && rows[n][job].provision == 2)
  {
    if n > 0 {
      CallsKeep(rows, gates, n - 1, job);
      RefinesKeeps(rows[n - 1], gates[n - 1], rows[n], gates[n]);
    }
    RightSpeaks(State(rows[n], gates[n], multiset{}), job);
  }

  lemma RightSpeaks(s: State, job: JobId)
    requires Right(s)
    ensures job in s.rows && NeedsHuman(s.rows[job]) && PastGate(s.rows[job].phase) ==> Spoken(s.rows, s.gates, job)
  {
    if job in s.rows && s.rows[job].origin.Some? {
      var root := s.rows[job].origin.value;
      assert Root(s.rows, root) && RowRight(s.gates, root, s.rows[root]);
    }
  }
}
