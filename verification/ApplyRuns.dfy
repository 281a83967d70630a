// One uninterrupted apply, seen as a run of the steps that all applies interleave.
module ApplyRuns {
  import opened Wrappers
  import opened JobStore
  import opened Gates
  import opened ApplyWorker
  import G = GatedPipeline

  /** Nobody but applies writes a row; gates may change. */
  predicate Own(run: seq<Step>) { forall k | 0 <= k < |run| :: !run[k].Statement? }

  ghost predicate Reaches(s: State, t: State, branchOf: JobId -> Branch) {
    exists run :: Own(run) && Runs(s, run, t, branchOf)
  }

  lemma Stays(s: State, branchOf: JobId -> Branch)
    ensures Reaches(s, s, branchOf)
  {
    assert Own([]) && Runs(s, [], s, branchOf);
  }

  lemma OneStep(s: State, e: Step, branchOf: JobId -> Branch)
    requires Enabled(s, e, branchOf) && !e.Statement?
    ensures Reaches(s, Next(s, e, branchOf), branchOf)
  {
    assert [e][1..] == [];
    assert Runs(Next(s, e, branchOf), [], Next(s, e, branchOf), branchOf);
    assert Own([e]) && Runs(s, [e], Next(s, e, branchOf), branchOf);
  }

  lemma {:induction false} RunsJoin(s: State, a: seq<Step>, t: State, b: seq<Step>, u: State, branchOf: JobId -> Branch)
    requires Runs(s, a, t, branchOf) && Runs(t, b, u, branchOf)
    ensures Runs(s, a + b, u, branchOf)
    decreases |a|
  {
    if a == [] {
      assert a + b == b;
    } else {
      RunsJoin(Next(s, a[0], branchOf), a[1..], t, b, u, branchOf);
      assert (a + b)[1..] == a[1..] + b;
    }
  }

  lemma Onwards(s: State, t: State, u: State, branchOf: JobId -> Branch)
    requires Reaches(s, t, branchOf) && Reaches(t, u, branchOf)
    ensures Reaches(s, u, branchOf)
  {
    var a :| Own(a) && Runs(s, a, t, branchOf);
    var b :| Own(b) && Runs(t, b, u, branchOf);
    RunsJoin(s, a, t, b, u, branchOf);
    assert Own(a + b);
  }

  // ---- the stretches of an apply ----

  /** The state in which the apply is at that point. */
  predicate Is(s: State, me: ThreadId, job: JobId, at: At) { me in s.threads && s.threads[me] == Thread(job, at) }

  lemma LoadsAndDecides(s: State, me: ThreadId, job: JobId, resumed: bool, branchOf: JobId -> Branch)
    requires Is(s, me, job, Loading(resumed)) && job in s.rows && MayApply(s.rows[job])
    ensures Reaches(s, Goes(s, me, Committing(resumed || Approved(s.gates, job))), branchOf)
  {
    var t := Next(s, Load(me), branchOf);
    OneStep(s, Load(me), branchOf);
    OneStep(t, Decide(me), branchOf);
    var u := Goes(s, me, Committing(resumed || Approved(s.gates, job)));
    assert Next(t, Decide(me), branchOf).threads == u.threads;
    Onwards(s, t, u, branchOf);
  }

  /** What a commit attempt and a pull request attempt can do to the forge, and where they leave the apply. */
  predicate ForgeTells(s: State, b: Branch, refs: set<Branch>, prs: multiset<Branch>, approved: bool, at: At) {
    || (refs == s.refs && prs == s.prs && (at == Failing || (at == OpeningGate && !approved)))
    || (b !in s.refs && refs == s.refs + {b}
        && ((prs == s.prs && at == Failing) || (prs == s.prs + multiset{b} && at in {Failing, Finishing})))
  }

  lemma Forges(s: State, me: ThreadId, job: JobId, approved: bool, refs: set<Branch>, prs: multiset<Branch>, at: At,
               branchOf: JobId -> Branch)
    requires Is(s, me, job, Committing(approved)) && ForgeTells(s, branchOf(job), refs, prs, approved, at)
    ensures Reaches(s, Goes(s, me, at).(refs := refs, prs := prs), branchOf)
  {
    if refs == s.refs {
      OneStep(s, TryCommit(me, if at == Failing then Refused else Held), branchOf);
    } else {
      var p := if prs == s.prs then NotOpened else if at == Failing then OpenedUnheard else Pr.Opened;
      CommitThenPr(s, me, job, approved, p, branchOf);
    }
  }

  lemma CommitThenPr(s: State, me: ThreadId, job: JobId, approved: bool, p: Pr, branchOf: JobId -> Branch)
    requires Is(s, me, job, Committing(approved)) && branchOf(job) !in s.refs
    ensures var b := branchOf(job);
            Reaches(s, Goes(s, me, if p.Opened? then Finishing else Failing)
                       .(refs := s.refs + {b}, prs := if p.NotOpened? then s.prs else s.prs + multiset{b}), branchOf)
  {
    var b := branchOf(job);
    var t := Next(s, TryCommit(me, Created), branchOf);
    OneStep(s, TryCommit(me, Created), branchOf);
    PrStep(t, me, job, p, branchOf);
    var at := if p.Opened? then Finishing else Failing;
    assert Goes(t, me, at).threads == Goes(s, me, at).threads;
    Onwards(s, t, Goes(t, me, at).(prs := if p.NotOpened? then s.prs else s.prs + multiset{b}), branchOf);
  }

  lemma PrStep(t: State, me: ThreadId, job: JobId, p: Pr, branchOf: JobId -> Branch)
    requires Is(t, me, job, OpeningPr)
    ensures Reaches(t, Goes(t, me, if p.Opened? then Finishing else Failing)
                       .(prs := if p.NotOpened? then t.prs else t.prs + multiset{branchOf(job)}), branchOf)
  {
    OneStep(t, TryPr(me, p), branchOf);
  }

  lemma {:induction false} GatesPlay(s: State, events: seq<GateEvent>, branchOf: JobId -> Branch)
    ensures Reaches(s, s.(gates := Played(s.gates, events)), branchOf)
    decreases |events|
  {
    if events == [] {
      Stays(s, branchOf);
    } else {
      var n := |events| - 1;
      var t := s.(gates := Played(s.gates, events[..n]));
      GatesPlay(s, events[..n], branchOf);
      OneStep(t, GateChanges(events[n]), branchOf);
      Onwards(s, t, s.(gates := Played(s.gates, events)), branchOf);
    }
  }

  /** The gate is opened, unless one is waiting already, and others go on. */
  lemma GateOpens(s: State, me: ThreadId, job: JobId, gate: GateId, findings: seq<string>, later: seq<GateEvent>,
                  branchOf: JobId -> Branch)
    requires Is(s, me, job, OpeningGate)
    ensures var first := AfterGate(s.gates, GateEvent.Opened(gate, HeldOpening(job, findings)));
            Reaches(s, Goes(s, me, Parking).(gates := Played(first, later)), branchOf)
  {
    var t := Next(s, OpenGate(me, gate, findings), branchOf);
    OneStep(s, OpenGate(me, gate, findings), branchOf);
    GatesPlay(t, later, branchOf);
    Onwards(s, t, t.(gates := Played(t.gates, later)), branchOf);
  }

  /** The gate it ran into is closed by others. */
  lemma GateLost(s: State, me: ThreadId, job: JobId, later: seq<GateEvent>, branchOf: JobId -> Branch)
    requires Is(s, me, job, OpeningGate)
    ensures Reaches(s, Leaves(s, me).(gates := Played(s.gates, later)), branchOf)
  {
    var t := s.(gates := Played(s.gates, later));
    GatesPlay(s, later, branchOf);
    OneStep(t, LoseGate(me), branchOf);
    Onwards(s, t, Leaves(s, me).(gates := Played(s.gates, later)), branchOf);
  }

  function Closing(at: At): Stmt {
    match at
    case Finishing => Finish(Done)
    case Parking => ParkForApplyGate
    case _ => Finish(Failed)
  }

  lemma Concludes(s: State, me: ThreadId, job: JobId, at: At, branchOf: JobId -> Branch)
    requires Is(s, me, job, at) && at in {Finishing, Parking, Failing}
    ensures Reaches(s, Leaves(s, me).(rows := Exec(s.rows, job, Closing(at))), branchOf)
  {
    OneStep(s, Conclude(me), branchOf);
  }

  // ---- a whole apply ----

  /** The apply ended with a pull request or failed. */
  predicate Ended(s: State, t: State, job: JobId, b: Branch, at: At) {
    && at in {Finishing, Failing} && t.gates == s.gates && t.rows == Exec(s.rows, job, Closing(at))
    && ForgeTells(s, b, t.refs, t.prs, true, at)
  }

  /** It parked the job at a gate. */
  ghost predicate Parked(s: State, t: State, job: JobId) {
    && t.refs == s.refs && t.prs == s.prs && t.rows == Exec(s.rows, job, ParkForApplyGate)
    && exists gate: GateId, findings: seq<string>, later: seq<GateEvent> ::
         t.gates == Played(AfterGate(s.gates, GateEvent.Opened(gate, HeldOpening(job, findings))), later)
  }

  /** It lost the gate it ran into. */
  ghost predicate Lost(s: State, t: State) {
    t.refs == s.refs && t.prs == s.prs && t.rows == s.rows && exists later :: t.gates == Played(s.gates, later)
  }

  /** What an apply does once it knows whether it was approved: only one that was not is held. */
  ghost predicate Commits(s: State, t: State, job: JobId, approved: bool, b: Branch) {
    || Ended(s, t, job, b, Finishing) || Ended(s, t, job, b, Failing)
    || (!approved && (Parked(s, t, job) || Lost(s, t)))
  }

  /** What an apply does from its load on. */
  ghost predicate Applies(s: State, t: State, job: JobId, resumed: bool, b: Branch) {
    if job in s.rows && MayApply(s.rows[job]) then
      Commits(s, t, job, resumed || Approved(s.gates, job), b)
    else
      t.rows == s.rows && t.gates == s.gates && t.refs == s.refs && t.prs == s.prs
  }

  lemma AppliesFrom(s: State, u: State, t: State, job: JobId, resumed: bool, b: Branch)
    requires Applies(s, t, job, resumed, b)
    requires u.rows == s.rows && u.gates == s.gates && u.refs == s.refs && u.prs == s.prs
    ensures Applies(u, t, job, resumed, b)
  {
    if Parked(s, t, job) {
      assert Parked(u, t, job);
    }
  }

  /** The state with what the apply has changed. */
  function Taken(s: State, t: State): State { s.(rows := t.rows, gates := t.gates, refs := t.refs, prs := t.prs) }

  lemma EndedReaches(s: State, t: State, me: ThreadId, job: JobId, approved: bool, at: At, branchOf: JobId -> Branch)
    requires Is(s, me, job, Committing(approved)) && Ended(s, t, job, branchOf(job), at)
    ensures Reaches(s, Leaves(Taken(s, t), me), branchOf)
  {
    var u := Goes(s, me, at).(refs := t.refs, prs := t.prs);
    Forges(s, me, job, approved, t.refs, t.prs, at, branchOf);
    Concludes(u, me, job, at, branchOf);
    assert u.threads - {me} == s.threads - {me};
    Onwards(s, u, Leaves(Taken(s, t), me), branchOf);
  }

  lemma ParkedReaches(s: State, t: State, me: ThreadId, job: JobId, branchOf: JobId -> Branch)
    requires Is(s, me, job, OpeningGate) && Parked(s, t, job)
    ensures Reaches(s, Leaves(Taken(s, t), me), branchOf)
  {
    var gate: GateId, findings: seq<string>, later: seq<GateEvent> :|
      t.gates == Played(AfterGate(s.gates, GateEvent.Opened(gate, HeldOpening(job, findings))), later);
    var u := Goes(s, me, Parking).(gates := t.gates);
    GateOpens(s, me, job, gate, findings, later, branchOf);
    Concludes(u, me, job, Parking, branchOf);
    assert u.threads - {me} == s.threads - {me};
    Onwards(s, u, Leaves(Taken(s, t), me), branchOf);
  }

  lemma LostReaches(s: State, t: State, me: ThreadId, job: JobId, branchOf: JobId -> Branch)
    requires Is(s, me, job, OpeningGate) && Lost(s, t)
    ensures Reaches(s, Leaves(Taken(s, t), me), branchOf)
  {
    var later :| t.gates == Played(s.gates, later);
    GateLost(s, me, job, later, branchOf);
  }

  lemma HeldReaches(s: State, t: State, me: ThreadId, job: JobId, branchOf: JobId -> Branch)
    requires Is(s, me, job, Committing(false)) && (Parked(s, t, job) || Lost(s, t))
    ensures Reaches(s, Leaves(Taken(s, t), me), branchOf)
  {
    var u := Goes(s, me, OpeningGate);
    Forges(s, me, job, false, s.refs, s.prs, OpeningGate, branchOf);
    if Parked(s, t, job) {
      ParkedReaches(u, t, me, job, branchOf);
    } else {
      LostReaches(u, t, me, job, branchOf);
    }
    assert u.threads - {me} == s.threads - {me};
    Onwards(s, u, Leaves(Taken(s, t), me), branchOf);
  }

  lemma CommittingReaches(s: State, t: State, me: ThreadId, job: JobId, approved: bool, branchOf: JobId -> Branch)
    requires Is(s, me, job, Committing(approved)) && Commits(s, t, job, approved, branchOf(job))
    ensures Reaches(s, Leaves(Taken(s, t), me), branchOf)
  {
    if Ended(s, t, job, branchOf(job), Finishing) {
      EndedReaches(s, t, me, job, approved, Finishing, branchOf);
    } else if Ended(s, t, job, branchOf(job), Failing) {
      EndedReaches(s, t, me, job, approved, Failing, branchOf);
    } else {
      HeldReaches(s, t, me, job, branchOf);
    }
  }

  lemma AppliesReach(s: State, t: State, me: ThreadId, job: JobId, resumed: bool, branchOf: JobId -> Branch)
    requires Is(s, me, job, Loading(resumed)) && Applies(s, t, job, resumed, branchOf(job))
    ensures Reaches(s, Leaves(Taken(s, t), me), branchOf)
  {
    if job !in s.rows || !MayApply(s.rows[job]) {
      OneStep(s, Load(me), branchOf);
    } else {
      var approved := resumed || Approved(s.gates, job);
      var u := Goes(s, me, Committing(approved));
      LoadsAndDecides(s, me, job, resumed, branchOf);
      AppliesFrom(s, u, t, job, resumed, branchOf(job));
      CommittingReaches(u, t, me, job, approved, branchOf);
      assert u.threads - {me} == s.threads - {me};
      Onwards(s, u, Leaves(Taken(s, t), me), branchOf);
    }
  }

  /** The state with those jobs guarded and those applies in flight. */
  function Beside(s: State, guards: set<JobId>, others: map<ThreadId, Thread>): State {
    s.(applying := guards, threads := others)
  }

  /** Whatever other jobs are guarded and whatever other applies are in flight: an apply that is not interrupted is a
      run of the steps they interleave. */
  ghost predicate AmongOthers(s: State, t: State, job: JobId, branchOf: JobId -> Branch) {
    forall guards: set<JobId>, others: map<ThreadId, Thread> | job !in guards ::
      Reaches(Beside(s, guards, others), Beside(t, guards, others), branchOf)
  }

  lemma NothingAmongOthers(s: State, job: JobId, branchOf: JobId -> Branch)
    ensures AmongOthers(s, s, job, branchOf)
  {
    forall guards: set<JobId>, others: map<ThreadId, Thread> | job !in guards
      ensures Reaches(Beside(s, guards, others), Beside(s, guards, others), branchOf)
    {
      Stays(Beside(s, guards, others), branchOf);
    }
  }

  lemma ApplyAmongOthers(s: State, t: State, job: JobId, branchOf: JobId -> Branch)
    requires Applies(s, t, job, false, branchOf(job))
    ensures AmongOthers(s, t, job, branchOf)
  {
    forall guards: set<JobId>, others: map<ThreadId, Thread> | job !in guards
      ensures Reaches(Beside(s, guards, others), Beside(t, guards, others), branchOf)
    {
      var u := Beside(s, guards, others);
      var me := NewThread(others);
      var v := Next(u, StartApply(me, job), branchOf);
      OneStep(u, StartApply(me, job), branchOf);
      Finishes(s, v, t, me, job, false, guards, others, branchOf);
      Onwards(u, v, Beside(t, guards, others), branchOf);
    }
  }

  lemma ResumeAmongOthers(s: State, t: State, job: JobId, branchOf: JobId -> Branch)
    requires Hits(s.rows, job, ResumeApply)
    requires Applies(s.(rows := Exec(s.rows, job, ResumeApply)), t, job, true, branchOf(job))
    ensures AmongOthers(s, t, job, branchOf)
  {
    forall guards: set<JobId>, others: map<ThreadId, Thread> | job !in guards
      ensures Reaches(Beside(s, guards, others), Beside(t, guards, others), branchOf)
    {
      var u := Beside(s, guards, others);
      var me := NewThread(others);
      var v := Resumed(u, me, job, branchOf);
      Finishes(s.(rows := v.rows), v, t, me, job, true, guards, others, branchOf);
      Onwards(u, v, Beside(t, guards, others), branchOf);
    }
  }

  lemma NewThread(others: map<ThreadId, Thread>) returns (me: ThreadId)
    ensures me !in others
  {
    FreshId(others.Keys);
    me :| me !in others;
  }

  lemma Finishes(s: State, v: State, t: State, me: ThreadId, job: JobId, resumed: bool, guards: set<JobId>,
                 others: map<ThreadId, Thread>, branchOf: JobId -> Branch)
    requires Applies(s, t, job, resumed, branchOf(job)) && me !in others && job !in guards
    requires v == Beside(s, guards + {job}, others[me := Thread(job, Loading(resumed))])
    ensures Reaches(v, Beside(t, guards, others), branchOf)
  {
    AppliesFrom(s, v, t, job, resumed, branchOf(job));
    AppliesReach(v, t, me, job, resumed, branchOf);
    assert v.threads - {me} == others && v.applying - {job} == guards;
  }

  lemma Resumed(s: State, me: ThreadId, job: JobId, branchOf: JobId -> Branch) returns (t: State)
    requires me !in s.threads && job !in s.applying && Hits(s.rows, job, ResumeApply)
    ensures t == s.(rows := Exec(s.rows, job, ResumeApply), applying := s.applying + {job},
                    threads := s.threads[me := Thread(job, Loading(true))])
    ensures Reaches(s, t, branchOf)
  {
    var u := Next(s, StartResume(me, job), branchOf);
    OneStep(s, StartResume(me, job), branchOf);
    OneStep(u, Resume(me), branchOf);
    t := Next(u, Resume(me), branchOf);
    Onwards(s, u, t, branchOf);
  }

  // ---- what it means for the pipeline ----

  lemma StepRefines(s: State, e: Step, branchOf: JobId -> Branch)
    requires Enabled(s, e, branchOf) && !e.Statement?
    ensures var t := Next(s, e, branchOf); G.Refines(s.rows, s.gates, t.rows, t.gates)
  {
    match e {
      case Resume(id) => G.StatementRefines(s.rows, s.gates, s.threads[id].job, ResumeApply);
      case Conclude(id) => G.StatementRefines(s.rows, s.gates, s.threads[id].job, Closing(s.threads[id].at));
      case _ =>
        StepGates(s, e, branchOf);
        G.GatesRefine(s.rows, s.gates, GateEvents(s, e));
    }
  }

  lemma {:induction false} RunRefines(s: State, run: seq<Step>, t: State, branchOf: JobId -> Branch)
    requires Own(run) && Runs(s, run, t, branchOf)
    ensures G.Refines(s.rows, s.gates, t.rows, t.gates)
    decreases |run|
  {
    if run == [] {
      G.Stays(s.rows, s.gates);
    } else {
      var u := Next(s, run[0], branchOf);
      StepRefines(s, run[0], branchOf);
      RunRefines(u, run[1..], t, branchOf);
      G.Composes(s.rows, s.gates, u.rows, u.gates, t.rows, t.gates);
    }
  }

  /** Applies alone are runs of the gated pipeline. */
  lemma AmongOthersRefines(s: State, t: State, job: JobId, branchOf: JobId -> Branch)
    requires AmongOthers(s, t, job, branchOf)
    ensures G.Refines(s.rows, s.gates, t.rows, t.gates)
  {
    var (u, v) := (Beside(s, {}, map[]), Beside(t, {}, map[]));
    assert Reaches(u, v, branchOf);
    var run :| Own(run) && Runs(u, run, v, branchOf);
    RunRefines(u, run, v, branchOf);
  }
}
