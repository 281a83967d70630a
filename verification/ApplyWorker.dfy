// Host-side applies: sweep, retry route and gate resume interleaved with everything else that writes rows.
module ApplyWorker {
  import opened Wrappers
  import opened JobStore
  import opened Gates

  type Branch = string
  type ThreadId = nat

  /** Where an apply is: the statement or request it is about to send. */
  datatype At =
    | Resuming                   // the gate resume: flip waiting to applying
    | Loading(resumed: bool)     // read the row
    | Deciding(resumed: bool)    // read whether a diff-policy gate was approved
    | Committing(approved: bool) // checks, policy, blobs, tree, commit and the new ref
    | OpeningPr                  // this apply created the ref
    | Finishing                  // the pull request is open
    | OpeningGate
    | Parking
    | Failing

  datatype Thread = Thread(job: JobId, at: At)

  /** A diff-policy gate pins no plan; its questions are the findings. */
  function HeldOpening(job: JobId, findings: seq<string>): Opening {
    Opening(job, DiffPolicyGate, None, None, findings)
  }

  datatype State = State(rows: Rows, gates: GateRows, applying: set<JobId>, threads: map<ThreadId, Thread>,
                         refs: set<Branch>, prs: multiset<Branch>)

  /** What the forge and the policy make of a commit, and the forge of a pull request. An approved upload is never
      held (`DiffApply.PrecheckMeans`). */
  datatype Commit = Created | CreatedUnheard | Refused | Held

  datatype Pr = Opened | OpenedUnheard | NotOpened

  datatype Step =
    | StartApply(id: ThreadId, job: JobId)
    | StartResume(id: ThreadId, job: JobId)
    | Resume(id: ThreadId)
    | Load(id: ThreadId)
    | Decide(id: ThreadId)
    | TryCommit(id: ThreadId, commit: Commit)
    | TryPr(id: ThreadId, pr: Pr)
    | OpenGate(id: ThreadId, gate: GateId, findings: seq<string>)
    | LoseGate(id: ThreadId)                             // the gate it ran into was closed meanwhile: the apply throws
    | Conclude(id: ThreadId)
    | Statement(job: JobId, stmt: Stmt)
    | GateChanges(event: GateEvent)
    | Crash

  predicate IsAt(s: State, id: ThreadId, at: At) { id in s.threads && s.threads[id].at == at }

  /** A row an apply may work on: ready, or failed with its diff still stored. */
  predicate MayApply(r: Row) { r.status == Applying || (r.status == Failed && r.diff) }

  predicate Enabled(s: State, e: Step, branchOf: JobId -> Branch) {
    match e
    case StartApply(id, j) => id !in s.threads && j !in s.applying
    case StartResume(id, j) => id !in s.threads && j !in s.applying
    case Resume(id) => IsAt(s, id, Resuming)
    case Load(id) => id in s.threads && s.threads[id].at.Loading?
    case Decide(id) => id in s.threads && s.threads[id].at.Deciding?
    case TryCommit(id, c) =>
      && id in s.threads && s.threads[id].at.Committing?
      && (c in {Created, CreatedUnheard} ==> branchOf(s.threads[id].job) !in s.refs)
      && (c == Held ==> !s.threads[id].at.approved)
    case TryPr(id, _) => IsAt(s, id, OpeningPr)
    case OpenGate(id, _, _) => IsAt(s, id, OpeningGate)
    case LoseGate(id) => IsAt(s, id, OpeningGate)
    case Conclude(id) => id in s.threads && s.threads[id].at in {Finishing, Parking, Failing}
    case _ => true
  }

  function Goes(s: State, id: ThreadId, at: At): State
    requires id in s.threads
  {
    s.(threads := s.threads[id := s.threads[id].(at := at)])
  }

  /** The apply is over: its guard is released. */
  function Leaves(s: State, id: ThreadId): State
    requires id in s.threads
  {
    s.(threads := s.threads - {id}, applying := s.applying - {s.threads[id].job})
  }

  function Next(s: State, e: Step, branchOf: JobId -> Branch): State
    requires Enabled(s, e, branchOf)
  {
    match e
    case StartApply(id, j) => s.(applying := s.applying + {j}, threads := s.threads[id := Thread(j, Loading(false))])
    case StartResume(id, j) => s.(applying := s.applying + {j}, threads := s.threads[id := Thread(j, Resuming)])
    case Resume(id) =>
      var j := s.threads[id].job;
      if Hits(s.rows, j, ResumeApply) then Goes(s, id, Loading(true)).(rows := Exec(s.rows, j, ResumeApply))
      else Leaves(s, id)
    case Load(id) =>
      var j := s.threads[id].job;
      if j in s.rows && MayApply(s.rows[j]) then Goes(s, id, Deciding(s.threads[id].at.resumed)) else Leaves(s, id)
    case Decide(id) => Goes(s, id, Committing(s.threads[id].at.resumed || Approved(s.gates, s.threads[id].job)))
    case TryCommit(id, c) =>
      var b := branchOf(s.threads[id].job);
      (match c
       case Created => Goes(s, id, OpeningPr).(refs := s.refs + {b})
       case CreatedUnheard => Goes(s, id, Failing).(refs := s.refs + {b})
       case Refused => Goes(s, id, Failing)
       case Held => Goes(s, id, OpeningGate))
    case TryPr(id, p) =>
      var b := branchOf(s.threads[id].job);
      (match p
       case Opened => Goes(s, id, Finishing).(prs := s.prs + multiset{b})
       case OpenedUnheard => Goes(s, id, Failing).(prs := s.prs + multiset{b})
       case NotOpened => Goes(s, id, Failing))
    case OpenGate(id, g, findings) =>
      Goes(s, id, Parking).(gates := AfterGate(s.gates, GateEvent.Opened(g, HeldOpening(s.threads[id].job, findings))))
    case LoseGate(id) => Leaves(s, id)
    case Conclude(id) =>
      var stmt := match s.threads[id].at
                  case Finishing => Finish(Done)
                  case Parking => ParkForApplyGate
                  case _ => Finish(Failed);
      Leaves(s, id).(rows := Exec(s.rows, s.threads[id].job, stmt))
    case Statement(j, stmt) => s.(rows := Exec(s.rows, j, stmt))
    case GateChanges(x) => s.(gates := AfterGate(s.gates, x))
    case Crash => s.(threads := map[], applying := {})
  }

  ghost predicate Runs(s: State, run: seq<Step>, t: State, branchOf: JobId -> Branch)
    decreases |run|
  {
    if run == [] then t == s
    else Enabled(s, run[0], branchOf) && Runs(Next(s, run[0], branchOf), run[1..], t, branchOf)
  }

  // ---- one apply per job, one pull request per branch ----

  /** A job is guarded exactly while one apply of it is in flight. */
  ghost predicate Guarded(s: State) {
    && (forall i, k | i in s.threads && k in s.threads && i != k :: s.threads[i].job != s.threads[k].job)
    && (forall j :: j in s.applying <==> exists i :: i in s.threads && s.threads[i].job == j)
  }

  /** Opening a pull request takes having created the branch, and a branch is created once. */
  ghost predicate PrsSound(s: State, branchOf: JobId -> Branch) {
    && (forall b :: s.prs[b] <= 1 && (s.prs[b] > 0 ==> b in s.refs))
    && (forall i | i in s.threads && s.threads[i].at == OpeningPr ::
          branchOf(s.threads[i].job) in s.refs && s.prs[branchOf(s.threads[i].job)] == 0)
    && (forall i, k | i in s.threads && k in s.threads && i != k
                      && s.threads[i].at == OpeningPr && s.threads[k].at == OpeningPr ::
          branchOf(s.threads[i].job) != branchOf(s.threads[k].job))
    && (forall i | i in s.threads && s.threads[i].at == Finishing :: s.prs[branchOf(s.threads[i].job)] == 1)
  }

  ghost predicate SameJobs(s: State, t: State) {
    && t.applying == s.applying && t.threads.Keys == s.threads.Keys
    && forall i | i in s.threads :: t.threads[i].job == s.threads[i].job
  }

  lemma SameJobsGuarded(s: State, t: State)
    requires Guarded(s) && SameJobs(s, t)
    ensures Guarded(t)
  {
    forall j ensures j in t.applying <==> exists i :: i in t.threads && t.threads[i].job == j {
      if j in t.applying {
        var i :| i in s.threads && s.threads[i].job == j;
        assert t.threads[i].job == j;
      }
    }
  }

  lemma LeavesGuarded(s: State, id: ThreadId)
    requires Guarded(s) && id in s.threads
    ensures Guarded(Leaves(s, id))
  {
    var t := Leaves(s, id);
    forall j ensures j in t.applying <==> exists i :: i in t.threads && t.threads[i].job == j {
      if j in t.applying {
        var i :| i in s.threads && s.threads[i].job == j;
        assert i in t.threads && t.threads[i].job == j;
      }
    }
  }

  lemma StartsGuarded(s: State, id: ThreadId, thread: Thread)
    requires Guarded(s) && id !in s.threads && thread.job !in s.applying
    ensures Guarded(s.(applying := s.applying + {thread.job}, threads := s.threads[id := thread]))
  {
    var t := s.(applying := s.applying + {thread.job}, threads := s.threads[id := thread]);
    forall j ensures j in t.applying <==> exists i :: i in t.threads && t.threads[i].job == j {
      if j in s.applying {
        var i :| i in s.threads && s.threads[i].job == j;
        assert t.threads[i].job == j;
      }
      assert t.threads[id].job == thread.job;
    }
  }

  lemma StepGuarded(s: State, e: Step, branchOf: JobId -> Branch)
    requires Guarded(s) && Enabled(s, e, branchOf)
    ensures Guarded(Next(s, e, branchOf))
  {
    match e {
      case StartApply(id, j) => StartsGuarded(s, id, Thread(j, Loading(false)));
      case StartResume(id, j) => StartsGuarded(s, id, Thread(j, Resuming));
      case Statement(_, _) => SameJobsGuarded(s, Next(s, e, branchOf));
      case GateChanges(_) => SameJobsGuarded(s, Next(s, e, branchOf));
      case Crash =>
      case _ => ThreadGuarded(s, e, branchOf);
    }
  }

  /** A step of an apply that is in flight. */
  predicate OfThread(e: Step) {
    !e.StartApply? && !e.StartResume? && !e.Statement? && !e.GateChanges? && !e.Crash?
  }

  /** It goes on with the same job or is over. */
  predicate GoesOrLeaves(s: State, t: State, id: ThreadId) {
    id in s.threads &&
    ((t.applying == s.applying && id in t.threads && t.threads == Goes(s, id, t.threads[id].at).threads)
     || (t.applying == Leaves(s, id).applying && t.threads == Leaves(s, id).threads))
  }

  lemma ThreadGoesOrLeaves(s: State, e: Step, branchOf: JobId -> Branch)
    requires OfThread(e) && Enabled(s, e, branchOf)
    ensures GoesOrLeaves(s, Next(s, e, branchOf), e.id)
  {
  }

  lemma ThreadGuarded(s: State, e: Step, branchOf: JobId -> Branch)
    requires Guarded(s) && OfThread(e) && Enabled(s, e, branchOf)
    ensures Guarded(Next(s, e, branchOf))
  {
    ThreadGoesOrLeaves(s, e, branchOf);
    GoesOrLeavesGuarded(s, Next(s, e, branchOf), e.id);
  }

  lemma GoesOrLeavesGuarded(s: State, t: State, id: ThreadId)
    requires Guarded(s) && GoesOrLeaves(s, t, id)
    ensures Guarded(t)
  {
    if t.applying == s.applying && id in t.threads {
      SameJobsGuarded(s, t);
    } else {
      LeavesGuarded(s, id);
    }
  }

  /** The apply that creates the branch is the only one that may open its pull request. */
  lemma CommitPrsSound(s: State, id: ThreadId, c: Commit, branchOf: JobId -> Branch)
    requires PrsSound(s, branchOf) && Enabled(s, TryCommit(id, c), branchOf)
    ensures PrsSound(Next(s, TryCommit(id, c), branchOf), branchOf)
  {
  }

  lemma PrPrsSound(s: State, id: ThreadId, p: Pr, branchOf: JobId -> Branch)
    requires PrsSound(s, branchOf) && Enabled(s, TryPr(id, p), branchOf)
    ensures PrsSound(Next(s, TryPr(id, p), branchOf), branchOf)
  {
  }

  lemma StepPrsSound(s: State, e: Step, branchOf: JobId -> Branch)
    requires PrsSound(s, branchOf) && Enabled(s, e, branchOf)
    ensures PrsSound(Next(s, e, branchOf), branchOf)
  {
    match e {
      case TryCommit(id, c) => CommitPrsSound(s, id, c, branchOf);
      case TryPr(id, p) => PrPrsSound(s, id, p, branchOf);
      case _ =>
        OnlyPrSteps(s, e, branchOf);
        QuietPrsSound(s, Next(s, e, branchOf), branchOf);
    }
  }

  lemma OnlyPrSteps(s: State, e: Step, branchOf: JobId -> Branch)
    requires !e.TryCommit? && !e.TryPr? && Enabled(s, e, branchOf)
    ensures var t := Next(s, e, branchOf);
            && t.refs == s.refs && t.prs == s.prs
            && forall i | i in t.threads && t.threads[i].at in {OpeningPr, Finishing} ::
                 i in s.threads && s.threads[i] == t.threads[i]
  {
  }

  /** Nothing else touches the forge or sends an apply to a pull request. */
  lemma QuietPrsSound(s: State, t: State, branchOf: JobId -> Branch)
    requires PrsSound(s, branchOf) && t.refs == s.refs && t.prs == s.prs
    requires forall i | i in t.threads && t.threads[i].at in {OpeningPr, Finishing} ::
               i in s.threads && s.threads[i] == t.threads[i]
    ensures PrsSound(t, branchOf)
  {
  }

  lemma {:induction false} RunKeeps(s: State, run: seq<Step>, t: State, branchOf: JobId -> Branch)
    requires Guarded(s) && PrsSound(s, branchOf) && Runs(s, run, t, branchOf)
    ensures Guarded(t) && PrsSound(t, branchOf)
    decreases |run|
  {
    if run != [] {
      StepGuarded(s, run[0], branchOf);
      StepPrsSound(s, run[0], branchOf);
      RunKeeps(Next(s, run[0], branchOf), run[1..], t, branchOf);
    }
  }

  /** However sweeps, retries, gate resumes and crashes interleave: at most one apply of a job is in flight, a job
      is guarded exactly while one is, and a branch never gets a second pull request. */
  lemma OneApplyOnePr(rows: Rows, gates: GateRows, run: seq<Step>, t: State, branchOf: JobId -> Branch, b: Branch)
    requires Runs(State(rows, gates, {}, map[], {}, multiset{}), run, t, branchOf)
    ensures Guarded(t) && t.prs[b] <= 1
  {
    RunKeeps(State(rows, gates, {}, map[], {}, multiset{}), run, t, branchOf);
  }

  // ---- an approved gate is not opened again ----

  /** This apply, if it is one of the job, still has to look at the gates or has seen the approval. */
  ghost predicate Heeds(s: State, id: ThreadId, job: JobId) {
    id in s.threads && s.threads[id].job == job ==>
      && s.threads[id].at !in {OpeningGate, Parking}
      && (s.threads[id].at.Committing? ==> s.threads[id].at.approved)
  }

  lemma StepHeeds(s: State, e: Step, branchOf: JobId -> Branch, id: ThreadId, job: JobId)
    requires Heeds(s, id, job) && Approved(s.gates, job) && Enabled(s, e, branchOf)
    ensures Heeds(Next(s, e, branchOf), id, job)
  {
    if OfThread(e) {
      ThreadHeeds(s, e, branchOf, id, job);
    }
  }

  lemma ThreadHeeds(s: State, e: Step, branchOf: JobId -> Branch, id: ThreadId, job: JobId)
    requires Heeds(s, id, job) && Approved(s.gates, job) && OfThread(e) && Enabled(s, e, branchOf)
    ensures Heeds(Next(s, e, branchOf), id, job)
  {
    ThreadGoesOrLeaves(s, e, branchOf);
    if e.id == id && s.threads[id].job == job {
      OwnHeeds(s, e, branchOf);
    }
  }

  lemma OwnHeeds(s: State, e: Step, branchOf: JobId -> Branch)
    requires OfThread(e) && Enabled(s, e, branchOf)
    requires Heeds(s, e.id, s.threads[e.id].job) && Approved(s.gates, s.threads[e.id].job)
    ensures Heeds(Next(s, e, branchOf), e.id, s.threads[e.id].job)
  {
  }

  lemma StepApproved(s: State, e: Step, branchOf: JobId -> Branch, job: JobId)
    requires OnePending(s.gates) && Approved(s.gates, job) && Enabled(s, e, branchOf)
    ensures OnePending(Next(s, e, branchOf).gates) && Approved(Next(s, e, branchOf).gates, job)
  {
    var x := GateEvents(s, e);
    StepGates(s, e, branchOf);
    PlayedKeepsOne(s.gates, x);
    ApprovalStays(s.gates, x, job);
  }

  /** What a step does to the gates. */
  function GateEvents(s: State, e: Step): seq<GateEvent> {
    match e
    case GateChanges(event) => [event]
    case OpenGate(id, g, findings) =>
      if id in s.threads then [GateEvent.Opened(g, HeldOpening(s.threads[id].job, findings))] else []
    case _ => []
  }

  lemma StepGates(s: State, e: Step, branchOf: JobId -> Branch)
    requires Enabled(s, e, branchOf)
    ensures Next(s, e, branchOf).gates == Played(s.gates, GateEvents(s, e))
  {
    var x := GateEvents(s, e);
    if x != [] {
      SingleEvent(s.gates, x[0]);
    }
  }

  /** An apply that has not looked at the gates yet when a diff-policy gate of its job is approved, or that only starts
      later, never ends in a new gate, whatever other applies of the job are doing at that moment. */
  lemma {:induction false} NoNewGateAfterApproval(s: State, run: seq<Step>, t: State, branchOf: JobId -> Branch,
                                                  id: ThreadId, job: JobId)
    requires OnePending(s.gates) && Approved(s.gates, job) && Heeds(s, id, job) && Runs(s, run, t, branchOf)
    ensures Approved(t.gates, job) && Heeds(t, id, job)
    decreases |run|
  {
    if run != [] {
      StepHeeds(s, run[0], branchOf, id, job);
      StepApproved(s, run[0], branchOf, job);
      NoNewGateAfterApproval(Next(s, run[0], branchOf), run[1..], t, branchOf, id, job);
    }
  }
}
