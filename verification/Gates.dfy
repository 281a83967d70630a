// Human gates: one waiting gate per job, each closed once.
module Gates {
  import opened Wrappers
  import opened JobStore

  datatype GateKind = ReviewGate | DiffPolicyGate
  datatype GateStatus = Pending | Resolved | Rejected | Expired | Withdrawn

  /** What a gate is opened with: a review gate pins the stored plan and its hash. */
  datatype Opening = Opening(job: JobId, kind: GateKind, plan: Option<nat>, planSha: Option<string>,
                             questions: seq<string>)

  datatype Gate = Gate(job: JobId, kind: GateKind, opening: Opening, status: GateStatus,
                       answers: Option<seq<string>>, resolvedBy: Option<string>)

  function NewGate(o: Opening): Gate { Gate(o.job, o.kind, o, Pending, None, None) }

  type GateRows = map<GateId, Gate>

  /** The unique index: a job has one waiting gate at most. */
  ghost predicate OnePending(gates: GateRows) {
    forall g, h | g in gates && h in gates && gates[g].status == Pending && gates[h].status == Pending
                  && gates[g].job == gates[h].job :: g == h
  }

  predicate PendingFor(gates: GateRows, job: JobId) {
    exists g | g in gates :: gates[g].job == job && gates[g].status == Pending
  }

  /** An operator approved a diff-policy gate of the job. */
  predicate Approved(gates: GateRows, job: JobId) {
    exists g | g in gates :: gates[g].job == job && gates[g].kind == DiffPolicyGate && gates[g].status == Resolved
  }

  // ---- events ----

  datatype GateEvent =
    | Opened(id: GateId, opening: Opening)
    | Answered(id: GateId, approved: bool, answers: Option<seq<string>>, who: string)
    | Lapsed(id: GateId)
    | Dropped(job: JobId)

  function Closed(g: Gate, approved: bool, answers: Option<seq<string>>, who: string): Gate {
    g.(status := if approved then Resolved else Rejected, answers := answers, resolvedBy := Some(who))
  }

  /** The insert is suppressed by the unique index, the updates by their status guard. */
  function AfterGate(gates: GateRows, e: GateEvent): GateRows {
    match e
    case Opened(id, o) => if id in gates || PendingFor(gates, o.job) then gates else gates[id := NewGate(o)]
    case Answered(id, approved, a, who) =>
      if id in gates && gates[id].status == Pending
      then gates[id := Closed(gates[id], approved, a, who)]
      else gates
    case Lapsed(id) =>
      if id in gates && gates[id].status == Pending then gates[id := gates[id].(status := Expired)] else gates
    case Dropped(job) =>
      map g | g in gates ::
        if gates[g].job == job && gates[g].status == Pending then gates[g].(status := Withdrawn) else gates[g]
  }

  /** This event closes this gate. */
  predicate Closes(gates: GateRows, e: GateEvent, g: GateId) {
    g in gates && gates[g].status == Pending && g in AfterGate(gates, e) && AfterGate(gates, e)[g].status != Pending
  }

  lemma StepKeepsOne(gates: GateRows, e: GateEvent)
    requires OnePending(gates)
    ensures OnePending(AfterGate(gates, e))
    ensures forall g | g in gates && gates[g].status != Pending ::
              g in AfterGate(gates, e) && AfterGate(gates, e)[g] == gates[g]
    ensures forall g | g in gates :: g in AfterGate(gates, e) && AfterGate(gates, e)[g].opening == gates[g].opening
                                     && AfterGate(gates, e)[g].job == gates[g].job
                                     && AfterGate(gates, e)[g].kind == gates[g].kind
    ensures e.Opened? ==> PendingFor(AfterGate(gates, e), e.opening.job) || e.id in gates
  {
    var after := AfterGate(gates, e);
    if e.Opened? && e.id !in gates && !PendingFor(gates, e.opening.job) {
      assert after[e.id].status == Pending;
    }
  }

  function Played(gates: GateRows, run: seq<GateEvent>): GateRows
    decreases |run|
  {
    if run == [] then gates else AfterGate(Played(gates, run[..|run| - 1]), run[|run| - 1])
  }

  /** How many events of the run closed the gate. */
  function Closings(gates: GateRows, run: seq<GateEvent>, g: GateId): nat
    decreases |run|
  {
    if run == [] then 0
    else
      var front := run[..|run| - 1];
      Closings(gates, front, g) + if Closes(Played(gates, front), run[|run| - 1], g) then 1 else 0
  }

  /** However resolvers, the deadline and cancellations race, a job never has two waiting gates, a gate is closed
      by exactly one event, and from then on it never changes. */
  lemma {:induction false} GatesCloseOnce(gates: GateRows, run: seq<GateEvent>, g: GateId)
    requires OnePending(gates)
    ensures OnePending(Played(gates, run))
    ensures g in gates && gates[g].status == Pending ==>
              && g in Played(gates, run)
              && Closings(gates, run, g) == (if Played(gates, run)[g].status == Pending then 0 else 1)
    ensures g in gates && gates[g].status != Pending ==>
              g in Played(gates, run) && Played(gates, run)[g] == gates[g] && Closings(gates, run, g) == 0
    decreases |run|
  {
    if run != [] {
      var front := run[..|run| - 1];
      GatesCloseOnce(gates, front, g);
      StepKeepsOne(Played(gates, front), run[|run| - 1]);
    }
  }

  /** An approval that was given stays given. */
  lemma {:induction false} ApprovalStays(gates: GateRows, run: seq<GateEvent>, job: JobId)
    requires OnePending(gates) && Approved(gates, job)
    ensures Approved(Played(gates, run), job)
    decreases |run|
  {
    var g :| g in gates && gates[g].job == job && gates[g].kind == DiffPolicyGate && gates[g].status == Resolved;
    GatesCloseOnce(gates, run, g);
    assert Played(gates, run)[g] == gates[g];
  }

  // ---- the store ----

  lemma {:induction false} PlayedKeepsOne(gates: GateRows, run: seq<GateEvent>)
    requires OnePending(gates)
    ensures OnePending(Played(gates, run))
    decreases |run|
  {
    if run != [] {
      PlayedKeepsOne(gates, run[..|run| - 1]);
      StepKeepsOne(Played(gates, run[..|run| - 1]), run[|run| - 1]);
    }
  }

  /** There is always an id no gate has. */
  lemma FreshId(ids: set<GateId>)
    ensures exists g: GateId :: g !in ids
  {
    var n := Above(ids);
    assert n !in ids;
  }

  lemma {:induction false} Above(ids: set<GateId>) returns (n: nat)
    ensures forall g | g in ids :: g < n
    decreases |ids|
  {
    n := 0;
    if ids != {} {
      var g :| g in ids;
      var m := Above(ids - {g});
      n := if m <= g then g + 1 else m;
      assert forall k | k in ids :: k == g || k in ids - {g};
    }
  }

  lemma SingleEvent(gates: GateRows, e: GateEvent)
    ensures Played(gates, [e]) == AfterGate(gates, e)
  {
    assert [e][..0] == [];
  }

  class DevJobGateStore {
    var gates: GateRows

    constructor ()
      ensures Valid() && gates == map[]
    {
      gates := map[];
    }

    ghost predicate Valid()
      reads this
    {
      OnePending(gates)
    }

    /** What everybody else does while a caller waits. */
    method Others(events: seq<GateEvent>)
      requires Valid()
      modifies this
      ensures Valid() && gates == Played(old(gates), events)
    {
      PlayedKeepsOne(gates, events);
      for k := 0 to |events|
        invariant gates == Played(old(gates), events[..k])
      {
        assert events[..k + 1][..k] == events[..k];
        gates := AfterGate(gates, events[k]);
      }
      assert events[..|events|] == events;
    }

    /** The waiting gate of the job: a new one under the fresh id, or the one the insert ran into. That one is
        read back in a second statement; nothing is returned (the source throws) if it was closed meanwhile. */
    method Open(id: GateId, opening: Opening, meanwhile: seq<GateEvent>) returns (r: Option<GateId>)
      requires Valid() && id !in gates
      modifies this
      ensures Valid()
      ensures !PendingFor(old(gates), opening.job) ==>
                r == Some(id) && gates == old(gates)[id := NewGate(opening)]
      ensures PendingFor(old(gates), opening.job) ==>
                && gates == Played(old(gates), meanwhile)
                && (r.None? <==> !PendingFor(gates, opening.job))
      ensures r.Some? ==> r.value in gates && gates[r.value].job == opening.job && gates[r.value].status == Pending
      ensures exists events :: gates == Played(old(gates), events)
    {
      SingleEvent(gates, Opened(id, opening));
      if !PendingFor(gates, opening.job) {
        StepKeepsOne(gates, Opened(id, opening));
        gates := gates[id := NewGate(opening)];
        return Some(id);
      }
      Others(meanwhile);
      if !PendingFor(gates, opening.job) {
        return None;
      }
      var found :| found in gates && gates[found].job == opening.job && gates[found].status == Pending;
      r := Some(found);
    }

    /** Compare-and-swap: nothing is returned unless this call closed the gate. */
    method Resolve(id: GateId, approved: bool, who: string, answers: Option<seq<string>>) returns (r: Option<Gate>)
      requires Valid()
      modifies this`gates
      ensures Valid() && gates == AfterGate(old(gates), Answered(id, approved, answers, who))
      ensures r.Some? <==> Closes(old(gates), Answered(id, approved, answers, who), id)
      ensures r.Some? ==> id in gates && r.value == gates[id]
    {
      StepKeepsOne(gates, Answered(id, approved, answers, who));
      if id !in gates || gates[id].status != Pending {
        return None;
      }
      var g := Closed(gates[id], approved, answers, who);
      gates := gates[id := g];
      r := Some(g);
    }

    method Expire(id: GateId) returns (r: Option<Gate>)
      requires Valid()
      modifies this`gates
      ensures Valid() && gates == AfterGate(old(gates), Lapsed(id))
      ensures r.Some? <==> Closes(old(gates), Lapsed(id), id)
      ensures r.Some? ==> id in gates && r.value == gates[id]
    {
      StepKeepsOne(gates, Lapsed(id));
      if id !in gates || gates[id].status != Pending {
        return None;
      }
      gates := gates[id := gates[id].(status := Expired)];
      r := Some(gates[id]);
    }

    method CancelForJob(job: JobId) returns (hit: bool)
      requires Valid()
      modifies this`gates
      ensures Valid() && gates == AfterGate(old(gates), Dropped(job)) && hit == PendingFor(old(gates), job)
      ensures !PendingFor(gates, job)
    {
      StepKeepsOne(gates, Dropped(job));
      hit := PendingFor(gates, job);
      gates := map g | g in gates ::
        if gates[g].job == job && gates[g].status == Pending then gates[g].(status := Withdrawn) else gates[g];
    }

    method HasApprovedApplyGate(job: JobId) returns (yes: bool)
      ensures yes == Approved(gates, job)
    {
      yes := Approved(gates, job);
    }
  }
}
