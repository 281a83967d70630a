// The single way into a terminal status, and its side effects.
module Finalizer {
  import opened Wrappers
  import opened JobStore

  datatype Effect =
    | StatusEvent(job: JobId, status: Status, previous: Status)
    | Revoked(job: JobId, revoker: nat)
    | Terminated(job: JobId, handle: string)

  /** One attempt per revoker, in order. */
  function Revocations(job: JobId, n: nat): seq<Effect> {
    if n == 0 then [] else Revocations(job, n - 1) + [Revoked(job, n - 1)]
  }

  function HandleEffect(job: JobId, handle: Option<string>): seq<Effect> {
    if handle.Some? then [Terminated(job, handle.value)] else []
  }

  /** The handle to tear down: the one read before the flip, else one attached since. */
  function HandleOf(before: Row, after: Row): Option<string> {
    if before.handle.Some? then before.handle else after.handle
  }

  /** The batch that follows a flip. */
  function Batch(job: JobId, before: Row, after: Row, status: Status, revokers: nat): seq<Effect> {
    [StatusEvent(job, status, before.status)] + Revocations(job, revokers) + HandleEffect(job, HandleOf(before, after))
  }

  class SideEffects {
    /** Everything attempted, in order. */
    var log: seq<Effect>
    /** Failures reported to the error sink. */
    var reported: nat
    const fails: Effect -> bool
    const revokers: nat

    constructor (fails: Effect -> bool, revokers: nat)
      ensures log == [] && reported == 0 && this.fails == fails && this.revokers == revokers
    {
      log, reported, this.fails, this.revokers := [], 0, fails, revokers;
    }

    /** A failing side effect is reported and stops nothing. */
    method Attempt(e: Effect)
      modifies this
      ensures log == old(log) + [e] && reported == old(reported) + if fails(e) then 1 else 0
    {
      log := log + [e];
      if fails(e) {
        reported := reported + 1;
      }
    }

    /** Best effort: one revoker's failure does not stop the others. */
    method RevokeAll(job: JobId)
      modifies this
      ensures log == old(log) + Revocations(job, revokers) && reported <= old(reported) + revokers
    {
      for k := 0 to revokers
        invariant log == old(log) + Revocations(job, k) && reported <= old(reported) + k
      {
        Attempt(Revoked(job, k));
      }
    }
  }

  /** The status event, the revocations and the teardown, in this order. */
  method RunBatch(fx: SideEffects, job: JobId, before: Row, after: Row, status: Status)
    modifies fx
    ensures fx.log == old(fx.log) + Batch(job, before, after, status, fx.revokers)
  {
    fx.Attempt(StatusEvent(job, status, before.status));
    fx.RevokeAll(job);
    var handle := HandleOf(before, after);
    if handle.Some? {
      fx.Attempt(Terminated(job, handle.value));
    }
  }

  /** A live job ends this way: `meanwhile` happens between the read and the guarded flip. */
  predicate Flips(rows: Rows, meanwhile: seq<(JobId, Stmt)>, job: JobId, status: Status) {
    && job in rows && !Terminal(rows[job].status) && Terminal(status)
    && Matches(ExecAll(rows, meanwhile)[job], Finish(status))
  }

  /** Move a job to a terminal status; the side effects run only if this call did the flip. */
  method FinalizeDevJobDetailed(store: DevJobStore, fx: SideEffects, job: JobId, status: Status,
                                meanwhile: seq<(JobId, Stmt)>)
    returns (transitioned: bool)
    requires Terminal(status)
    modifies store`rows, fx
    ensures transitioned == Flips(old(store.rows), meanwhile, job, status)
    ensures job !in old(store.rows) || Terminal(old(store.rows[job]).status) ==>
              store.rows == old(store.rows)
    ensures job in old(store.rows) && !Terminal(old(store.rows[job]).status) ==>
              store.rows == Exec(ExecAll(old(store.rows), meanwhile), job, Finish(status))
    ensures job in store.rows <==> job in old(store.rows)
    ensures fx.log == old(fx.log) + if transitioned
                                    then Batch(job, old(store.rows[job]), store.rows[job], status, fx.revokers)
                                    else []
  {
    if job !in store.rows || Terminal(store.rows[job].status) {
      return false;
    }
    var before := store.rows[job];
    store.Others(meanwhile);
    transitioned := store.FinishTerminal(job, status);
    if transitioned {
      RunBatch(fx, job, before, store.rows[job], status);
    }
  }

  /** The same with nothing in between: the job is terminal afterwards, in the status it had or in this one. */
  method FinalizeDevJob(store: DevJobStore, fx: SideEffects, job: JobId, status: Status)
    requires Terminal(status)
    modifies store`rows, fx
    ensures store.rows == Exec(old(store.rows), job, Finish(status))
    ensures job in store.rows ==>
              store.rows[job].status ==
              if Terminal(old(store.rows[job]).status) then old(store.rows[job]).status else status
  {
    var done := FinalizeDevJobDetailed(store, fx, job, status, []);
  }

  // ---- many finalizers of one job at once ----

  type FinalizerId = nat

  /** Where a finalizer is; after its read it carries the handle it saw. */
  datatype At =
    | Reading
    | Writing(before: Option<string>)
    | Announcing(handle: Option<string>)
    | Revoking(handle: Option<string>)
    | TearingDown(handle: Option<string>)

  /** The job's row, the finalizers under way, and who did what so far, in order. */
  datatype State = State(row: Row, calls: map<FinalizerId, At>, next: FinalizerId, flips: seq<FinalizerId>,
                         events: seq<FinalizerId>, revocations: seq<FinalizerId>, teardowns: seq<FinalizerId>,
                         handles: map<FinalizerId, Option<string>>, parks: nat)

  function Idle(row: Row): State { State(row, map[], 0, [], [], [], [], map[], 0) }

  datatype Step =
    | Begin
    | Read(id: FinalizerId)                   // an already terminal job ends the call
    | Write(id: FinalizerId, status: Status)  // the guarded update decides who flipped the job
    | Announce(id: FinalizerId)
    | Revoke(id: FinalizerId)
    | TearDown(id: FinalizerId)
    | OtherStatement(stmt: Stmt)
    | Crash

  predicate Enabled(s: State, e: Step) {
    match e
    case Read(id) => id in s.calls && s.calls[id].Reading?
    case Write(id, st) => id in s.calls && s.calls[id].Writing? && Terminal(st)
    case Announce(id) => id in s.calls && s.calls[id].Announcing?
    case Revoke(id) => id in s.calls && s.calls[id].Revoking?
    case TearDown(id) => id in s.calls && s.calls[id].TearingDown?
    case OtherStatement(stmt) => !stmt.Finish?
    case _ => true
  }

  function Ends(s: State, id: FinalizerId): State { s.(calls := s.calls - {id}) }

  function Next(s: State, e: Step): State
    requires Enabled(s, e)
  {
    match e
    case Begin => s.(calls := s.calls[s.next := Reading], next := s.next + 1)
    case Read(id) =>
      if Terminal(s.row.status) then Ends(s, id) else s.(calls := s.calls[id := Writing(s.row.handle)])
    case Write(id, st) =>
      if Matches(s.row, Finish(st)) then
        var handle := if s.calls[id].before.Some? then s.calls[id].before else s.row.handle;
        s.(row := Written(s.row, Finish(st)), calls := s.calls[id := Announcing(handle)], flips := s.flips + [id],
           handles := s.handles[id := handle])
      else Ends(s, id)
    case Announce(id) => s.(calls := s.calls[id := Revoking(s.calls[id].handle)], events := s.events + [id])
    case Revoke(id) =>
      var t := s.(revocations := s.revocations + [id]);
      if s.calls[id].handle.Some? then t.(calls := t.calls[id := TearingDown(s.calls[id].handle)]) else Ends(t, id)
    case TearDown(id) => Ends(s.(teardowns := s.teardowns + [id]), id)
    case OtherStatement(stmt) =>
      if Matches(s.row, stmt)
      then s.(row := Written(s.row, stmt), parks := s.parks + if Terminal(s.row.status) then 1 else 0)
      else s
    case Crash => s.(calls := map[])
  }

  ghost predicate Runs(s: State, run: seq<Step>, t: State)
    decreases |run|
  {
    if run == [] then t == s else Enabled(s, run[0]) && Runs(Next(s, run[0]), run[1..], t)
  }

  /** No one twice. */
  ghost predicate Once(ids: seq<FinalizerId>) { forall i, k | 0 <= i < k < |ids| :: ids[i] != ids[k] }

  /** How far each finalizer that flipped the job has come with its batch; the others have done nothing. */
  ghost predicate Tallied(s: State, id: FinalizerId) {
    && (id in s.flips <==> id in s.handles)
    && (id in s.teardowns ==> id in s.revocations && id in s.handles && s.handles[id].Some?)
    && (id in s.revocations ==> id in s.events)
    && (id in s.events ==> id in s.flips)
    && (id in s.flips ==> id < s.next)
    && (id in s.calls ==> id < s.next && StandsRight(s, id, s.calls[id]))
  }

  ghost predicate StandsRight(s: State, id: FinalizerId, at: At) {
    match at
    case Reading => id !in s.flips
    case Writing(_) => id !in s.flips
    case Announcing(h) => id in s.flips && id !in s.events && id in s.handles && s.handles[id] == h
    case Revoking(h) => id in s.events && id !in s.revocations && id in s.handles && s.handles[id] == h
    case TearingDown(h) =>
      id in s.revocations && id !in s.teardowns && id in s.handles && s.handles[id] == h && h.Some?
  }

  /** Flips and parks out of `failed` balance, and nothing is done twice by one finalizer. */
  ghost predicate Balanced(s: State) {
    && |s.flips| == s.parks + (if Terminal(s.row.status) then 1 else 0)
    && Once(s.flips) && Once(s.events) && Once(s.revocations) && Once(s.teardowns)
    && forall id :: Tallied(s, id)
  }

  lemma OnceMore(ids: seq<FinalizerId>, id: FinalizerId)
    requires Once(ids) && id !in ids
    ensures Once(ids + [id])
  {
  }

  lemma StatementBalanced(s: State, stmt: Stmt)
    requires Balanced(s) && Enabled(s, OtherStatement(stmt))
    ensures Balanced(Next(s, OtherStatement(stmt)))
  {
    var t := Next(s, OtherStatement(stmt));
    if Matches(s.row, stmt) && Terminal(s.row.status) {
      OnlyParkLeavesTerminal(s.row, stmt);
    }
    forall id ensures Tallied(t, id) {
      assert Tallied(s, id);
    }
  }

  lemma WriteBalanced(s: State, id: FinalizerId, status: Status)
    requires Balanced(s) && Enabled(s, Write(id, status))
    ensures Balanced(Next(s, Write(id, status)))
  {
    var t := Next(s, Write(id, status));
    assert Tallied(s, id);
    OnceMore(s.flips, id);
    forall k ensures Tallied(t, k) {
      assert Tallied(s, k);
    }
  }

  lemma BatchBalanced(s: State, e: Step)
    requires Balanced(s) && Enabled(s, e) && (e.Announce? || e.Revoke? || e.TearDown?)
    ensures Balanced(Next(s, e))
  {
    var t := Next(s, e);
    var id := match e case Announce(id) => id case Revoke(id) => id case TearDown(id) => id;
    assert Tallied(s, id);
    if e.Announce? { OnceMore(s.events, id); }
    if e.Revoke? { OnceMore(s.revocations, id); }
    if e.TearDown? { OnceMore(s.teardowns, id); }
    forall k ensures Tallied(t, k) {
      assert Tallied(s, k);
    }
  }

  lemma StepBalanced(s: State, e: Step)
    requires Balanced(s) && Enabled(s, e)
    ensures Balanced(Next(s, e))
  {
    match e {
      case Write(id, status) => WriteBalanced(s, id, status);
      case Announce(_) => BatchBalanced(s, e);
      case Revoke(_) => BatchBalanced(s, e);
      case TearDown(_) => BatchBalanced(s, e);
      case OtherStatement(stmt) => StatementBalanced(s, stmt);
      case Begin =>
        forall k ensures Tallied(Next(s, e), k) {
          assert Tallied(s, k);
        }
      case Read(_) =>
        forall k ensures Tallied(Next(s, e), k) {
          assert Tallied(s, k);
        }
      case Crash =>
        forall k ensures Tallied(Next(s, e), k) {
          assert Tallied(s, k);
        }
    }
  }

  lemma {:induction false} RunBalanced(s: State, run: seq<Step>, t: State)
    requires Balanced(s) && Runs(s, run, t)
    ensures Balanced(t)
    decreases |run|
  {
    if run != [] {
      StepBalanced(s, run[0]);
      RunBalanced(Next(s, run[0]), run[1..], t);
    }
  }

  /** With any number of finalizers racing over a live job: flips minus parks out of `failed` is 1 while the job
      is terminal and 0 otherwise; each flip runs its batch at most once, in order, and a call that did not flip
      the job runs no part of one; a teardown takes a handle. */
  lemma FlipsBalance(row: Row, run: seq<Step>, t: State, id: FinalizerId)
    requires !Terminal(row.status) && Runs(Idle(row), run, t)
    ensures |t.flips| - t.parks == if Terminal(t.row.status) then 1 else 0
    ensures Once(t.flips) && Once(t.events) && Once(t.revocations) && Once(t.teardowns)
    ensures id in t.teardowns ==> id in t.revocations && id in t.handles && t.handles[id].Some?
    ensures (id in t.revocations ==> id in t.events) && (id in t.events ==> id in t.flips)
  {
    forall k ensures Tallied(Idle(row), k) {
    }
    RunBalanced(Idle(row), run, t);
    assert Tallied(t, id);
  }

  /** A flip whose batch is neither complete nor under way. */
  ghost predicate Pending(s: State, id: FinalizerId) {
    && (id in s.flips && id !in s.events ==> id in s.calls && s.calls[id].Announcing?)
    && (id in s.events && id !in s.revocations ==> id in s.calls && s.calls[id].Revoking?)
    && (id in s.revocations && id in s.handles && s.handles[id].Some? && id !in s.teardowns ==>
          id in s.calls && s.calls[id].TearingDown?)
  }

  lemma StepPending(s: State, e: Step, id: FinalizerId)
    requires Balanced(s) && Enabled(s, e) && e != Crash && Pending(s, id)
    ensures Pending(Next(s, e), id)
  {
    assert Tallied(s, id);
  }

  lemma {:induction false} RunPending(s: State, run: seq<Step>, t: State, id: FinalizerId)
    requires Balanced(s) && Runs(s, run, t) && Crash !in run && Pending(s, id)
    ensures Pending(t, id)
    decreases |run|
  {
    if run != [] {
      assert run == [run[0]] + run[1..];
      StepPending(s, run[0], id);
      StepBalanced(s, run[0]);
      RunPending(Next(s, run[0]), run[1..], t, id);
    }
  }

  /** Without crashes nothing is lost: once a finalizer that flipped the job is done, its event, its revocations and,
      if there was a handle, its teardown have all been attempted. */
  lemma NoCrashNoLoss(row: Row, run: seq<Step>, t: State, id: FinalizerId)
    requires !Terminal(row.status) && Runs(Idle(row), run, t) && Crash !in run
    requires id in t.flips && id !in t.calls
    ensures id in t.events && id in t.revocations && id in t.handles && (t.handles[id].Some? <==> id in t.teardowns)
  {
    forall k ensures Tallied(Idle(row), k) {
    }
    RunBalanced(Idle(row), run, t);
    RunPending(Idle(row), run, t, id);
    assert Tallied(t, id);
  }
}
