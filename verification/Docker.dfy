// The docker backend against a daemon that may answer anything.
module Docker {
  import opened Wrappers

  // ---- the daemon ----

  datatype Resources = Resources(containerId: string, networkId: string, volumeName: string, imageDigest: string,
                                 leaseExpiresAt: string)

  datatype Summary = Summary(jobId: string, resources: Resources)

  datatype Body =
    | Jobs(jobs: seq<Summary>)
    | Job(resources: Resources)
    | Lease(until: string)
    | Fault(code: string)
    | Other

  /** A reply, a body over the size cap, or nothing at all. */
  datatype Reply = Response(status: nat, body: Body) | TooLarge | Lost

  datatype Call = Create(job: string) | ListJobs | Remove(job: string) | Renew(job: string)

  datatype Exchange = Exchange(call: Call, reply: Reply)

  predicate Good(reply: Reply) { reply.Response? && 200 <= reply.status < 300 }

  /** A listing that could be read. */
  predicate Readable(reply: Reply) { Good(reply) && reply.body.Jobs? }

  function Find(jobs: seq<Summary>, job: string): (s: Option<Summary>)
    ensures s.Some? ==> s.value in jobs && s.value.jobId == job
    ensures s.None? ==> forall k | 0 <= k < |jobs| :: jobs[k].jobId != job
  {
    if jobs == [] then None else if jobs[0].jobId == job then Some(jobs[0]) else Find(jobs[1..], job)
  }

  /** Of entries for the same job the last one counts when a listing is read into a map. */
  function FindLast(jobs: seq<Summary>, job: string): (s: Option<Summary>)
    ensures s.Some? ==> exists k | 0 <= k < |jobs| ::
              jobs[k] == s.value && s.value.jobId == job && forall i | k < i < |jobs| :: jobs[i].jobId != job
    ensures s.None? ==> forall k | 0 <= k < |jobs| :: jobs[k].jobId != job
    decreases |jobs|
  {
    if jobs == [] then None
    else
      var last := jobs[|jobs| - 1];
      if last.jobId == job then Some(last) else FindLast(jobs[..|jobs| - 1], job)
  }

  predicate Lists(reply: Reply, job: string) { Readable(reply) && Find(reply.body.jobs, job).Some? }

  predicate Lacks(reply: Reply, job: string) { Readable(reply) && Find(reply.body.jobs, job).None? }

  // ---- errors ----

  datatype Code =
    | SpecRejected | Unauthorized | JobNotFound | JobCancelled | AtCapacity | CleanupFailed | Unreachable | EngineError
    | OffContract | BodyTooLarge | OrphanUnproven | WrongBackend | MalformedHandle

  datatype BackendError = BackendError(code: Code, retryable: bool, keepHandle: bool)

  function Plain(code: Code): BackendError { BackendError(code, false, false) }

  function MapDaemonError(status: nat, body: Body): BackendError {
    if status == 400 then Plain(SpecRejected)
    else if status == 401 || status == 403 then Plain(Unauthorized)
    else if status == 404 then Plain(JobNotFound)
    else if status == 409 then Plain(JobCancelled)
    else if status == 429 then BackendError(AtCapacity, true, false)
    else if status == 502 && body == Fault("daemon.cleanup_failed") then BackendError(CleanupFailed, false, true)
    else if status == 503 then BackendError(Unreachable, true, false)
    else Plain(EngineError)
  }

  /** What went wrong with a reply that did not give what was asked for. */
  function ErrorOf(reply: Reply): BackendError {
    match reply
    case Lost => Plain(Unreachable)
    case TooLarge => Plain(BodyTooLarge)
    case Response(status, body) => if Good(reply) then Plain(OffContract) else MapDaemonError(status, body)
  }

  /** Only 429 and 503 promise that nothing was created, only a failed clean-up keeps the handle, and only a
      reply that never came leads to another create. */
  lemma ErrorBits(reply: Reply)
    ensures ErrorOf(reply).retryable <==> reply.Response? && reply.status in {429, 503}
    ensures ErrorOf(reply).keepHandle <==>
            reply.Response? && reply.status == 502 && reply.body == Fault("daemon.cleanup_failed")
    ensures ErrorOf(reply) == Plain(Unreachable) <==> reply == Lost
  {
  }

  // ---- handles ----

  datatype Handle = Handle(jobId: string, resources: Resources)

  /** A handle as the database holds it; missing fields are empty. */
  datatype Stored = Stored(backend: string, id: string, jobId: string, resources: Resources)

  function AsDockerHandle(s: Stored): Option<Handle> {
    var r := s.resources;
    if s.backend != "docker" || "" in {s.id, s.jobId, r.containerId, r.networkId, r.volumeName, r.imageDigest} then None
    else if s.id != s.jobId then None
    else Some(Handle(s.jobId, r))
  }

  /** The same handle with another lease time. */
  function Extended(h: Handle, until: string): Handle { h.(resources := h.resources.(leaseExpiresAt := until)) }

  // ---- provisioning, as a function of the daemon's answers ----

  type Answers = nat -> Reply

  datatype Run = Run(log: seq<Exchange>, result: Result<Handle, BackendError>)

  function Ask(env: Answers, log: seq<Exchange>, call: Call): seq<Exchange> {
    log + [Exchange(call, env(|log|))]
  }

  /** A retryable failure is only passed on when a listing shows that nothing was created. */
  function ConfirmAbsentOrAdopt(job: string, env: Answers, log: seq<Exchange>, error: BackendError): Run {
    var reply := env(|log|);
    Run(Ask(env, log, ListJobs),
        if !Readable(reply) then Err(Plain(OrphanUnproven))
        else
          match Find(reply.body.jobs, job)
          case Some(s) => Ok(Handle(job, s.resources))
          case None => Err(error))
  }

  /** Create, with `left` more attempts after a lost reply. */
  function CreateJob(job: string, env: Answers, log: seq<Exchange>, left: nat): Run
    decreases left, 1
  {
    var reply := env(|log|);
    var log' := Ask(env, log, Create(job));
    if Good(reply) && reply.body.Job? then Run(log', Ok(Handle(job, reply.body.resources)))
    else
      var error := ErrorOf(reply);
      if error.retryable then ConfirmAbsentOrAdopt(job, env, log', error)
      else if error.code != Unreachable then Run(log', Err(error))
      else if left == 0 then Run(log', Err(error))
      else Recreate(job, env, log', left - 1)
  }

  /** After a lost reply: look for the job first; a listing that cannot be read counts as not finding it. */
  function Recreate(job: string, env: Answers, log: seq<Exchange>, left: nat): Run
    decreases left, 2
  {
    var reply := env(|log|);
    var log' := Ask(env, log, ListJobs);
    if Lists(reply, job) then Run(log', Ok(Handle(job, Find(reply.body.jobs, job).value.resources)))
    else CreateJob(job, env, log', left)
  }

  // ---- the backend ----

  datatype Row = Row(id: string, handle: Option<Stored>)

  /** The tracked jobs after a restart: stored handles, with the daemon's view where it lists the job. */
  function Rehydrated(live: map<string, Handle>, rows: seq<Row>, listing: Option<seq<Summary>>): map<string, Handle>
    decreases |rows|
  {
    if rows == [] then live
    else
      var (before, row) := (Rehydrated(live, rows[..|rows| - 1], listing), rows[|rows| - 1]);
      if row.handle.None? then before
      else
        match AsDockerHandle(row.handle.value)
        case None => before
        case Some(h) =>
          if h.jobId != row.id || row.id in before then before
          else
            var seen := Seen(listing, row.id);
            before[row.id := if seen.Some? then Handle(row.id, seen.value.resources) else h]
  }

  /** What the listing, if there is one, says about the job. */
  function Seen(listing: Option<seq<Summary>>, job: string): Option<Summary> {
    if listing.Some? then FindLast(listing.value, job) else None
  }

  /** The row's stored handle belongs to this backend and to this job. */
  predicate Owned(row: Row, job: string) {
    row.id == job && row.handle.Some? && AsDockerHandle(row.handle.value).Some?
    && AsDockerHandle(row.handle.value).value.jobId == job
  }

  /** A stored handle this backend cannot own. */
  predicate Foreign(row: Row) { row.handle.Some? && !Owned(row, row.id) }

  /** Taking this row back, the stored container gives way to the one the daemon runs. */
  predicate Corrected(row: Row, listing: Option<seq<Summary>>) {
    Owned(row, row.id) && Seen(listing, row.id).Some?
    && Seen(listing, row.id).value.resources.containerId != row.handle.value.resources.containerId
  }

  function CountForeign(rows: seq<Row>): nat
    decreases |rows|
  {
    if rows == [] then 0 else CountForeign(rows[..|rows| - 1]) + if Foreign(rows[|rows| - 1]) then 1 else 0
  }

  /** How many of the jobs that are taken back had their container corrected: the first row of each decides. */
  function CountCorrected(live: map<string, Handle>, rows: seq<Row>, listing: Option<seq<Summary>>): nat
    decreases |rows|
  {
    if rows == [] then 0
    else
      var (front, row) := (rows[..|rows| - 1], rows[|rows| - 1]);
      CountCorrected(live, front, listing)
      + if row.id !in Rehydrated(live, front, listing) && Corrected(row, listing) then 1 else 0
  }

  /** The tracked jobs a listing does not show. */
  function LostJobs(live: map<string, Handle>, jobs: seq<Summary>): map<string, Handle> {
    map j | j in live && Find(jobs, j).None? :: live[j]
  }

  /** Part way through a reap: the jobs outside `work` have been looked at. */
  ghost predicate Reaping(live0: map<string, Handle>, terminating0: set<string>, jobs: seq<Summary>, work: set<string>,
                          lost: map<string, Handle>, live: map<string, Handle>, terminating: set<string>) {
    && (forall j :: j in lost <==> j in live0 && j !in work && Find(jobs, j).None?)
    && (forall j | j in lost :: lost[j] == live0[j])
    && (forall j :: j in live <==> j in live0 && j !in lost)
    && (forall j | j in live :: live[j] == live0[j])
    && (forall j :: j in terminating <==> j in terminating0 && j !in lost)
  }

  lemma ReapingStep(live0: map<string, Handle>, terminating0: set<string>, jobs: seq<Summary>, work: set<string>,
                    lost: map<string, Handle>, live: map<string, Handle>, terminating: set<string>, job: string)
    requires Reaping(live0, terminating0, jobs, work, lost, live, terminating) && job in work && job in live0
    ensures job in live
    ensures if Find(jobs, job).None?
            then Reaping(live0, terminating0, jobs, work - {job}, lost[job := live[job]],
                         live - {job}, terminating - {job})
            else Reaping(live0, terminating0, jobs, work - {job}, lost, live, terminating)
  {
  }

  lemma ReapingDone(live0: map<string, Handle>, terminating0: set<string>, jobs: seq<Summary>,
                    lost: map<string, Handle>, live: map<string, Handle>, terminating: set<string>)
    requires Reaping(live0, terminating0, jobs, {}, lost, live, terminating)
    ensures lost == LostJobs(live0, jobs) && live == live0 - lost.Keys && terminating == terminating0 - lost.Keys
  {
  }

  /** The log grew by one renewal for each job, in this order. */
  ghost predicate RenewalsSent(log: seq<Exchange>, before: seq<Exchange>, order: seq<string>) {
    before <= log && |log| == |before| + |order| &&
    forall k | 0 <= k < |order| :: log[|before| + k].call == Renew(order[k])
  }

  /** The same jobs and handles but for lease times, and those only outside `terminating`. */
  ghost predicate OnlyLeases(before: map<string, Handle>, after: map<string, Handle>, terminating: set<string>) {
    && after.Keys == before.Keys
    && forall j | j in before ::
         && after[j] == Extended(before[j], after[j].resources.leaseExpiresAt)
         && (j in terminating ==> after[j] == before[j])
  }

  lemma LeaseAgain(first: map<string, Handle>, before: map<string, Handle>, after: map<string, Handle>,
                   terminating: set<string>, job: string)
    requires OnlyLeases(first, before, terminating) && job in before && job !in terminating
    requires job in after && after == before[job := Extended(before[job], after[job].resources.leaseExpiresAt)]
    ensures OnlyLeases(first, after, terminating)
  {
  }

  lemma RenewalAgain(before: seq<Exchange>, log: seq<Exchange>, env: Answers, order: seq<string>, job: string)
    requires RenewalsSent(log, before, order) && Distinct(order) && job !in order
    ensures RenewalsSent(Ask(env, log, Renew(job)), before, order + [job]) && Distinct(order + [job])
  {
  }

  ghost predicate Distinct(s: seq<string>) { forall i, k | 0 <= i < k < |s| :: s[i] != s[k] }

  /** Part way through a restart: the first `k` rows have been looked at. */
  ghost predicate Rehydrating(live0: map<string, Handle>, rows: seq<Row>, listing: Option<seq<Summary>>, k: nat,
                              live: map<string, Handle>, adopted: nat, skipped: nat, reconciled: nat)
    requires k <= |rows|
  {
    && live == Rehydrated(live0, rows[..k], listing)
    && |live| == |live0| + adopted
    && skipped == CountForeign(rows[..k])
    && reconciled == CountCorrected(live0, rows[..k], listing)
  }

  /** One more row of a restart. */
  lemma RehydrateStep(live: map<string, Handle>, rows: seq<Row>, listing: Option<seq<Summary>>, k: nat)
    requires k < |rows|
    ensures var (before, row) := (Rehydrated(live, rows[..k], listing), rows[k]);
            var after := Rehydrated(live, rows[..k + 1], listing);
            && after == (if Owned(row, row.id) && row.id !in before
                         then before[row.id := if Seen(listing, row.id).Some?
                                               then Handle(row.id, Seen(listing, row.id).value.resources)
                                               else AsDockerHandle(row.handle.value).value]
                         else before)
            && CountForeign(rows[..k + 1]) == CountForeign(rows[..k]) + (if Foreign(row) then 1 else 0)
            && CountCorrected(live, rows[..k + 1], listing) ==
               CountCorrected(live, rows[..k], listing)
               + if row.id !in before && Corrected(row, listing) then 1 else 0
  {
    assert rows[..k + 1][..k] == rows[..k];
  }

  class DockerBackend {
    const env: Answers
    const backoffSteps: nat
    var log: seq<Exchange>
    var live: map<string, Handle>
    var terminating: set<string>

    constructor (env: Answers, backoffSteps: nat)
      ensures log == [] && live == map[] && terminating == {}
    {
      this.env, this.backoffSteps := env, backoffSteps;
      log, live, terminating := [], map[], {};
    }

    method Fetch(call: Call) returns (reply: Reply)
      modifies this`log
      ensures log == Ask(env, old(log), call) && reply == env(|old(log)|)
    {
      reply := env(|log|);
      log := log + [Exchange(call, reply)];
    }

    method TrackHandle(h: Handle)
      modifies this`live
      ensures live == old(live)[h.jobId := h]
    {
      live := live[h.jobId := h];
    }

    /** Provision a job by naming it to the daemon. */
    method Provision(job: string) returns (r: Result<Handle, BackendError>)
      modifies this`log, this`live
      ensures Run(log, r) == CreateJob(job, env, old(log), backoffSteps)
      ensures live == if r.Ok? then old(live)[job := r.value] else old(live)
    {
      ghost var whole := CreateJob(job, env, log, backoffSteps);
      var attempt := 0;
      while true
        invariant attempt <= backoffSteps && live == old(live)
        invariant whole == if attempt == 0 then CreateJob(job, env, log, backoffSteps)
                           else Recreate(job, env, log, backoffSteps - attempt)
        decreases backoffSteps - attempt
      {
        if attempt > 0 {
          var listing := Fetch(ListJobs);
          if Lists(listing, job) {
            var found := Handle(job, Find(listing.body.jobs, job).value.resources);
            TrackHandle(found);
            return Ok(found);
          }
        }
        var reply := Fetch(Create(job));
        if Good(reply) && reply.body.Job? {
          TrackHandle(Handle(job, reply.body.resources));
          return Ok(Handle(job, reply.body.resources));
        }
        var error := ErrorOf(reply);
        if error.retryable {
          var listing := Fetch(ListJobs);
          if !Readable(listing) {
            return Err(Plain(OrphanUnproven));
          }
          var existing := Find(listing.body.jobs, job);
          if existing.Some? {
            TrackHandle(Handle(job, existing.value.resources));
            return Ok(Handle(job, existing.value.resources));
          }
          return Err(error);
        }
        if error.code != Unreachable || attempt == backoffSteps {
          return Err(error);
        }
        attempt := attempt + 1;
      }
    }

    /** Kill a job. From here on its lease is forfeit; its handle goes only when it is proven gone. */
    method Terminate(stored: Stored) returns (r: Result<(), BackendError>)
      modifies this`log, this`live, this`terminating
      ensures stored.backend != "docker" || AsDockerHandle(stored).None? ==>
                r.Err? && log == old(log) && live == old(live) && terminating == old(terminating)
      ensures AsDockerHandle(stored).Some? ==>
                var job := AsDockerHandle(stored).value.jobId;
                var reply := env(|old(log)|);
                && log == old(log) + [Exchange(Remove(job), reply)]
                && (r.Ok? <==> Good(reply) || (reply.Response? && reply.status == 404))
                && live == (if r.Ok? then old(live) - {job} else old(live))
                && terminating == (if r.Ok? then old(terminating) - {job} else old(terminating) + {job})
                && (r.Err? && r.error.keepHandle ==>
                    reply.Response? && reply.status == 502 && reply.body == Fault("daemon.cleanup_failed"))
    {
      if stored.backend != "docker" {
        return Err(Plain(WrongBackend));
      }
      var docker := AsDockerHandle(stored);
      if docker.None? {
        return Err(Plain(MalformedHandle));
      }
      var job := docker.value.jobId;
      terminating := terminating + {job};
      var reply := Fetch(Remove(job));
      if Good(reply) || (reply.Response? && reply.status == 404) {
        live := live - {job};
        terminating := terminating - {job};
        return Ok(());
      }
      r := Err(ErrorOf(reply));
    }

    /** Drop the jobs a readable listing does not show; an unreadable one drops nothing. */
    method Reap() returns (lost: map<string, Handle>)
      modifies this`log, this`live, this`terminating
      ensures old(live) == map[] ==> lost == map[] && log == old(log) && live == old(live)
      ensures old(live) != map[] ==>
                && log == Ask(env, old(log), ListJobs)
                && var reply := env(|old(log)|);
                   lost == if Readable(reply) then LostJobs(old(live), reply.body.jobs) else map[]
      ensures live == old(live) - lost.Keys && terminating == old(terminating) - lost.Keys
    {
      lost := map[];
      if |live| == 0 {
        return;
      }
      var reply := Fetch(ListJobs);
      if !Readable(reply) {
        return;
      }
      var work := live.Keys;
      while work != {}
        invariant log == Ask(env, old(log), ListJobs) && work <= old(live).Keys
        invariant Reaping(old(live), old(terminating), reply.body.jobs, work, lost, live, terminating)
        decreases |work|
      {
        var job :| job in work;
        ReapingStep(old(live), old(terminating), reply.body.jobs, work, lost, live, terminating, job);
        work := work - {job};
        if Find(reply.body.jobs, job).None? {
          lost := lost[job := live[job]];
          Forget(job);
        }
      }
      ReapingDone(old(live), old(terminating), reply.body.jobs, lost, live, terminating);
    }

    method Forget(job: string)
      modifies this`live, this`terminating
      ensures live == old(live) - {job} && terminating == old(terminating) - {job}
    {
      live := live - {job};
      terminating := terminating - {job};
    }

    /** One renewal; only the lease time of that job can change. */
    method RenewOne(job: string)
      requires job in live
      modifies this`log, this`live
      ensures log == Ask(env, old(log), Renew(job))
      ensures job in live && live == old(live)[job := Extended(old(live)[job], live[job].resources.leaseExpiresAt)]
    {
      var reply := Fetch(Renew(job));
      if Good(reply) && reply.body.Lease? {
        live := live[job := Extended(live[job], reply.body.until)];
      }
    }

    /** Renew every tracked lease that is not forfeit, once each. */
    method RenewLeases() returns (ghost order: seq<string>)
      modifies this`log, this`live
      ensures RenewalsSent(log, old(log), order) && Distinct(order)
      ensures forall j :: j in order <==> j in old(live) && j !in terminating
      ensures OnlyLeases(old(live), live, terminating)
    {
      var work := live.Keys;
      order := [];
      while work != {}
        invariant work <= old(live).Keys
        invariant RenewalsSent(log, old(log), order) && Distinct(order)
        invariant forall j :: j in order <==> j in old(live) && j !in terminating && j !in work
        invariant OnlyLeases(old(live), live, terminating)
        decreases |work|
      {
        var job :| job in work;
        work := work - {job};
        if job in terminating { continue; }
        ghost var was := live;
        RenewalAgain(old(log), log, env, order, job);
        RenewOne(job);
        LeaseAgain(old(live), was, live, terminating, job);
        order := order + [job];
      }
    }

    /** Take back a stored handle, if this backend can own it. */
    method Adopt(job: string, stored: Stored) returns (ok: bool)
      modifies this`live
      ensures ok <==> job in old(live) || (AsDockerHandle(stored).Some? && AsDockerHandle(stored).value.jobId == job)
      ensures live == if ok && job !in old(live) then old(live)[job := AsDockerHandle(stored).value] else old(live)
    {
      if job in live {
        return true;
      }
      var docker := AsDockerHandle(stored);
      if docker.None? || docker.value.jobId != job {
        return false;
      }
      TrackHandle(docker.value);
      ok := true;
    }

    /** Rebuild the tracked jobs after a restart, preferring the daemon's view. */
    method Rehydrate(rows: seq<Row>) returns (adopted: nat, skipped: nat, reconciled: nat)
      modifies this`log, this`live
      ensures log == Ask(env, old(log), ListJobs)
      ensures var reply := env(|old(log)|);
              Rehydrating(old(live), rows, if Readable(reply) then Some(reply.body.jobs) else None, |rows|,
                          live, adopted, skipped, reconciled)
    {
      adopted, skipped, reconciled := 0, 0, 0;
      var reply := Fetch(ListJobs);
      var listing := if Readable(reply) then Some(reply.body.jobs) else None;
      for k := 0 to |rows|
        invariant log == Ask(env, old(log), ListJobs)
        invariant Rehydrating(old(live), rows, listing, k, live, adopted, skipped, reconciled)
      {
        var row := rows[k];
        RehydrateStep(old(live), rows, listing, k);
        if row.handle.None? { continue; }
        var persisted := AsDockerHandle(row.handle.value);
        if persisted.None? || persisted.value.jobId != row.id {
          skipped := skipped + 1;
          continue;
        }
        if row.id in live { continue; }
        var seen := Seen(listing, row.id);
        if seen.Some? && seen.value.resources.containerId != persisted.value.resources.containerId {
          reconciled := reconciled + 1;
        }
        TrackHandle(if seen.Some? then Handle(row.id, seen.value.resources) else persisted.value);
        adopted := adopted + 1;
      }
    }
  }

  // ---- provisioning, over every daemon behaviour ----

  predicate IsCreate(x: Exchange, job: string) { x.call == Create(job) }

  /** A retryable failure: the last create was answered 429 or 503, and a listing read after it lacks the job. */
  ghost predicate ProvenAbsent(log: seq<Exchange>, job: string) {
    var n := |log|;
    && n >= 2 && IsCreate(log[n - 2], job) && log[n - 2].reply.Response? && log[n - 2].reply.status in {429, 503}
    && log[n - 1].call == ListJobs && Lacks(log[n - 1].reply, job)
  }

  lemma {:induction false} RetryableProven(job: string, env: Answers, log: seq<Exchange>, left: nat)
    ensures var run := CreateJob(job, env, log, left);
            run.result.Err? && run.result.error.retryable ==> ProvenAbsent(run.log, job)
    decreases left
  {
    var reply := env(|log|);
    var log' := Ask(env, log, Create(job));
    if ErrorOf(reply) == Plain(Unreachable) && left > 0 {
      RetryableProven(job, env, Ask(env, log', ListJobs), left - 1);
    }
  }

  /** Between two creates there is exactly one listing; unless it could not be read, it lacks the job. */
  ghost predicate Spaced(log: seq<Exchange>, from: nat, job: string) {
    forall k | from <= k < |log| && IsCreate(log[k], job) && k > from ::
      && k >= from + 2 && IsCreate(log[k - 2], job) && log[k - 2].reply == Lost
      && log[k - 1].call == ListJobs && !Lists(log[k - 1].reply, job)
  }

  lemma SpacedMore(log: seq<Exchange>, n: nat, job: string)
    requires n + 2 < |log| && Spaced(log, n + 2, job)
    requires IsCreate(log[n], job) && log[n].reply == Lost
    requires log[n + 1].call == ListJobs && !Lists(log[n + 1].reply, job)
    ensures Spaced(log, n, job)
  {
    forall k | n < k < |log| && IsCreate(log[k], job)
      ensures k >= n + 2 && IsCreate(log[k - 2], job) && log[k - 2].reply == Lost
              && log[k - 1].call == ListJobs && !Lists(log[k - 1].reply, job)
    {
      assert k != n + 1;
      if k == n + 2 {
        assert log[k - 2] == log[n] && log[k - 1] == log[n + 1];
      }
    }
  }

  lemma {:induction false} CreatesSpaced(job: string, env: Answers, log: seq<Exchange>, left: nat)
    ensures var run := CreateJob(job, env, log, left);
            && log <= run.log && |run.log| <= |log| + 2 * left + 2
            && |run.log| > |log| && IsCreate(run.log[|log|], job)
            && Spaced(run.log, |log|, job)
    decreases left
  {
    var reply := env(|log|);
    var log' := Ask(env, log, Create(job));
    ErrorBits(reply);
    if reply == Lost && left > 0 {
      var log'' := Ask(env, log', ListJobs);
      if !Lists(env(|log'|), job) {
        CreatesSpaced(job, env, log'', left - 1);
        var run := CreateJob(job, env, log'', left - 1);
        assert log'' <= run.log;
        assert run.log[|log|] == log''[|log|] && run.log[|log| + 1] == log''[|log| + 1];
        SpacedMore(run.log, |log|, job);
      }
    }
  }

  /** A handle always comes from the daemon's last answer: the create itself, or a listing that shows the job. */
  lemma {:induction false} HandleFromLastAnswer(job: string, env: Answers, log: seq<Exchange>, left: nat)
    ensures var run := CreateJob(job, env, log, left);
            |run.log| > 0 &&
            (run.result.Ok? ==>
              var last := run.log[|run.log| - 1];
              && run.result.value.jobId == job
              && (if last.call == Create(job)
                  then Good(last.reply) && last.reply.body == Job(run.result.value.resources)
                  else last.call == ListJobs && Lists(last.reply, job)
                       && Find(last.reply.body.jobs, job).value.resources == run.result.value.resources))
    decreases left
  {
    CreatesSpaced(job, env, log, left);
    var reply := env(|log|);
    var log' := Ask(env, log, Create(job));
    if ErrorOf(reply) == Plain(Unreachable) && left > 0 {
      HandleFromLastAnswer(job, env, Ask(env, log', ListJobs), left - 1);
    }
  }

  /** Every create after the first follows a listing that shows the job absent. */
  ghost predicate ConfirmedBeforeRecreate(log: seq<Exchange>, from: nat, job: string) {
    forall k | from < k < |log| && IsCreate(log[k], job) :: Lacks(log[k - 1].reply, job)
  }

  /** From answer `n` on, the daemon loses the answers to `i + 1` creates and does not list the job in between. */
  ghost predicate KeepsLosing(env: Answers, n: nat, i: nat, job: string) {
    forall k: nat | k <= i :: LosesOnce(env, n + 2 * k, job)
  }

  predicate LosesOnce(env: Answers, n: nat, job: string) { env(n) == Lost && !Lists(env(n + 1), job) }

  predicate ReadableAfter(env: Answers, n: nat) { Readable(env(n + 1)) }

  /** Each listing that is followed by another create can be read. */
  ghost predicate ListingsReadable(env: Answers, n: nat, left: nat, job: string) {
    forall i: nat {:trigger KeepsLosing(env, n, i, job)} | i < left && KeepsLosing(env, n, i, job) ::
      ReadableAfter(env, n + 2 * i)
  }

  lemma KeepsLosingShift(env: Answers, n: nat, i: nat, job: string)
    ensures KeepsLosing(env, n, i + 1, job) <==> LosesOnce(env, n, job) && KeepsLosing(env, n + 2, i, job)
    ensures KeepsLosing(env, n, 0, job) <==> LosesOnce(env, n, job)
  {
    if LosesOnce(env, n, job) && KeepsLosing(env, n + 2, i, job) {
      forall k: nat | k <= i + 1 ensures LosesOnce(env, n + 2 * k, job) {
        assert k > 0 ==> LosesOnce(env, n + 2 + 2 * (k - 1), job);
      }
    }
    if KeepsLosing(env, n, i + 1, job) {
      assert LosesOnce(env, n + 2 * 0, job);
      forall k: nat | k <= i ensures LosesOnce(env, n + 2 + 2 * k, job) {
        assert LosesOnce(env, n + 2 * (k + 1), job);
      }
    }
    if KeepsLosing(env, n, 0, job) {
      assert LosesOnce(env, n + 2 * 0, job);
    }
  }

  lemma ListingsDown(env: Answers, n: nat, left: nat, job: string)
    requires left > 0 && LosesOnce(env, n, job) && ListingsReadable(env, n, left, job)
    ensures ReadableAfter(env, n) && ListingsReadable(env, n + 2, left - 1, job)
  {
    KeepsLosingShift(env, n, 0, job);
    assert KeepsLosing(env, n, 0, job);
    forall i: nat | i < left - 1 && KeepsLosing(env, n + 2, i, job) ensures ReadableAfter(env, n + 2 + 2 * i) {
      KeepsLosingShift(env, n, i, job);
      assert n + 2 + 2 * i == n + 2 * (i + 1);
    }
  }

  lemma ListingsUp(env: Answers, n: nat, left: nat, job: string)
    requires left > 0
    requires LosesOnce(env, n, job) ==> ReadableAfter(env, n) && ListingsReadable(env, n + 2, left - 1, job)
    ensures ListingsReadable(env, n, left, job)
  {
    forall i: nat | i < left && KeepsLosing(env, n, i, job) ensures ReadableAfter(env, n + 2 * i) {
      assert LosesOnce(env, n + 2 * 0, job);
      if i > 0 {
        KeepsLosingShift(env, n, i - 1, job);
        assert n + 2 + 2 * (i - 1) == n + 2 * i;
      }
    }
  }

  /** The promise that a job is never created again without being confirmed absent is kept for exactly those daemons
      that give a readable listing after each lost answer to a create. */
  lemma {:induction false} ConfirmedIff(job: string, env: Answers, log: seq<Exchange>, left: nat)
    ensures ConfirmedBeforeRecreate(CreateJob(job, env, log, left).log, |log|, job) <==>
            ListingsReadable(env, |log|, left, job)
    decreases left
  {
    var n := |log|;
    var log' := Ask(env, log, Create(job));
    ErrorBits(env(n));
    if left > 0 && LosesOnce(env, n, job) {
      var log'' := Ask(env, log', ListJobs);
      ConfirmedIff(job, env, log'', left - 1);
      SecondCreate(job, env, log, log'', left - 1);
      if ListingsReadable(env, n, left, job) { ListingsDown(env, n, left, job); }
      if ReadableAfter(env, n) && ListingsReadable(env, n + 2, left - 1, job) { ListingsUp(env, n, left, job); }
    } else if left > 0 {
      ListingsUp(env, n, left, job);
    }
  }

  /** When the answer to a create is lost and the job is not listed, the run goes on as one that begins two answers
      later. */
  lemma SecondCreate(job: string, env: Answers, log: seq<Exchange>, log'': seq<Exchange>, left: nat)
    requires LosesOnce(env, |log|, job) && log'' == Ask(env, Ask(env, log, Create(job)), ListJobs)
    ensures CreateJob(job, env, log, left + 1) == CreateJob(job, env, log'', left)
    ensures var after := CreateJob(job, env, log'', left).log;
            ConfirmedBeforeRecreate(after, |log|, job) <==>
            ReadableAfter(env, |log|) && ConfirmedBeforeRecreate(after, |log''|, job)
  {
    ErrorBits(env(|log|));
    CreatesSpaced(job, env, log'', left);
    var after := CreateJob(job, env, log'', left).log;
    var n := |log|;
    assert after[n + 1] == log''[n + 1] && after[n + 1].call == ListJobs;
    assert after[n + 2 - 1] == after[n + 1] && IsCreate(after[n + 2], job);
  }

  /** A daemon that loses a create's answer and then cannot be read is asked to create the job again. */
  lemma BlindRecreate(job: string, resources: Resources)
    ensures exists env: Answers ::
              var run := CreateJob(job, env, [], 2);
              && run.result == Ok(Handle(job, resources))
              && |run.log| == 3 && IsCreate(run.log[0], job) && run.log[1] == Exchange(ListJobs, Lost)
              && IsCreate(run.log[2], job)
  {
    var env: Answers := n => if n == 2 then Response(201, Job(resources)) else Lost;
    var log1 := Ask(env, [], Create(job));
    var log2 := Ask(env, log1, ListJobs);
    assert CreateJob(job, env, log2, 1) == Run(Ask(env, log2, Create(job)), Ok(Handle(job, resources)));
    assert Recreate(job, env, log1, 1) == CreateJob(job, env, log2, 1);
    assert CreateJob(job, env, [], 2) == Recreate(job, env, log1, 1);
  }

  // ---- restart ----

  /** After a restart a job is tracked exactly when it was, or when some row holds an owned handle of it: with what
      the daemon lists last for it, else with the handle of its first such row. */
  lemma {:induction false} RehydratedAt(live: map<string, Handle>, rows: seq<Row>, listing: Option<seq<Summary>>,
                                        job: string)
    ensures var after := Rehydrated(live, rows, listing);
            && (job in after <==> job in live || exists k | 0 <= k < |rows| :: Owned(rows[k], job))
            && (job in live ==> after[job] == live[job])
            && (job in after && job !in live && Seen(listing, job).Some? ==>
                after[job] == Handle(job, Seen(listing, job).value.resources))
            && (job in after && job !in live && Seen(listing, job).None? ==>
                exists k | 0 <= k < |rows| ::
                  && Owned(rows[k], job) && Some(after[job]) == AsDockerHandle(rows[k].handle.value)
                  && forall i | 0 <= i < k :: !Owned(rows[i], job))
    decreases |rows|
  {
    if rows != [] {
      var n := |rows| - 1;
      RehydratedAt(live, rows[..n], listing, job);
      assert forall k | 0 <= k < n :: rows[..n][k] == rows[k];
      RehydratedNext(live, rows, listing, job);
    }
  }

  /** The last row adds its job if it is owned and not tracked yet. */
  lemma RehydratedNext(live: map<string, Handle>, rows: seq<Row>, listing: Option<seq<Summary>>, job: string)
    requires rows != []
    ensures var (before, row) := (Rehydrated(live, rows[..|rows| - 1], listing), rows[|rows| - 1]);
            Rehydrated(live, rows, listing) ==
            if Owned(row, row.id) && row.id !in before then
              var seen := Seen(listing, row.id);
              before[row.id := if seen.Some? then Handle(row.id, seen.value.resources)
                               else AsDockerHandle(row.handle.value).value]
            else before
    ensures Owned(rows[|rows| - 1], job) ==> job == rows[|rows| - 1].id
  {
  }
}
