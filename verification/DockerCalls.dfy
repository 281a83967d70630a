// Each call of the docker backend, alone, as a run of the trace's events.
module DockerCalls {
  import opened Wrappers
  import opened Docker
  import opened DockerTrace

  /** The jobs a listing names. */
  ghost function Named(jobs: seq<Summary>): set<string> { set k | 0 <= k < |jobs| :: jobs[k].jobId }

  lemma NamedIff(jobs: seq<Summary>, job: string)
    ensures job in Named(jobs) <==> Find(jobs, job).Some?
  {
  }

  lemma ReapRun(live: map<string, Handle>, terminating: set<string>, jobs: seq<Summary>)
    ensures var lost := LostJobs(live, jobs);
            Leads(Quiet(live.Keys, terminating), [Reaped(Named(jobs))],
                  Quiet((live - lost.Keys).Keys, terminating - lost.Keys))
  {
    var (s, e) := (Quiet(live.Keys, terminating), Reaped(Named(jobs)));
    var lost := LostJobs(live, jobs);
    forall j: string ensures j in Named(jobs) <==> Find(jobs, j).Some? {
      NamedIff(jobs, j);
    }
    assert (live - lost.Keys).Keys == live.Keys * Named(jobs);
    assert lost.Keys == live.Keys - Named(jobs);
    Longer(s, [], s, e);
    assert [] + [e] == [e];
  }

  lemma {:induction false} Listed(jobs: set<string>) returns (order: seq<string>)
    ensures multiset(order) == multiset(jobs) && Distinct(order)
    decreases |jobs|
  {
    if jobs == {} {
      order := [];
    } else {
      var j :| j in jobs;
      order := Listed(jobs - {j});
      assert forall k | 0 <= k < |order| :: order[k] in multiset(order);
      order := order + [j];
      assert jobs == (jobs - {j}) + {j};
    }
  }

  lemma {:induction false} DistinctCounts(order: seq<string>, jobs: set<string>)
    requires Distinct(order) && forall j :: j in order <==> j in jobs
    ensures multiset(order) == multiset(jobs)
    decreases |order|
  {
    if order == [] {
      assert forall j :: j in jobs ==> j in order;
    } else {
      var n := |order| - 1;
      assert order == order[..n] + [order[n]];
      forall j ensures j in order[..n] <==> j in jobs - {order[n]} {
        if j in order[..n] {
          assert j in order;
        }
        if j in jobs - {order[n]} {
          assert j in order;
        }
      }
      DistinctCounts(order[..n], jobs - {order[n]});
      assert jobs == (jobs - {order[n]}) + {order[n]};
    }
  }

  /** A pass renews in this order and skips the rest. */
  lemma PassVisits(live: set<string>, terminating: set<string>, order: seq<string>) returns (visited: seq<string>)
    requires Distinct(order) && forall j :: j in order <==> j in live && j !in terminating
    ensures multiset(visited) == multiset(live) && order <= visited
    ensures forall k | |order| <= k < |visited| :: visited[k] in terminating
  {
    var rest := Listed(live * terminating);
    DistinctCounts(order, live - terminating);
    visited := order + rest;
    assert live == (live - terminating) + live * terminating;
    forall k | |order| <= k < |visited| ensures visited[k] in terminating {
      assert visited[k] == rest[k - |order|];
      assert rest[k - |order|] in multiset(rest);
    }
  }

  /** The jobs tracked after a restart and not before. */
  lemma RestartTracks(live: map<string, Handle>, rows: seq<Docker.Row>, listing: Option<seq<Summary>>)
    returns (jobs: seq<string>)
    ensures Distinct(jobs) && forall j | j in jobs :: j !in live && exists k | 0 <= k < |rows| :: Owned(rows[k], j)
    ensures Rehydrated(live, rows, listing).Keys == live.Keys + set j | j in jobs
  {
    var after := Rehydrated(live, rows, listing);
    jobs := Listed(after.Keys - live.Keys);
    forall j: string
      ensures j in after <==> j in live || exists k | 0 <= k < |rows| :: Owned(rows[k], j)
      ensures j in jobs <==> j in after.Keys - live.Keys
    {
      RehydratedAt(live, rows, listing, j);
      assert j in jobs <==> j in multiset(jobs);
    }
  }

  datatype Request =
    | DoProvision(job: string)
    | DoTerminate(stored: Stored)
    | DoReap
    | DoRenew
    | DoAdopt(job: string, stored: Stored)
    | DoRehydrate(rows: seq<Docker.Row>)

  ghost function TrackEvents(jobs: seq<string>): seq<Event> {
    seq(|jobs|, k requires 0 <= k < |jobs| => Tracked(jobs[k]))
  }

  /** What a call does to the tracked and the forfeit jobs between `s` and `t`. */
  ghost predicate DoneAs(q: Request, run: seq<Event>, s: State, t: State) {
    && Leads(s, run, t)
    && match q
       case DoProvision(job) => run in {[], TrackEvents([job])}
       case DoTerminate(stored) =>
         if AsDockerHandle(stored).None? then run == []
         else exists proven :: run == TeardownEvents(AsDockerHandle(stored).value.jobId, proven)
       case DoReap => run == [] || exists listed :: run == [Reaped(listed)]
       case DoRenew =>
         exists visited :: multiset(visited) == multiset(s.live) && run == PassEvents(visited, s.terminating)
       case DoAdopt(job, _) => run in {[], TrackEvents([job])}
       case DoRehydrate(_) => exists jobs :: run == TrackEvents(jobs)
  }

  ghost function TeardownEvents(job: string, proven: bool): seq<Event> {
    [Asked(job), if proven then Proven(job) else DockerTrace.Failed(job)]
  }

  ghost function PassEvents(visited: seq<string>, terminating: set<string>): seq<Event> {
    [PassStarted] + Visits(visited, terminating)
  }

  /** The backend as the trace sees it between calls. */
  ghost function View(b: DockerBackend): State
    reads b
  {
    Quiet(b.live.Keys, b.terminating)
  }

  method Provisioned(b: DockerBackend, job: string) returns (ghost run: seq<Event>)
    modifies b
    ensures DoneAs(DoProvision(job), run, old(View(b)), View(b))
  {
    var r := b.Provision(job);
    run := [];
    if r.Ok? {
      run := TrackEvents([job]);
      TrackedRun(old(View(b)), [job]);
      assert View(b).live == old(View(b)).live + set j | j in [job];
    }
  }

  method TornDown(b: DockerBackend, stored: Stored) returns (ghost run: seq<Event>)
    modifies b
    ensures DoneAs(DoTerminate(stored), run, old(View(b)), View(b))
  {
    ghost var (live, terminating) := (b.live, b.terminating);
    var r := b.Terminate(stored);
    run := [];
    if AsDockerHandle(stored).Some? {
      ghost var job := AsDockerHandle(stored).value.jobId;
      TeardownRun(old(View(b)), job, r.Ok?);
      assert (live - {job}).Keys == live.Keys - {job};
      run := TeardownEvents(job, r.Ok?);
    }
  }

  method ReapedLost(b: DockerBackend) returns (ghost run: seq<Event>)
    modifies b
    ensures DoneAs(DoReap, run, old(View(b)), View(b))
  {
    ghost var (live, terminating, reply) := (b.live, b.terminating, b.env(|b.log|));
    var lost := b.Reap();
    run := [];
    if live != map[] && Readable(reply) {
      ReapRun(live, terminating, reply.body.jobs);
      run := [Reaped(Named(reply.body.jobs))];
    } else {
      assert live - lost.Keys == live && terminating - lost.Keys == terminating;
    }
  }

  method RenewedAll(b: DockerBackend) returns (ghost run: seq<Event>)
    modifies b
    ensures DoneAs(DoRenew, run, old(View(b)), View(b))
  {
    ghost var order := b.RenewLeases();
    ghost var visited := PassVisits(old(b.live).Keys, b.terminating, order);
    PassRun(old(View(b)), visited);
    run := PassEvents(visited, b.terminating);
  }

  method AdoptedOne(b: DockerBackend, job: string, stored: Stored) returns (ghost run: seq<Event>)
    modifies b
    ensures DoneAs(DoAdopt(job, stored), run, old(View(b)), View(b))
  {
    var ok := b.Adopt(job, stored);
    run := [];
    if ok {
      run := TrackEvents([job]);
      TrackedRun(old(View(b)), [job]);
      assert View(b).live == old(View(b)).live + set j | j in [job];
    }
  }

  method Restarted(b: DockerBackend, rows: seq<Docker.Row>) returns (ghost run: seq<Event>)
    modifies b
    ensures DoneAs(DoRehydrate(rows), run, old(View(b)), View(b))
  {
    ghost var reply := b.env(|b.log|);
    var adopted, skipped, reconciled := b.Rehydrate(rows);
    assert rows[..|rows|] == rows;
    ghost var jobs := RestartTracks(old(b.live), rows, if Readable(reply) then Some(reply.body.jobs) else None);
    TrackedRun(old(View(b)), jobs);
    run := TrackEvents(jobs);
  }

  /** Whatever is asked of the backend: a call that is alone is a run of the events the trace is made of. */
  method Perform(b: DockerBackend, q: Request) returns (ghost run: seq<Event>)
    modifies b
    ensures DoneAs(q, run, old(View(b)), View(b))
  {
    match q {
      case DoProvision(job) => run := Provisioned(b, job);
      case DoTerminate(stored) => run := TornDown(b, stored);
      case DoReap => run := ReapedLost(b);
      case DoRenew => run := RenewedAll(b);
      case DoAdopt(job, stored) => run := AdoptedOne(b, job, stored);
      case DoRehydrate(rows) => run := Restarted(b, rows);
    }
  }
}
