// Teardown, reaping and lease renewal interleaved: the renewal timer fires while other calls wait for the daemon.
module DockerTrace {
  import opened Wrappers

  datatype Event =
    | Tracked(job: string)          // provisioned, adopted or rehydrated
    | Asked(job: string)            // terminate: the delete request goes out
    | Proven(job: string)           // its answer is 2xx or 404
    | Failed(job: string)           // any other answer, or none
    | Reaped(listed: set<string>)   // a readable listing is compared with the tracked jobs
    | PassStarted                   // a renewal pass takes its copy of the tracked jobs
    | Renewed(job: string)          // the pass sends a renewal
    | Skipped(job: string)          // the pass finds the lease forfeit

  /** The backend's two collections, the deletes in flight and the jobs renewal passes still have to visit. */
  datatype State = State(live: set<string>, terminating: set<string>,
                         deletes: multiset<string>, passes: multiset<string>)

  predicate Enabled(s: State, e: Event) {
    match e
    case Proven(j) => j in s.deletes
    case Failed(j) => j in s.deletes
    case Renewed(j) => j in s.passes && j !in s.terminating
    case Skipped(j) => j in s.passes && j in s.terminating
    case _ => true
  }

  function Next(s: State, e: Event): State
    requires Enabled(s, e)
  {
    match e
    case Tracked(j) => s.(live := s.live + {j})
    case Asked(j) => s.(terminating := s.terminating + {j}, deletes := s.deletes + multiset{j})
    case Proven(j) =>
      s.(live := s.live - {j}, terminating := s.terminating - {j}, deletes := s.deletes - multiset{j})
    case Failed(j) => s.(deletes := s.deletes - multiset{j})
    case Reaped(listed) => s.(live := s.live * listed, terminating := s.terminating - (s.live - listed))
    case PassStarted => s.(passes := s.passes + multiset(s.live))
    case Renewed(j) => s.(passes := s.passes - multiset{j})
    case Skipped(j) => s.(passes := s.passes - multiset{j})
  }

  /** The state after a run from `start`, if every step of it can happen. */
  function Played(start: State, run: seq<Event>): Option<State>
    decreases |run|
  {
    if run == [] then Some(start)
    else
      var t :- Played(start, run[..|run| - 1]);
      if Enabled(t, run[|run| - 1]) then Some(Next(t, run[|run| - 1])) else None
  }

  predicate Leads(start: State, run: seq<Event>, s: State) { Played(start, run) == Some(s) }

  lemma Longer(start: State, run: seq<Event>, t: State, e: Event)
    requires Leads(start, run, t) && Enabled(t, e)
    ensures Leads(start, run + [e], Next(t, e))
  {
    assert (run + [e])[..|run|] == run;
  }

  /** At this event the daemon has proven that the job is gone: its delete succeeded, or a listing lacks it. */
  predicate Gone(e: Event, j: string) { e == Proven(j) || (e.Reaped? && j !in e.listed) }

  ghost predicate GoneBetween(run: seq<Event>, from: nat, to: nat, j: string) {
    exists m | from < m < to && m < |run| :: Gone(run[m], j)
  }

  lemma GoneLonger(run: seq<Event>, n: nat, from: nat, to: nat, j: string)
    requires n <= |run| && GoneBetween(run[..n], from, to, j)
    ensures GoneBetween(run, from, to, j)
  {
    var m :| from < m < to && m < n && Gone(run[..n][m], j);
    assert Gone(run[m], j);
  }

  lemma LastStep(start: State, run: seq<Event>, s: State) returns (t: State)
    requires run != [] && Leads(start, run, s)
    ensures var n := |run| - 1; Leads(start, run[..n], t) && Enabled(t, run[n]) && s == Next(t, run[n])
  {
    t := Played(start, run[..|run| - 1]).value;
  }

  /** Only proof that a job is gone lifts a requested teardown or ends the tracking. */
  lemma StepKeeps(t: State, e: Event, j: string)
    requires Enabled(t, e) && !Gone(e, j)
    ensures j in t.terminating || e == Asked(j) ==> j in Next(t, e).terminating
    ensures j in t.live || e == Tracked(j) ==> j in Next(t, e).live
  {
  }

  /** A requested teardown keeps the lease forfeit until the job is proven gone. */
  lemma {:induction false} AskedStays(start: State, run: seq<Event>, s: State, i: nat, j: string)
    requires Leads(start, run, s) && i < |run| && run[i] == Asked(j)
    ensures j in s.terminating || GoneBetween(run, i, |run|, j)
    decreases |run|
  {
    var n := |run| - 1;
    var t := LastStep(start, run, s);
    if i < n {
      AskedStays(start, run[..n], t, i, j);
      if GoneBetween(run[..n], i, n, j) { GoneLonger(run, n, i, n, j); }
    }
    if !Gone(run[n], j) { StepKeeps(t, run[n], j); }
  }

  /** No renewal is sent for a job whose teardown was requested before, unless it was proven gone in between. */
  lemma {:induction false} NoRenewalWhilePending(start: State, run: seq<Event>, s: State, i: nat, k: nat, j: string)
    requires Leads(start, run, s) && i < k < |run| && run[i] == Asked(j) && run[k] == Renewed(j)
    ensures GoneBetween(run, i, k, j)
    decreases |run|
  {
    var n := |run| - 1;
    var t := LastStep(start, run, s);
    if k < n {
      NoRenewalWhilePending(start, run[..n], t, i, k, j);
      GoneLonger(run, n, i, k, j);
    } else {
      RenewedOnlyIfGone(start, run[..n], t, i, j);
      GoneLonger(run, n, i, n, j);
    }
  }

  /** A renewal can only go out when no teardown is pending. */
  lemma RenewedOnlyIfGone(start: State, run: seq<Event>, t: State, i: nat, j: string)
    requires Leads(start, run, t) && i < |run| && run[i] == Asked(j) && Enabled(t, Renewed(j))
    ensures GoneBetween(run, i, |run|, j)
  {
    AskedStays(start, run, t, i, j);
  }

  /** A tracked job stays tracked until it is proven gone. */
  lemma {:induction false} TrackedStays(start: State, run: seq<Event>, s: State, i: nat, j: string)
    requires Leads(start, run, s) && i < |run| && run[i] == Tracked(j)
    ensures j in s.live || GoneBetween(run, i, |run|, j)
    decreases |run|
  {
    var n := |run| - 1;
    var t := LastStep(start, run, s);
    if i < n {
      TrackedStays(start, run[..n], t, i, j);
      if GoneBetween(run[..n], i, n, j) { GoneLonger(run, n, i, n, j); }
    }
    if !Gone(run[n], j) { StepKeeps(t, run[n], j); }
  }

  // ---- a call that is alone ----

  /** The backend between calls: no delete is in flight and no pass is under way. */
  function Quiet(live: set<string>, terminating: set<string>): State {
    State(live, terminating, multiset{}, multiset{})
  }

  /** A teardown: the request, then its answer. */
  lemma TeardownRun(s: State, job: string, proven: bool)
    ensures var run := [Asked(job), if proven then Proven(job) else Failed(job)];
            Leads(s, run, if proven then s.(live := s.live - {job}, terminating := s.terminating - {job})
                          else s.(terminating := s.terminating + {job}))
  {
    var asked := Next(s, Asked(job));
    assert asked.deletes - multiset{job} == s.deletes;
    Longer(s, [], s, Asked(job));
    Longer(s, [Asked(job)], asked, if proven then Proven(job) else Failed(job));
    assert s.terminating + {job} - {job} == s.terminating - {job};
    assert [] + [Asked(job)] == [Asked(job)];
    assert [Asked(job)] + [if proven then Proven(job) else Failed(job)]
        == [Asked(job), if proven then Proven(job) else Failed(job)];
  }

  /** The events of a renewal pass over these jobs, in this order. */
  function Visits(order: seq<string>, terminating: set<string>): seq<Event> {
    seq(|order|, k requires 0 <= k < |order| => Visit(order[k], terminating))
  }

  function Visit(job: string, terminating: set<string>): Event {
    if job in terminating then Skipped(job) else Renewed(job)
  }

  lemma LastOut(all: multiset<string>, order: seq<string>)
    requires order != [] && multiset(order) <= all
    ensures var (front, last) := (order[..|order| - 1], order[|order| - 1]);
            && multiset(front) <= all && last in all - multiset(front)
            && all - multiset(front) - multiset{last} == all - multiset(order)
  {
    assert order == order[..|order| - 1] + [order[|order| - 1]];
  }

  lemma VisitsGrow(run: seq<Event>, order: seq<string>, terminating: set<string>)
    requires order != []
    ensures var n := |order| - 1;
            run + Visits(order, terminating) == run + Visits(order[..n], terminating) + [Visit(order[n], terminating)]
  {
  }

  lemma {:induction false} VisitsRun(start: State, run: seq<Event>, s: State, order: seq<string>)
    requires Leads(start, run, s) && multiset(order) <= s.passes
    ensures Leads(start, run + Visits(order, s.terminating), s.(passes := s.passes - multiset(order)))
    decreases |order|
  {
    if order == [] {
      assert run + Visits(order, s.terminating) == run;
      assert s.passes - multiset(order) == s.passes;
    } else {
      var n := |order| - 1;
      LastOut(s.passes, order);
      VisitsRun(start, run, s, order[..n]);
      VisitsGrow(run, order, s.terminating);
      Longer(start, run + Visits(order[..n], s.terminating), s.(passes := s.passes - multiset(order[..n])),
             Visit(order[n], s.terminating));
    }
  }

  /** A renewal pass visits every tracked job once and changes neither collection. */
  lemma PassRun(s: State, order: seq<string>)
    requires multiset(order) == multiset(s.live)
    ensures Leads(s, [PassStarted] + Visits(order, s.terminating), s)
  {
    Longer(s, [], s, PassStarted);
    assert [] + [PassStarted] == [PassStarted];
    VisitsRun(s, [PassStarted], Next(s, PassStarted), order);
    assert s.passes + multiset(s.live) - multiset(order) == s.passes;
  }

  /** Jobs tracked one after the other. */
  lemma {:induction false} TrackedRun(s: State, jobs: seq<string>)
    ensures Leads(s, seq(|jobs|, k requires 0 <= k < |jobs| => Tracked(jobs[k])),
                  s.(live := s.live + set j | j in jobs))
    decreases |jobs|
  {
    if jobs == [] {
      assert s.live + (set j | j in jobs) == s.live;
    } else {
      var n := |jobs| - 1;
      TrackedRun(s, jobs[..n]);
      var front := seq(n, k requires 0 <= k < n => Tracked(jobs[..n][k]));
      var t := s.(live := s.live + set j | j in jobs[..n]);
      Longer(s, front, t, Tracked(jobs[n]));
      assert front + [Tracked(jobs[n])] == seq(|jobs|, k requires 0 <= k < |jobs| => Tracked(jobs[k]));
      assert jobs == jobs[..n] + [jobs[n]];
      assert t.live + {jobs[n]} == s.live + set j | j in jobs;
    }
  }
}
