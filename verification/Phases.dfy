// The phased pipeline: the transition table and the review loop.
module Phases {
  import opened Wrappers

  datatype Phase = Analyze | Bootstrap | Plan | Clarify | AwaitHuman | Implement | Review | Pr
  datatype Mode = Gated | Collapsed
  datatype Kind = AnalyzeOnly | FixIssue | ImplementTask

  // ---- the transition table ----

  datatype PhaseResult = PhaseResult(phase: Phase, ok: bool, verdict: Option<bool>, exhausted: bool)

  datatype Transition = Advance(to: Phase) | Park | Requeue(to: Phase) | RetryImplement | Finished | Fail

  function ComputeTransition(r: PhaseResult, mode: Mode, kind: Kind): Transition {
    if !r.ok then Fail
    else if kind == AnalyzeOnly then (if r.phase == Analyze then Finished else Fail)
    else
      match r.phase
      case Analyze => Advance(if mode == Gated then Bootstrap else Implement)
      case Bootstrap => Advance(Plan)
      case Plan => Advance(Clarify)
      case Clarify => Park
      case AwaitHuman => Requeue(Implement)
      case Implement => Advance(Review)
      case Review =>
        (match r.verdict
         case Some(approve) => if approve || r.exhausted then Advance(Pr) else RetryImplement
         case None => Fail)
      case Pr => Finished
  }

  function PhaseOrder(mode: Mode): seq<Phase> {
    match mode
    case Gated => [Analyze, Bootstrap, Plan, Clarify, AwaitHuman, Implement, Review, Pr]
    case Collapsed => [Analyze, Implement, Review, Pr]
  }

  /** Position in the order, or -1. */
  function IndexIn(order: seq<Phase>, p: Phase): int {
    if order == [] then -1 else if order[0] == p then 0
    else
      var i := IndexIn(order[1..], p);
      if i == -1 then -1 else i + 1
  }

  predicate IsForward(from: Phase, to: Phase, mode: Mode) {
    IndexIn(PhaseOrder(mode), to) > IndexIn(PhaseOrder(mode), from)
  }

  function GatedRank(p: Phase): nat {
    match p
    case Analyze => 0
    case Bootstrap => 1
    case Plan => 2
    case Clarify => 3
    case AwaitHuman => 4
    case Implement => 5
    case Review => 6
    case Pr => 7
  }

  lemma {:induction false} IndexIs(order: seq<Phase>, i: nat)
    requires i < |order| && forall j | 0 <= j < i :: order[j] != order[i]
    ensures IndexIn(order, order[i]) == i
  {
    if i > 0 {
      IndexIs(order[1..], i - 1);
    }
  }

  lemma GatedIndex(p: Phase)
    ensures IndexIn(PhaseOrder(Gated), p) == GatedRank(p)
  {
    var order := PhaseOrder(Gated);
    assert order[GatedRank(p)] == p;
    IndexIs(order, GatedRank(p));
  }

  function CollapsedRank(p: Phase): nat
    requires InOrder(p, Collapsed)
  {
    match p case Analyze => 0 case Implement => 1 case Review => 2 case Pr => 3
  }

  lemma CollapsedIndex(p: Phase)
    requires InOrder(p, Collapsed)
    ensures IndexIn(PhaseOrder(Collapsed), p) == CollapsedRank(p)
  {
    var order := PhaseOrder(Collapsed);
    assert order[CollapsedRank(p)] == p;
    IndexIs(order, CollapsedRank(p));
  }

  /** The phases a pipeline of this mode goes through. */
  predicate InOrder(p: Phase, mode: Mode) { mode == Gated || p in {Analyze, Implement, Review, Pr} }

  /** `to` is the phase right after `from`. */
  predicate IsNext(from: Phase, to: Phase, mode: Mode) {
    InOrder(to, mode) && IndexIn(PhaseOrder(mode), to) == IndexIn(PhaseOrder(mode), from) + 1
  }

  lemma GatedSteps()
    ensures IsNext(Analyze, Bootstrap, Gated) && IsNext(Bootstrap, Plan, Gated) && IsNext(Plan, Clarify, Gated)
    ensures IsNext(Clarify, AwaitHuman, Gated) && IsNext(AwaitHuman, Implement, Gated)
    ensures IsNext(Implement, Review, Gated) && IsNext(Review, Pr, Gated)
  {
    GatedIndex(Analyze);
    GatedIndex(Bootstrap);
    GatedIndex(Plan);
    GatedIndex(Clarify);
    GatedIndex(AwaitHuman);
    GatedIndex(Implement);
    GatedIndex(Review);
    GatedIndex(Pr);
  }

  lemma CollapsedSteps()
    ensures IsNext(Analyze, Implement, Collapsed) && IsNext(Implement, Review, Collapsed)
    ensures IsNext(Review, Pr, Collapsed)
  {
    CollapsedIndex(Analyze);
    CollapsedIndex(Implement);
    CollapsedIndex(Review);
    CollapsedIndex(Pr);
  }

  /** The order a phase belongs to: the mode's own, or the gated one for a phase a collapsed job should not be in. */
  function OrderOf(p: Phase, mode: Mode): Mode { if InOrder(p, mode) then mode else Gated }

  /** Every advance leads to the very next phase of the order; the human gate is only ever entered from clarify and
      left towards implement; the single way back is from review to implement. */
  lemma TableFollowsOrder(r: PhaseResult, mode: Mode, kind: Kind)
    ensures var (t, order) := (ComputeTransition(r, mode, kind), OrderOf(r.phase, mode));
            && (t.Advance? ==> IsNext(r.phase, t.to, order) && IsForward(r.phase, t.to, order) && t.to != AwaitHuman)
            && (t.Park? ==> r.phase == Clarify && IsNext(Clarify, AwaitHuman, order))
            && (t.Requeue? ==> r.phase == AwaitHuman && IsNext(AwaitHuman, t.to, order))
            && (t.RetryImplement? ==> r.phase == Review && !IsForward(Review, Implement, order))
            && (t.Finished? <==> r.ok && r.phase == if kind == AnalyzeOnly then Analyze else Pr)
  {
    if OrderOf(r.phase, mode) == Gated {
      GatedSteps();
    } else {
      CollapsedSteps();
    }
  }

  // ---- the review loop ----

  datatype Severity = Blocker | Major | Minor
  datatype Finding = Finding(severity: Severity, file: string, issue: string)
  datatype Verdict = Verdict(approve: bool, findings: seq<Finding>)

  const MAX_REVIEW_ATTEMPTS := 2

  predicate Blocking(f: Finding) { f.severity in {Blocker, Major} }

  function BlockingOf(fs: seq<Finding>): seq<Finding> {
    if fs == [] then [] else (if Blocking(fs[0]) then [fs[0]] else []) + BlockingOf(fs[1..])
  }

  /** Changes requested for minor findings only count as approval. */
  function Normalize(v: Verdict): Verdict {
    if v.approve || BlockingOf(v.findings) != [] then v else v.(approve := true)
  }

  /** The blocking complaints of a round, in no order: severity, file and issue only. */
  type Fingerprint = multiset<Finding>

  function FingerprintOf(fs: seq<Finding>): Fingerprint { multiset(BlockingOf(fs)) }

  datatype Decision = Approve | Retry(next: nat, complaints: Fingerprint) | GiveUp(complaints: Fingerprint)

  function DecideReview(verdict: Verdict, attempt: nat, previous: Option<Fingerprint>): Decision {
    var v := Normalize(verdict);
    if v.approve then Approve
    else
      var complaints := FingerprintOf(v.findings);
      if previous == Some(complaints) then GiveUp(complaints)
      else if attempt >= MAX_REVIEW_ATTEMPTS then GiveUp(complaints)
      else Retry(attempt + 1, complaints)
  }

  lemma {:induction false} BlockingIff(fs: seq<Finding>)
    ensures BlockingOf(fs) == [] <==> forall k | 0 <= k < |fs| :: !Blocking(fs[k])
  {
    if fs != [] {
      BlockingIff(fs[1..]);
      assert forall k | 1 <= k < |fs| :: fs[k] == fs[1..][k - 1];
      assert (forall k | 0 <= k < |fs| :: !Blocking(fs[k])) ==> !Blocking(fs[0]);
      if BlockingOf(fs[1..]) == [] && !Blocking(fs[0]) {
        forall k | 0 <= k < |fs| ensures !Blocking(fs[k]) {
          assert k > 0 ==> fs[k] == fs[1..][k - 1];
        }
      } else if BlockingOf(fs[1..]) != [] {
        var k :| 0 <= k < |fs[1..]| && Blocking(fs[1..][k]);
        assert Blocking(fs[k + 1]);
      }
    }
  }

  lemma {:induction false} BlockingCounts(fs: seq<Finding>, f: Finding)
    ensures multiset(BlockingOf(fs))[f] == if Blocking(f) then multiset(fs)[f] else 0
  {
    if fs != [] {
      BlockingCounts(fs[1..], f);
      assert fs == [fs[0]] + fs[1..];
    }
  }

  lemma PrintFollowsMultiset(a: seq<Finding>, b: seq<Finding>)
    requires multiset(a) == multiset(b)
    ensures FingerprintOf(a) == FingerprintOf(b)
  {
    forall f: Finding ensures FingerprintOf(a)[f] == FingerprintOf(b)[f] {
      BlockingCounts(a, f);
      BlockingCounts(b, f);
    }
  }

  /** Changes are asked for again exactly when some finding blocks, the complaints differ from the last round
      and attempts are left; the order of the findings and the minor ones never matter. */
  lemma RetryIff(v: Verdict, attempt: nat, previous: Option<Fingerprint>)
    ensures DecideReview(v, attempt, previous).Retry? <==>
            && !v.approve && (exists k | 0 <= k < |v.findings| :: Blocking(v.findings[k]))
            && previous != Some(FingerprintOf(v.findings)) && attempt < MAX_REVIEW_ATTEMPTS
    ensures DecideReview(v, attempt, previous).Approve? <==>
            v.approve || forall k | 0 <= k < |v.findings| :: !Blocking(v.findings[k])
  {
    BlockingIff(v.findings);
  }

  lemma OrderDoesNotMatter(a: Verdict, b: Verdict, attempt: nat, previous: Option<Fingerprint>)
    requires a.approve == b.approve && multiset(a.findings) == multiset(b.findings)
    ensures DecideReview(a, attempt, previous) == DecideReview(b, attempt, previous)
  {
    PrintFollowsMultiset(a.findings, b.findings);
    assert |multiset(BlockingOf(a.findings))| == |multiset(BlockingOf(b.findings))|;
  }
}
