// Per-job LLM spend: one atomic accumulate-and-readback per call, enforced after the fact.
module Budget {
  import opened Wrappers

  type JobId = int

  /** The counters and budgets one job row carries, and its repository's defaults. */
  datatype Account = Account(tokensIn: nat, tokensOut: nat, cost: real,
                             budgetCost: Option<real>, budgetTokens: Option<nat>,
                             repoBudgetCost: Option<real>, repoBudgetTokens: Option<nat>)

  /** One metered call: token counts as the provider reports them and their price. */
  datatype Call = Call(input: nat, output: nat, cacheRead: nat, cacheCreation: nat, cost: real) {
    function TokensIn(): nat { input + cacheRead + cacheCreation }
    function TokensOut(): nat { output }
    function Tokens(): nat { TokensIn() + TokensOut() }
    predicate Billable() { Tokens() != 0 || cost != 0.0 }
  }

  datatype Spend = Spend(cost: real, tokens: nat)

  /**
   * Budgets in force for a job, with their warning lines: the cost budget always has a value,
   * the token budget may be unset.
   */
  datatype Budgets = Budgets(cost: real, tokens: Option<nat>, warnCost: real, warnTokens: real)

  datatype Position = Position(spend: Spend, budgetCost: Option<real>, budgetTokens: Option<nat>)

  datatype Answer = Answer(exceeded: bool, warnedCost: bool, warnedTokens: bool) {
    predicate Warned() { warnedCost || warnedTokens }
  }

  function SpendOf(a: Account): Spend {
    Spend(a.cost, a.tokensIn + a.tokensOut)
  }

  function InForce(cost: Option<real>, tokens: Option<nat>, defaultCost: real, warnAt: real): Budgets {
    var c := cost.GetOr(defaultCost);
    Budgets(c, tokens, c * warnAt, tokens.GetOr(0) as real * warnAt)
  }

  /** The job's own budgets win over its repository's; the configured default covers cost only. */
  function BudgetsOf(a: Account, defaultCost: real, warnAt: real): Budgets {
    InForce(if a.budgetCost.Some? then a.budgetCost else a.repoBudgetCost,
            if a.budgetTokens.Some? then a.budgetTokens else a.repoBudgetTokens, defaultCost, warnAt)
  }

  /** The edge trigger: spend climbed to a positive threshold during this call. */
  predicate CrossedEdge(prev: real, now: real, threshold: real) {
    threshold > 0.0 && prev < threshold && now >= threshold
  }

  predicate Over(s: Spend, b: Budgets) {
    || (b.cost > 0.0 && s.cost >= b.cost)
    || (b.tokens.Some? && s.tokens >= b.tokens.value)
  }

  function After(s: Spend, c: Call): Spend {
    if c.Billable() then Spend(s.cost + c.cost, s.tokens + c.Tokens()) else s
  }

  /** The hook's answer to a call that found the job at `s`. */
  function AnswerTo(s: Spend, c: Call, b: Budgets): Answer {
    var now := After(s, c);
    if !c.Billable() then Answer(false, false, false)
    else if Over(now, b) then Answer(true, false, false)
    else
      Answer(false,
             CrossedEdge(s.cost, now.cost, b.warnCost),
             b.tokens.Some? && CrossedEdge(s.tokens as real, now.tokens as real, b.warnTokens))
  }

  class UsageStore {
    var jobs: map<JobId, Account>

    /** Bump the counters and read the new position back, in one statement. */
    method Accumulate(id: JobId, tokensIn: nat, tokensOut: nat, cost: real) returns (r: Option<Position>)
      modifies this
      ensures id !in old(jobs) ==> r == None && jobs == old(jobs)
      ensures id in old(jobs) ==>
                var a := old(jobs)[id];
                var a' := a.(tokensIn := a.tokensIn + tokensIn, tokensOut := a.tokensOut + tokensOut,
                             cost := a.cost + if cost < 0.0 then 0.0 else cost);
                && jobs == old(jobs)[id := a']
                && r == Some(Position(SpendOf(a'),
                                      if a.budgetCost.Some? then a.budgetCost else a.repoBudgetCost,
                                      if a.budgetTokens.Some? then a.budgetTokens else a.repoBudgetTokens))
    {
      if id !in jobs { return None; }
      var a := jobs[id];
      a := a.(tokensIn := a.tokensIn + tokensIn, tokensOut := a.tokensOut + tokensOut,
              cost := a.cost + if cost < 0.0 then 0.0 else cost);
      jobs := jobs[id := a];
      r := Some(Position(SpendOf(a),
                         if a.budgetCost.Some? then a.budgetCost else a.repoBudgetCost,
                         if a.budgetTokens.Some? then a.budgetTokens else a.repoBudgetTokens));
    }
  }

  /** Meter one call: what it answers, and whether it tries to finalize or to warn. */
  method Meter(store: UsageStore, id: JobId, c: Call, defaultCost: real, warnAt: real)
    returns (exceeded: bool, marked: bool, warned: bool)
    requires c.cost >= 0.0
    modifies store
    ensures !c.Billable() || id !in old(store.jobs) ==>
              !exceeded && !marked && !warned && store.jobs == old(store.jobs)
    ensures c.Billable() && id in old(store.jobs) ==>
              var a, b := old(store.jobs)[id], BudgetsOf(old(store.jobs)[id], defaultCost, warnAt);
              var answer := AnswerTo(SpendOf(a), c, b);
              && exceeded == marked == answer.exceeded
              && warned == answer.Warned()
              && store.jobs.Keys == old(store.jobs).Keys
              && SpendOf(store.jobs[id]) == After(SpendOf(a), c)
              && BudgetsOf(store.jobs[id], defaultCost, warnAt) == b
              && forall j | j in store.jobs && j != id :: store.jobs[j] == old(store.jobs)[j]
  {
    exceeded, marked, warned := false, false, false;
    var deltaTokens, deltaCost := c.Tokens(), c.cost;
    if deltaTokens == 0 && deltaCost == 0.0 { return; }
    var position := store.Accumulate(id, c.TokensIn(), c.TokensOut(), deltaCost);
    if position.None? { return; }
    var p := position.value;
    var b := InForce(p.budgetCost, p.budgetTokens, defaultCost, warnAt);
    var prevCost := p.spend.cost - deltaCost;
    var prevTokens := p.spend.tokens - deltaTokens;
    var overCost := b.cost > 0.0 && p.spend.cost >= b.cost;
    var overTokens := b.tokens.Some? && p.spend.tokens >= b.tokens.value;
    if overCost || overTokens {
      return true, true, false;
    }
    var warnCost := CrossedEdge(prevCost, p.spend.cost, b.warnCost);
    var warnTokens := b.tokens.Some? && CrossedEdge(prevTokens as real, p.spend.tokens as real, b.warnTokens);
    warned := warnCost || warnTokens;
  }

  // ---- runs of calls against one job ----

  ghost predicate NonNegative(calls: seq<Call>) {
    forall i | 0 <= i < |calls| :: calls[i].cost >= 0.0
  }

  /** Where the job stands before call `i` of the run. */
  function At(s: Spend, calls: seq<Call>, i: nat): Spend
    requires i <= |calls|
  {
    if i == 0 then s else After(At(s, calls, i - 1), calls[i - 1])
  }

  function AnswerAt(s: Spend, calls: seq<Call>, i: nat, b: Budgets): Answer
    requires i < |calls|
  {
    AnswerTo(At(s, calls, i), calls[i], b)
  }

  lemma {:induction false} SpendGrows(s: Spend, calls: seq<Call>, i: nat, j: nat)
    requires NonNegative(calls) && i <= j <= |calls|
    ensures At(s, calls, i).cost <= At(s, calls, j).cost
    ensures At(s, calls, i).tokens <= At(s, calls, j).tokens
    decreases j
  {
    if i < j {
      SpendGrows(s, calls, i, j - 1);
    }
  }

  /** Call `i` takes the cost over a threshold. */
  ghost predicate CostEdgeAt(s: Spend, calls: seq<Call>, i: nat, threshold: real)
    requires i < |calls|
  {
    CrossedEdge(At(s, calls, i).cost, At(s, calls, i + 1).cost, threshold)
  }

  ghost predicate TokenEdgeAt(s: Spend, calls: seq<Call>, i: nat, threshold: real)
    requires i < |calls|
  {
    CrossedEdge(At(s, calls, i).tokens as real, At(s, calls, i + 1).tokens as real, threshold)
  }

  /** No threshold is crossed by two calls. */
  lemma EdgeOnce(s: Spend, calls: seq<Call>, threshold: real, i: nat, j: nat)
    requires NonNegative(calls) && i < j < |calls|
    ensures !(CostEdgeAt(s, calls, i, threshold) && CostEdgeAt(s, calls, j, threshold))
    ensures !(TokenEdgeAt(s, calls, i, threshold) && TokenEdgeAt(s, calls, j, threshold))
  {
    SpendGrows(s, calls, i + 1, j);
  }

  /** A positive cost threshold is crossed by some call exactly when the run climbs past it. */
  lemma CostEdgeIff(s: Spend, calls: seq<Call>, threshold: real)
    requires NonNegative(calls) && threshold > 0.0
    ensures (exists i: nat | i < |calls| :: CostEdgeAt(s, calls, i, threshold))
            <==> s.cost < threshold <= At(s, calls, |calls|).cost
  {
    forall i: nat | i < |calls| && CostEdgeAt(s, calls, i, threshold)
      ensures s.cost < threshold <= At(s, calls, |calls|).cost
    {
      SpendGrows(s, calls, 0, i);
      SpendGrows(s, calls, i + 1, |calls|);
    }
    if s.cost < threshold <= At(s, calls, |calls|).cost {
      var i := CostCrossing(s, calls, |calls|, threshold);
    }
  }

  lemma {:induction false} CostCrossing(s: Spend, calls: seq<Call>, n: nat, threshold: real) returns (i: nat)
    requires n <= |calls| && threshold > 0.0
    requires s.cost < threshold <= At(s, calls, n).cost
    ensures i < n && CostEdgeAt(s, calls, i, threshold)
  {
    if At(s, calls, n - 1).cost < threshold {
      i := n - 1;
    } else {
      i := CostCrossing(s, calls, n - 1, threshold);
    }
  }

  /** Once a call answers exceeded, so does every later call that bills anything. */
  lemma ExceededStays(s: Spend, calls: seq<Call>, b: Budgets, i: nat, j: nat)
    requires NonNegative(calls) && i < j < |calls|
    requires AnswerAt(s, calls, i, b).exceeded
    ensures AnswerAt(s, calls, j, b).exceeded <==> calls[j].Billable()
  {
    SpendGrows(s, calls, i + 1, j + 1);
  }

  /** The overshoot of the first exceeded call is less than that call's own delta. */
  lemma FirstExceeded(s: Spend, calls: seq<Call>, b: Budgets, i: nat)
    requires NonNegative(calls) && i < |calls| && !Over(s, b)
    requires AnswerAt(s, calls, i, b).exceeded
    requires forall k | 0 <= k < i :: !AnswerAt(s, calls, k, b).exceeded
    ensures b.cost > 0.0 ==> At(s, calls, i + 1).cost < b.cost + calls[i].cost
    ensures b.tokens.Some? ==> At(s, calls, i + 1).tokens < b.tokens.value + calls[i].Tokens()
  {
    UnderBefore(s, calls, b, i);
  }

  lemma {:induction false} UnderBefore(s: Spend, calls: seq<Call>, b: Budgets, i: nat)
    requires i <= |calls| && !Over(s, b)
    requires forall k | 0 <= k < i :: !AnswerAt(s, calls, k, b).exceeded
    ensures !Over(At(s, calls, i), b)
  {
    if i > 0 {
      UnderBefore(s, calls, b, i - 1);
      assert !AnswerAt(s, calls, i - 1, b).exceeded;
    }
  }

  /** Each budget warns at most once in a run. */
  lemma WarnsOncePerBudget(s: Spend, calls: seq<Call>, b: Budgets, i: nat, j: nat)
    requires NonNegative(calls) && i < j < |calls|
    ensures !(AnswerAt(s, calls, i, b).warnedCost && AnswerAt(s, calls, j, b).warnedCost)
    ensures !(AnswerAt(s, calls, i, b).warnedTokens && AnswerAt(s, calls, j, b).warnedTokens)
  {
    EdgeOnce(s, calls, b.warnCost, i, j);
    EdgeOnce(s, calls, b.warnTokens, i, j);
  }

  /** So no three calls of a run warn. */
  lemma AtMostTwoWarnings(s: Spend, calls: seq<Call>, b: Budgets, i: nat, j: nat, k: nat)
    requires NonNegative(calls) && i < j < k < |calls|
    ensures !(AnswerAt(s, calls, i, b).Warned() && AnswerAt(s, calls, j, b).Warned() &&
              AnswerAt(s, calls, k, b).Warned())
  {
    WarnsOncePerBudget(s, calls, b, i, j);
    WarnsOncePerBudget(s, calls, b, i, k);
    WarnsOncePerBudget(s, calls, b, j, k);
  }

  /** What `n` tokens cost at `rate` a token. */
  function Price(rate: real, n: nat): real { if n == 0 then 0.0 else Price(rate, n - 1) + rate }

  lemma {:induction false} PriceIs(rate: real, n: nat)
    ensures Price(rate, n) == rate * n as real
  {
    if n > 0 {
      PriceIs(rate, n - 1);
      assert rate * n as real == rate * ((n - 1) as real + 1.0) == rate * (n - 1) as real + rate;
    }
  }

  lemma {:induction false} PriceAdds(rate: real, a: nat, b: nat)
    ensures Price(rate, a + b) == Price(rate, a) + Price(rate, b)
  {
    if b > 0 {
      PriceAdds(rate, a, b - 1);
    }
  }

  lemma {:induction false} PriceRises(rate: real, a: nat, b: nat)
    requires rate > 0.0 && a <= b
    ensures 0.0 <= Price(rate, a) <= Price(rate, b)
    ensures a < b ==> Price(rate, a) < Price(rate, b)
    decreases b
  {
    if a < b {
      PriceRises(rate, a, b - 1);
    } else if a > 0 {
      PriceRises(rate, a - 1, b - 1);
    }
  }

  /** Calls cost what their tokens cost, at most `rate` a token. */
  ghost predicate Priced(calls: seq<Call>, rate: real) {
    forall i | 0 <= i < |calls| :: 0.0 <= calls[i].cost <= Price(rate, calls[i].Tokens())
  }

  /** Two calls of the run warn. */
  ghost predicate WarnsTwice(s: Spend, b: Budgets, calls: seq<Call>, rate: real) {
    && Priced(calls, rate)
    && exists i: nat, j: nat | i < j < |calls| :: AnswerAt(s, calls, i, b).Warned() && AnswerAt(s, calls, j, b).Warned()
  }

  /** The tokens still missing to a line. */
  function Missing(tokens: nat, line: real): (n: nat)
    ensures (tokens + n) as real >= line
    ensures n > 0 ==> (tokens + n - 1) as real < line
  {
    if tokens as real >= line then 0 else line.Floor - tokens + if line.Floor as real == line then 0 else 1
  }

  /** Tokens that can still be spent without reaching the budget. */
  function Room(s: Spend, b: Budgets): (n: nat)
    ensures b.tokens.Some? && n > 0 ==> s.tokens + n + 1 == b.tokens.value
    ensures b.tokens.Some? && n == 0 ==> s.tokens + 1 >= b.tokens.value
  {
    var budget := b.tokens.GetOr(0);
    if s.tokens + 1 < budget then budget - 1 - s.tokens else 0
  }

  /** What is missing to both lines can be spent on two calls: the last of the tokens pay for the rest of the cost, or
      the cost comes first and one token is left for the other line. */
  predicate FitsTwoCalls(room: nat, need: nat, missing: real, rate: real) {
    || (need < room && Price(rate, room) >= missing)
    || (0 < need == room && Price(rate, room - 1) >= missing)
  }

  /** Both warning lines are ahead, and can be crossed by two calls without reaching a budget. */
  predicate BothLinesAhead(s: Spend, b: Budgets, rate: real) {
    && b.tokens.Some?
    && s.cost < b.warnCost && 0.0 < b.warnCost && (b.cost > 0.0 ==> b.warnCost < b.cost)
    && s.tokens as real < b.warnTokens && 0.0 < b.warnTokens
    && FitsTwoCalls(Room(s, b), Missing(s.tokens, b.warnTokens), b.warnCost - s.cost, rate)
  }

  lemma {:induction false} PricedGrows(s: Spend, calls: seq<Call>, rate: real, i: nat)
    requires Priced(calls, rate) && i <= |calls|
    ensures At(s, calls, i).tokens >= s.tokens
    ensures At(s, calls, i).cost - s.cost <= Price(rate, At(s, calls, i).tokens - s.tokens)
  {
    if i > 0 {
      PricedGrows(s, calls, rate, i - 1);
      PriceAdds(rate, At(s, calls, i - 1).tokens - s.tokens, calls[i - 1].Tokens());
    }
  }

  lemma CostWarningMeans(s: Spend, calls: seq<Call>, b: Budgets, rate: real, i: nat)
    requires Priced(calls, rate) && i < |calls| && AnswerAt(s, calls, i, b).warnedCost
    ensures s.cost < b.warnCost && 0.0 < b.warnCost && (b.cost > 0.0 ==> b.warnCost < b.cost)
    ensures s.tokens <= At(s, calls, i).tokens < At(s, calls, i + 1).tokens
    ensures Price(rate, At(s, calls, i + 1).tokens - s.tokens) >= b.warnCost - s.cost
    ensures b.tokens.Some? ==> At(s, calls, i + 1).tokens - s.tokens <= Room(s, b)
  {
    SpendGrows(s, calls, 0, i);
    PricedGrows(s, calls, rate, i + 1);
  }

  lemma TokenWarningMeans(s: Spend, calls: seq<Call>, b: Budgets, i: nat)
    requires NonNegative(calls) && i < |calls| && AnswerAt(s, calls, i, b).warnedTokens
    ensures b.tokens.Some? && s.tokens as real < b.warnTokens && 0.0 < b.warnTokens
    ensures s.tokens <= At(s, calls, i).tokens < s.tokens + Missing(s.tokens, b.warnTokens)
    ensures Missing(s.tokens, b.warnTokens) <= At(s, calls, i + 1).tokens - s.tokens <= Room(s, b)
  {
    SpendGrows(s, calls, 0, i);
  }

  /** Two calls that warn, one for each line. */
  lemma TwoCalls(s: Spend, b: Budgets, rate: real, first: Call, second: Call)
    requires 0.0 <= first.cost <= Price(rate, first.Tokens()) && 0.0 <= second.cost <= Price(rate, second.Tokens())
    requires AnswerTo(s, first, b).Warned() && AnswerTo(After(s, first), second, b).Warned()
    ensures WarnsTwice(s, b, [first, second], rate)
  {
    var calls := [first, second];
    assert At(s, calls, 0) == s && At(s, calls, 1) == After(s, first);
    assert AnswerAt(s, calls, 0, b).Warned() && AnswerAt(s, calls, 1, b).Warned();
  }

  /** The token line first: its last tokens are left for a second call that takes the cost to its line. */
  lemma TokensFirst(s: Spend, b: Budgets, rate: real) returns (calls: seq<Call>)
    requires rate > 0.0 && BothLinesAhead(s, b, rate) && Missing(s.tokens, b.warnTokens) < Room(s, b)
    ensures WarnsTwice(s, b, calls, rate)
  {
    var (room, need, missing) := (Room(s, b), Missing(s.tokens, b.warnTokens), b.warnCost - s.cost);
    PriceAdds(rate, need, room - need);
    PriceRises(rate, 0, room - need);
    PriceRises(rate, 0, need);
    var rest := Price(rate, room - need);
    var now := if missing <= rest then 0.0 else missing - rest;
    calls := [Call(need, 0, 0, 0, now), Call(room - need, 0, 0, 0, missing - now)];
    assert After(s, calls[0]) == Spend(s.cost + now, s.tokens + need);
    assert AnswerTo(s, calls[0], b).warnedTokens;
    assert After(After(s, calls[0]), calls[1]) == Spend(b.warnCost, s.tokens + room);
    TwoCalls(s, b, rate, calls[0], calls[1]);
  }

  /** The cost line first, with all tokens but one. */
  lemma CostFirst(s: Spend, b: Budgets, rate: real) returns (calls: seq<Call>)
    requires rate > 0.0 && BothLinesAhead(s, b, rate) && Missing(s.tokens, b.warnTokens) == Room(s, b)
    ensures WarnsTwice(s, b, calls, rate)
  {
    var (room, missing) := (Room(s, b), b.warnCost - s.cost);
    PriceRises(rate, 0, 1);
    calls := [Call(room - 1, 0, 0, 0, missing), Call(1, 0, 0, 0, 0.0)];
    assert After(s, calls[0]) == Spend(b.warnCost, s.tokens + room - 1);
    assert AnswerTo(s, calls[0], b).warnedCost;
    assert After(After(s, calls[0]), calls[1]) == Spend(b.warnCost, s.tokens + room);
    TwoCalls(s, b, rate, calls[0], calls[1]);
  }

  lemma WarnedApart(s: Spend, b: Budgets, calls: seq<Call>, rate: real, cost: nat, tokens: nat)
    requires rate > 0.0 && Priced(calls, rate) && NonNegative(calls) && cost < |calls| && tokens < |calls|
    requires cost != tokens && AnswerAt(s, calls, cost, b).warnedCost && AnswerAt(s, calls, tokens, b).warnedTokens
    ensures BothLinesAhead(s, b, rate)
  {
    CostWarningMeans(s, calls, b, rate, cost);
    TokenWarningMeans(s, calls, b, tokens);
    if tokens < cost {
      SpendGrows(s, calls, tokens + 1, cost);
    } else {
      SpendGrows(s, calls, cost + 1, tokens);
    }
    Fitting(Room(s, b), Missing(s.tokens, b.warnTokens), b.warnCost - s.cost, rate,
            At(s, calls, cost + 1).tokens - s.tokens);
  }

  lemma Fitting(room: nat, need: nat, missing: real, rate: real, spent: nat)
    requires rate > 0.0 && 0 < need <= room && spent <= room && Price(rate, spent) >= missing
    requires need < spent || spent < need
    ensures FitsTwoCalls(room, need, missing, rate)
  {
    PriceRises(rate, spent, room);
    if need == room {
      PriceRises(rate, spent, room - 1);
    }
  }

  /** The warning is not once per job. With calls that cost at most `rate` a token, some run warns twice exactly when
      both lines are ahead and can be crossed by two calls, neither reaching a budget. */
  lemma WarnsTwiceIff(s: Spend, b: Budgets, rate: real)
    requires rate > 0.0
    ensures (exists calls :: WarnsTwice(s, b, calls, rate)) <==> BothLinesAhead(s, b, rate)
  {
    if calls :| WarnsTwice(s, b, calls, rate) {
      var i: nat, j: nat :| i < j < |calls| && AnswerAt(s, calls, i, b).Warned() && AnswerAt(s, calls, j, b).Warned();
      WarnsOncePerBudget(s, calls, b, i, j);
      var (cost, tokens) := if AnswerAt(s, calls, i, b).warnedCost then (i, j) else (j, i);
      WarnedApart(s, b, calls, rate, cost, tokens);
    }
    if BothLinesAhead(s, b, rate) {
      var calls;
      if Missing(s.tokens, b.warnTokens) < Room(s, b) {
        calls := TokensFirst(s, b, rate);
      } else {
        calls := CostFirst(s, b, rate);
      }
    }
  }

  /** A job with both budgets, warned on two calls: at 5 USD a million input and 25 USD a million output tokens it reads
      800 000 tokens and then writes 32 000. */
  lemma TwoWarnings()
    ensures WarnsTwice(Spend(0.0, 0), InForce(Some(6.0), Some(1000000), 5.0, 0.8),
                       [Call(800000, 0, 0, 0, 4.0), Call(0, 32000, 0, 0, 0.8)], 0.000025)
  {
    var (s, b) := (Spend(0.0, 0), InForce(Some(6.0), Some(1000000), 5.0, 0.8));
    PriceIs(0.000025, 800000);
    PriceIs(0.000025, 32000);
    assert After(s, Call(800000, 0, 0, 0, 4.0)) == Spend(4.0, 800000);
    TwoCalls(s, b, 0.000025, Call(800000, 0, 0, 0, 4.0), Call(0, 32000, 0, 0, 0.8));
  }

  /** A job whose token budget is too small for its cost line to be reached is warned once at most. */
  lemma OneWarning(calls: seq<Call>)
    ensures !WarnsTwice(Spend(0.0, 0), InForce(Some(10.0), Some(100), 5.0, 0.8), calls, 0.00003)
  {
    var (s, b) := (Spend(0.0, 0), InForce(Some(10.0), Some(100), 5.0, 0.8));
    PriceIs(0.00003, 99);
    PriceRises(0.00003, 98, 99);
    WarnsTwiceIff(s, b, 0.00003);
  }

  // ---- the stored column keeps four decimals ----

  // Amounts in units of 1e-8 USD; the NUMERIC(12,4) column holds multiples of 10000 units.
  const CELL: nat := 10000

  /** Rounding on store, half away from zero (amounts are not negative). */
  function Stored(units: nat): nat {
    (units + CELL / 2) / CELL * CELL
  }

  /** The column after a call of `delta` units. */
  function StoredAfter(column: nat, delta: nat): nat {
    Stored(column + delta)
  }

  /** The hook's edge test reads the column and subtracts the exact delta. */
  predicate StoredEdge(column: nat, delta: nat, threshold: nat) {
    var now := StoredAfter(column, delta);
    threshold > 0 && now - delta < threshold && now >= threshold
  }

  /** The column after the first `n` calls of a run. */
  function ColumnAt(column: nat, deltas: seq<nat>, n: nat): nat
    requires n <= |deltas|
  {
    if n == 0 then column else StoredAfter(ColumnAt(column, deltas, n - 1), deltas[n - 1])
  }

  /** What the first `n` calls really cost. */
  function SpentBy(deltas: seq<nat>, n: nat): nat
    requires n <= |deltas|
  {
    if n == 0 then 0 else SpentBy(deltas, n - 1) + deltas[n - 1]
  }

  /** How many of the first `n` calls report the threshold. */
  function Crossings(column: nat, deltas: seq<nat>, n: nat, threshold: nat): nat
    requires n <= |deltas|
  {
    if n == 0 then 0
    else
      Crossings(column, deltas, n - 1, threshold) +
      if StoredEdge(ColumnAt(column, deltas, n - 1), deltas[n - 1], threshold) then 1 else 0
  }

  /** Whether a run that starts with this column passes the threshold. */
  function Passed(column: nat, deltas: seq<nat>, n: nat, threshold: nat): nat
    requires n <= |deltas|
  {
    if column < threshold <= ColumnAt(column, deltas, n) then 1 else 0
  }

  /** Wherever the column starts, a run reports each threshold once if it passes it and not at all otherwise. */
  ghost predicate EdgesExact(deltas: seq<nat>) {
    forall column: nat, threshold: nat | column % CELL == 0 && threshold > 0 ::
      Crossings(column, deltas, |deltas|, threshold) == Passed(column, deltas, |deltas|, threshold)
  }

  predicate WholeCells(deltas: seq<nat>) { forall k | 0 <= k < |deltas| :: deltas[k] % CELL == 0 }

  lemma StoredStep(column: nat, delta: nat)
    requires column % CELL == 0
    ensures StoredAfter(column, delta) == column + Stored(delta)
    ensures Stored(delta) % CELL == 0 && StoredAfter(column, delta) % CELL == 0
    ensures delta % CELL == 0 <==> Stored(delta) == delta
    ensures 2 * delta < 2 * Stored(delta) + CELL && 2 * Stored(delta) <= 2 * delta + CELL
    ensures Stored(delta) == 0 <==> delta < CELL / 2
  {
    var c := column / CELL;
    assert column == c * CELL;
    assert (c * CELL + delta + CELL / 2) / CELL == c + (delta + CELL / 2) / CELL;
  }

  lemma {:induction false} ColumnGrows(column: nat, deltas: seq<nat>, m: nat, n: nat)
    requires column % CELL == 0 && m <= n <= |deltas|
    ensures ColumnAt(column, deltas, n) % CELL == 0
    ensures ColumnAt(column, deltas, m) <= ColumnAt(column, deltas, n)
    decreases n
  {
    if n > 0 {
      ColumnGrows(column, deltas, if m < n then m else n - 1, n - 1);
      StoredStep(ColumnAt(column, deltas, n - 1), deltas[n - 1]);
    }
  }

  lemma {:induction false} WholeRunExact(column: nat, deltas: seq<nat>, n: nat, threshold: nat)
    requires column % CELL == 0 && threshold > 0 && n <= |deltas|
    requires forall k | 0 <= k < n :: deltas[k] % CELL == 0
    ensures Crossings(column, deltas, n, threshold) == Passed(column, deltas, n, threshold)
  {
    if n > 0 {
      WholeRunExact(column, deltas, n - 1, threshold);
      ColumnGrows(column, deltas, 0, n - 1);
      StoredStep(ColumnAt(column, deltas, n - 1), deltas[n - 1]);
    }
  }

  lemma {:induction false} CrossingsGrow(column: nat, deltas: seq<nat>, m: nat, n: nat, threshold: nat)
    requires m <= n <= |deltas|
    ensures Crossings(column, deltas, m, threshold) <= Crossings(column, deltas, n, threshold)
    decreases n
  {
    if m < n {
      CrossingsGrow(column, deltas, m, n - 1, threshold);
    }
  }

  /** A threshold a whole cell behind the column is not reported any more. */
  lemma {:induction false} NoLateReport(column: nat, deltas: seq<nat>, m: nat, n: nat, threshold: nat)
    requires column % CELL == 0 && m <= n <= |deltas| && threshold + CELL <= ColumnAt(column, deltas, m) + 1
    ensures Crossings(column, deltas, n, threshold) == Crossings(column, deltas, m, threshold)
    decreases n
  {
    if m < n {
      NoLateReport(column, deltas, m, n - 1, threshold);
      ColumnGrows(column, deltas, m, n - 1);
      StoredStep(ColumnAt(column, deltas, n - 1), deltas[n - 1]);
    }
  }

  /** The first call that is not a whole number of cells: rounded down, the cell the column stood at is reported
      once too often; rounded up, a threshold just above it is passed unreported. */
  lemma FirstOddCall(deltas: seq<nat>, k: nat) returns (threshold: nat)
    requires k < |deltas| && deltas[k] % CELL != 0 && forall i | 0 <= i < k :: deltas[i] % CELL == 0
    ensures threshold > 0
    ensures Crossings(CELL, deltas, |deltas|, threshold) != Passed(CELL, deltas, |deltas|, threshold)
  {
    var column := ColumnAt(CELL, deltas, k);
    ColumnGrows(CELL, deltas, 0, k);
    ColumnGrows(CELL, deltas, k + 1, |deltas|);
    StoredStep(column, deltas[k]);
    threshold := if Stored(deltas[k]) < deltas[k] then column else column + 1;
    WholeRunExact(CELL, deltas, k, threshold);
    if Stored(deltas[k]) < deltas[k] {
      CrossingsGrow(CELL, deltas, k + 1, |deltas|, threshold);
    } else {
      NoLateReport(CELL, deltas, k + 1, |deltas|, threshold);
    }
  }

  lemma FirstOdd(deltas: seq<nat>) returns (k: nat)
    requires !WholeCells(deltas)
    ensures k < |deltas| && deltas[k] % CELL != 0 && forall i | 0 <= i < k :: deltas[i] % CELL == 0
  {
    k := 0;
    while deltas[k] % CELL == 0
      invariant k < |deltas| && (forall i | 0 <= i < k :: deltas[i] % CELL == 0)
      invariant !WholeCells(deltas)
      decreases |deltas| - k
    {
      k := k + 1;
    }
  }

  /** With the four-decimal column the edge triggers of a run are exact precisely when every call costs a whole
      number of cells. */
  lemma EdgesExactIff(deltas: seq<nat>)
    ensures EdgesExact(deltas) <==> WholeCells(deltas)
  {
    if WholeCells(deltas) {
      forall column: nat, threshold: nat | column % CELL == 0 && threshold > 0
        ensures Crossings(column, deltas, |deltas|, threshold) == Passed(column, deltas, |deltas|, threshold)
      {
        WholeRunExact(column, deltas, |deltas|, threshold);
      }
    } else {
      var k := FirstOdd(deltas);
      var threshold := FirstOddCall(deltas, k);
      assert CELL % CELL == 0;
    }
  }

  /** A call of a hundred-millionth of a dollar reports a threshold the column stood at already; one of half a cell
      passes the next one unreported. */
  lemma OddCallsMisreport()
    ensures Crossings(CELL, [1], 1, CELL) == 1 && Passed(CELL, [1], 1, CELL) == 0
    ensures Crossings(CELL, [5000], 1, CELL + 1) == 0 && Passed(CELL, [5000], 1, CELL + 1) == 1
  {
    assert ColumnAt(CELL, [1], 0) == CELL && StoredAfter(CELL, 1) == CELL;
    assert ColumnAt(CELL, [5000], 0) == CELL && StoredAfter(CELL, 5000) == 2 * CELL;
  }

  /** The column tells the true spend after every call exactly when every call costs a whole number of cells. */
  lemma StoredTotalIff(column: nat, deltas: seq<nat>)
    requires column % CELL == 0
    ensures (forall n | 0 <= n <= |deltas| :: ColumnAt(column, deltas, n) == column + SpentBy(deltas, n)) <==>
            WholeCells(deltas)
  {
    if WholeCells(deltas) {
      WholeTotal(column, deltas, |deltas|);
    } else {
      var k := FirstOdd(deltas);
      WholeTotal(column, deltas, k);
      ColumnGrows(column, deltas, 0, k);
      StoredStep(ColumnAt(column, deltas, k), deltas[k]);
      assert ColumnAt(column, deltas, k + 1) != column + SpentBy(deltas, k + 1);
    }
  }

  lemma {:induction false} WholeTotal(column: nat, deltas: seq<nat>, n: nat)
    requires column % CELL == 0 && n <= |deltas| && forall i | 0 <= i < n :: deltas[i] % CELL == 0
    ensures forall m | 0 <= m <= n :: ColumnAt(column, deltas, m) == column + SpentBy(deltas, m)
  {
    if n > 0 {
      WholeTotal(column, deltas, n - 1);
      ColumnGrows(column, deltas, 0, n - 1);
      StoredStep(ColumnAt(column, deltas, n - 1), deltas[n - 1]);
    }
  }

  /** A run leaves the column where it was, so that no budget stops it, exactly when each of its calls costs less
      than half a cell. */
  lemma {:induction false} SmallCallsInvisible(column: nat, deltas: seq<nat>, n: nat)
    requires column % CELL == 0 && n <= |deltas|
    ensures ColumnAt(column, deltas, n) == column <==> forall k | 0 <= k < n :: deltas[k] < CELL / 2
  {
    if n > 0 {
      SmallCallsInvisible(column, deltas, n - 1);
      ColumnGrows(column, deltas, 0, n - 1);
      StoredStep(ColumnAt(column, deltas, n - 1), deltas[n - 1]);
    }
  }
}
