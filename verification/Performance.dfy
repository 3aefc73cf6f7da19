/**
 Evaluating portfolio performance period by period: the gates a period passes, the figures it
 publishes, and the chain of wealth, high water and drawdown that one gap breaks for good.
 Published figures are whole quanta of 1e-10.
 */
module Performance {
  import opened Wrappers
  import opened Rounding
  import opened Sums
  import opened Dietz

  // -------------------------------------------------------- owner flows

  const EXTERNAL := {"owner_deposit", "owner_withdrawal"}
  const LINKED := {"internal_transfer_in", "internal_transfer_out", "trade_settlement_in", "trade_settlement_out", "fx_in", "fx_out"}

  datatype CashRow = CashRow(
    eventType: string, amount: real, currency: string, at: int, eventQuality: string, classQuality: string, link: string)

  datatype Verdict = Refused(reason: string) | Skipped | Taken(flow: Flow)

  function Judge(row: CashRow): Verdict {
    if row.eventQuality != "pass" || row.classQuality != "pass" then Refused("cash_flow_input_quality")
    else if row.eventType == "unknown" then Refused("unclassified_cash_flow")
    else if row.eventType in LINKED && row.link !in {"explicit", "reconciled"} then Refused("unreconciled_internal_cash_flow")
    else if row.eventType !in EXTERNAL then Skipped
    else if row.eventType == "owner_deposit" && row.amount < 0.0 then Refused("invalid_owner_flow_sign")
    else if row.eventType == "owner_withdrawal" && row.amount > 0.0 then Refused("invalid_owner_flow_sign")
    else if row.currency != "KRW" then Refused("unsupported_cash_flow_currency")
    else Taken(Flow(CASH, row.amount, row.at))
  }

  /** All owner flows in row order, or the reason of the first row that is refused. */
  function OwnerFlows(rows: seq<CashRow>): Result<seq<Flow>, string> {
    if rows == [] then Ok([])
    else
      match (OwnerFlows(rows[..|rows| - 1]), Judge(rows[|rows| - 1]))
      case (Err(reason), _) => Err(reason)
      case (Ok(_), Refused(reason)) => Err(reason)
      case (Ok(flows), Skipped) => Ok(flows)
      case (Ok(flows), Taken(flow)) => Ok(flows + [flow])
  }

  lemma {:induction false} RefusedEarly(rows: seq<CashRow>, k: nat)
    requires k <= |rows| && OwnerFlows(rows[..k]).Err?
    ensures OwnerFlows(rows) == OwnerFlows(rows[..k])
    decreases |rows|
  {
    if k == |rows| {
      assert rows[..k] == rows;
    } else {
      assert rows[..|rows| - 1][..k] == rows[..k];
      RefusedEarly(rows[..|rows| - 1], k);
    }
  }

  method CashFlows(rows: seq<CashRow>) returns (flows: Result<seq<Flow>, string>)
    ensures flows == OwnerFlows(rows)
  {
    var taken: seq<Flow> := [];
    var k := 0;
    while k < |rows|
      invariant 0 <= k <= |rows| && OwnerFlows(rows[..k]) == Ok(taken)
    {
      var row := rows[k];
      assert rows[..k + 1][..k] == rows[..k];
      if Judge(row).Refused? {
        RefusedEarly(rows, k + 1);
        return Err(Judge(row).reason);
      }
      if Judge(row).Taken? {
        taken := taken + [Flow(CASH, row.amount, row.at)];
      }
      k := k + 1;
    }
    assert rows[..k] == rows;
    flows := Ok(taken);
  }

  /** Owner flows all go to KRW cash and keep their rows' instants; deposits add and withdrawals take. */
  lemma {:induction false} OwnerFlowsMean(rows: seq<CashRow>, after: int, until: int)
    requires OwnerFlows(rows).Ok? && forall i :: 0 <= i < |rows| ==> after < rows[i].at <= until
    ensures forall i :: 0 <= i < |OwnerFlows(rows).value| ==>
              OwnerFlows(rows).value[i].component == CASH && after < OwnerFlows(rows).value[i].at <= until
  {
    if rows != [] { OwnerFlowsMean(rows[..|rows| - 1], after, until); }
  }

  // ---------------------------------------------------------- one period

  datatype Snapshot = Snapshot(state: State, accounts: set<string>, quality: Option<string>)

  datatype Chain = Chain(available: bool, wealth: int, highWater: int)

  const BASE := 10_000_000_000
  const START := Chain(true, BASE, BASE)

  datatype Inputs = Inputs(
    prior: Option<Snapshot>, current: Option<Snapshot>, required: int -> set<string>,
    calendar: Option<string>, coverage: Option<string>, rows: seq<CashRow>, ids: seq<string>)
  {
    /** The query returns flows between the two cutoffs; `ids` are the sorted components of both states. */
    ghost predicate Valid() {
      && (prior.Some? ==> prior.value.state.Valid()) && (current.Some? ==> current.value.state.Valid())
      && (prior.Some? && current.Some? ==>
            && Covers(ids, prior.value.state.order, current.value.state.order)
            && forall i :: 0 <= i < |rows| ==> prior.value.state.at < rows[i].at <= current.value.state.at)
    }
  }

  datatype Outcome =
    | Unavailable(reason: string, chain: Chain)
    | Published(periodReturn: int, contributions: seq<int>, residual: int, wealth: Option<int>, drawdown: Option<int>, chain: Chain)

  function Gate(i: Inputs): Option<string> {
    if i.prior.None? then Some("insufficient_history")
    else if i.current.None? then Some("missing_current_state")
    else
      var p, c := i.prior.value, i.current.value;
      if p.quality.Some? then p.quality
      else if c.quality.Some? then c.quality
      else if i.required(p.state.at) == {} || p.accounts != i.required(p.state.at) then Some("prior_account_coverage_mismatch")
      else if i.required(c.state.at) == {} || c.accounts != i.required(c.state.at) then Some("current_account_coverage_mismatch")
      else if p.accounts != c.accounts then Some("account_coverage_changed")
      else if i.calendar.Some? then i.calendar
      else if c.state.at <= p.state.at then Some("invalid_state_order")
      else if i.coverage.Some? then i.coverage
      else match OwnerFlows(i.rows) case Err(reason) => Some(reason) case Ok(_) => None
  }

  function PeriodOf(i: Inputs): (p: Period)
    requires i.Valid() && Gate(i).None?
    ensures p.Valid()
    ensures forall k :: 0 <= k < |p.flows| ==> p.flows[k].component == CASH
  {
    OwnerFlowsMean(i.rows, i.prior.value.state.at, i.current.value.state.at);
    Period(i.prior.value.state, i.current.value.state, OwnerFlows(i.rows).value)
  }

  function Grown(wealth: int, periodReturn: int): int {
    HalfEven(wealth as real * (1.0 + periodReturn as real / QUANTA))
  }

  function Drawdown(wealth: int, highWater: int): int
    requires highWater > 0
  {
    Quanta(Per(wealth as real, highWater as real) - 1.0)
  }

  function Link(chain: Chain, periodReturn: int): Chain {
    var wealth := Grown(chain.wealth, periodReturn);
    Chain(true, wealth, if wealth > chain.highWater then wealth else chain.highWater)
  }

  function ContributionsOf(p: Period, ids: seq<string>): (cs: seq<int>)
    requires p.Valid() && p.Denominator() != 0.0
    ensures |cs| == |ids|
  {
    seq(|ids|, k requires 0 <= k < |ids| => ContributionQuanta(p, ids[k]))
  }

  function Broken(chain: Chain): Chain {
    chain.(available := false)
  }

  /** The high water never falls below the base or the wealth it stands over. */
  predicate Sane(chain: Chain) {
    chain.highWater >= BASE && chain.highWater >= chain.wealth
  }

  /** What any outcome does to the chain. */
  ghost predicate Linked(chain: Chain, outcome: Outcome) {
    match outcome
    case Unavailable(_, after) => after == Broken(chain)
    case Published(periodReturn, _, _, wealth, drawdown, after) =>
      if chain.available then
        && wealth == Some(Grown(chain.wealth, periodReturn)) && drawdown.Some? && drawdown.value <= 0
        && after.available && after.wealth == wealth.value && after.highWater >= after.wealth
        && after.highWater == if wealth.value > chain.highWater then wealth.value else chain.highWater
      else wealth == None && drawdown == None && after == chain
  }

  lemma PerSame(x: real)
    requires x != 0.0
    ensures Per(x, x) == 1.0
  {
  }

  lemma DrawdownSign(wealth: int, highWater: int)
    requires highWater > 0 && wealth <= highWater
    ensures Drawdown(wealth, highWater) <= 0
    ensures wealth == highWater ==> Drawdown(wealth, highWater) == 0
  {
    hide HalfEven, Per;
    var q, h := Per(wealth as real, highWater as real), highWater as real;
    PerProduct(wealth as real, h);
    if q > 1.0 { Negative(q - 1.0, h); }
    PerSame(h);
    HalfEvenOfWhole(0);
  }

  /** `evaluate_period_and_store`; it raises when neither state exists. */
  function Evaluate(i: Inputs, chain: Chain): (outcome: Result<Outcome, string>)
    requires i.Valid() && chain.highWater > 0
    ensures outcome.Ok? ==> Linked(chain, outcome.value)
  {
    if i.prior.None? && i.current.None? then Err("at least one portfolio state is required to persist a period outcome")
    else if Gate(i).Some? then Ok(Unavailable(Gate(i).value, Broken(chain)))
    else
      var p := PeriodOf(i);
      if p.Denominator() == 0.0 then Ok(Unavailable("zero_denominator", Broken(chain)))
      else if !Reconciled(p, i.ids) then Ok(Unavailable("contribution_reconciliation_failed", Broken(chain)))
      else
        var r, contributions, residual := ReturnQuanta(p), ContributionsOf(p, i.ids), ResidualQuanta(p, i.ids);
        if !chain.available then Ok(Published(r, contributions, residual, None, None, chain))
        else
          var next := Link(chain, r);
          DrawdownSign(next.wealth, next.highWater);
          Ok(Published(r, contributions, residual, Some(next.wealth), Some(Drawdown(next.wealth, next.highWater)), next))
  }

  // ------------------------------------------------------------- the loops

  /** The flows of each component, in order. */
  method FlowsByComponent(flows: seq<Flow>) returns (byComponent: map<string, seq<Flow>>)
    ensures forall id :: FlowSum(if id in byComponent then byComponent[id] else []) == FlowsOf(flows, id)
  {
    byComponent := map[];
    var k := 0;
    while k < |flows|
      invariant 0 <= k <= |flows|
      invariant forall id :: FlowSum(if id in byComponent then byComponent[id] else []) == FlowsOf(flows[..k], id)
    {
      var flow := flows[k];
      assert flows[..k + 1][..k] == flows[..k];
      var listed := if flow.component in byComponent then byComponent[flow.component] else [];
      assert (listed + [flow])[..|listed|] == listed;
      byComponent := byComponent[flow.component := listed + [flow]];
      k := k + 1;
    }
    assert flows[..k] == flows;
  }

  /** The weighted flows that enter the denominator. */
  method WeighFlows(p: Period) returns (denominator: real)
    requires p.Valid()
    ensures denominator == p.Denominator()
  {
    var weighted := 0.0;
    var k := 0;
    while k < |p.flows|
      invariant 0 <= k <= |p.flows| && weighted == p.WeightedFlows(p.flows[..k])
    {
      var flow := p.flows[k];
      assert p.flows[..k + 1][..k] == p.flows[..k];
      weighted := weighted + flow.amount * p.Weight(flow.at);
      k := k + 1;
    }
    assert p.flows[..k] == p.flows;
    denominator := SumOf(p.prior.order, p.prior.Values()) + weighted;
  }

  /** Every component's contribution and their sum. */
  method Contribute(p: Period, ids: seq<string>, denominator: real) returns (contributions: seq<int>, total: int)
    requires p.Valid() && denominator == p.Denominator() != 0.0
    ensures contributions == ContributionsOf(p, ids) && total == ContributionQuantaSum(p, ids)
  {
    hide HalfEven, Per, FlowSum, FlowsOf, Period.Denominator;
    var byComponent := FlowsByComponent(p.flows);
    contributions, total := [], 0;
    var k := 0;
    while k < |ids|
      invariant 0 <= k <= |ids|
      invariant contributions == ContributionsOf(p, ids[..k]) && total == ContributionQuantaSum(p, ids[..k])
    {
      var id := ids[k];
      var flows := FlowSum(if id in byComponent then byComponent[id] else []);
      var contribution := Quanta(Per(p.current.Value(id) - p.prior.Value(id) - flows, denominator));
      assert contribution == ContributionQuanta(p, id);
      assert ids[..k + 1] == ids[..k] + [id] && ids[..k + 1][..k] == ids[..k];
      contributions, total := contributions + [contribution], total + contribution;
      k := k + 1;
    }
    assert ids[..k] == ids;
  }

  method EvaluatePeriodAndStore(i: Inputs, chain: Chain) returns (outcome: Result<Outcome, string>)
    requires i.Valid() && chain.highWater > 0
    ensures outcome == Evaluate(i, chain)
  {
    hide HalfEven, Per, ContributionQuantaSum, ContributionQuanta, Period.Denominator, Period.Gain;
    if i.prior.None? && i.current.None? {
      return Err("at least one portfolio state is required to persist a period outcome");
    }
    if Gate(i).Some? {
      return Ok(Unavailable(Gate(i).value, Broken(chain)));
    }
    var flows := CashFlows(i.rows);
    var p := Period(i.prior.value.state, i.current.value.state, flows.value);
    assert p == PeriodOf(i);
    var denominator := WeighFlows(p);
    if denominator == 0.0 {
      return Ok(Unavailable("zero_denominator", Broken(chain)));
    }
    var periodReturn := ReturnQuanta(p);
    var contributions, total := Contribute(p, i.ids, denominator);
    var residual := periodReturn - total;
    if !(-1 <= residual <= 1) {
      return Ok(Unavailable("contribution_reconciliation_failed", Broken(chain)));
    }
    if chain.available {
      var wealth := Grown(chain.wealth, periodReturn);
      var highWater := if wealth > chain.highWater then wealth else chain.highWater;
      outcome := Ok(Published(periodReturn, contributions, residual, Some(wealth), Some(Drawdown(wealth, highWater)),
                              Chain(true, wealth, highWater)));
    } else {
      outcome := Ok(Published(periodReturn, contributions, residual, None, None, chain));
    }
  }

  // ------------------------------------------------------------ the history

  ghost predicate AllValid(periods: seq<Inputs>) {
    forall k :: 0 <= k < |periods| ==> periods[k].Valid()
  }

  function ChainOf(outcomes: seq<Outcome>): Chain {
    if outcomes == [] then START else outcomes[|outcomes| - 1].chain
  }

  /** Each period is evaluated with the chain the one before it left. */
  function History(periods: seq<Inputs>): (outcomes: Result<seq<Outcome>, string>)
    requires AllValid(periods)
    ensures outcomes.Ok? ==> |outcomes.value| == |periods| && Sane(ChainOf(outcomes.value))
  {
    if periods == [] then Ok([])
    else
      match History(periods[..|periods| - 1])
      case Err(reason) => Err(reason)
      case Ok(earlier) =>
        match Evaluate(periods[|periods| - 1], ChainOf(earlier))
        case Err(reason) => Err(reason)
        case Ok(outcome) => Ok(earlier + [outcome])
  }

  lemma {:induction false} RaisedEarly(periods: seq<Inputs>, k: nat)
    requires AllValid(periods) && k <= |periods| && History(periods[..k]).Err?
    ensures History(periods) == History(periods[..k])
    decreases |periods|
  {
    hide Evaluate;
    if k == |periods| {
      assert periods[..k] == periods;
    } else {
      assert periods[..|periods| - 1][..k] == periods[..k];
      RaisedEarly(periods[..|periods| - 1], k);
    }
  }

  method EvaluateHistoryAndStore(periods: seq<Inputs>) returns (outcomes: Result<seq<Outcome>, string>)
    requires AllValid(periods)
    ensures outcomes == History(periods)
  {
    hide Evaluate, Inputs.Valid;
    var done: seq<Outcome>, chain := [], START;
    var k := 0;
    while k < |periods|
      invariant 0 <= k <= |periods|
      invariant History(periods[..k]) == Ok(done) && chain == ChainOf(done) && Sane(chain)
    {
      assert periods[..k + 1][..k] == periods[..k];
      var outcome := EvaluatePeriodAndStore(periods[k], chain);
      if outcome.Err? {
        RaisedEarly(periods, k + 1);
        return Err(outcome.error);
      }
      done, chain := done + [outcome.value], outcome.value.chain;
      assert History(periods[..k + 1]) == Ok(done);
      k := k + 1;
    }
    assert periods[..k] == periods;
    outcomes := Ok(done);
  }

  lemma {:induction false} HistoryPrefix(periods: seq<Inputs>, n: nat)
    requires AllValid(periods) && History(periods).Ok? && n <= |periods|
    ensures History(periods[..n]) == Ok(History(periods).value[..n])
    decreases |periods|
  {
    hide Evaluate;
    if n == |periods| {
      assert periods[..n] == periods && History(periods).value[..n] == History(periods).value;
    } else {
      var front := periods[..|periods| - 1];
      assert front[..n] == periods[..n];
      HistoryPrefix(front, n);
      assert History(periods).value[..n] == History(front).value[..n];
    }
  }

  /** The greatest of the base and the wealth published so far. */
  function Peak(outcomes: seq<Outcome>): int {
    if outcomes == [] then BASE
    else
      var earlier, last := Peak(outcomes[..|outcomes| - 1]), outcomes[|outcomes| - 1];
      if last.Published? && last.wealth.Some? && last.wealth.value > earlier then last.wealth.value else earlier
  }

  ghost predicate AllPublished(outcomes: seq<Outcome>, n: nat) {
    n <= |outcomes| && forall k :: 0 <= k < n ==> outcomes[k].Published?
  }

  ghost predicate WellChained(outcomes: seq<Outcome>) {
    && ChainOf(outcomes).highWater == Peak(outcomes)
    && (ChainOf(outcomes).available <==> AllPublished(outcomes, |outcomes|))
    && forall k :: 0 <= k < |outcomes| && outcomes[k].Published? ==>
         && (outcomes[k].wealth.Some? <==> AllPublished(outcomes, k + 1))
         && (outcomes[k].drawdown.Some? <==> outcomes[k].wealth.Some?)
         && (outcomes[k].drawdown.Some? ==> outcomes[k].drawdown.value <= 0)
  }

  lemma PeakExtends(earlier: seq<Outcome>, outcome: Outcome)
    ensures ChainOf(earlier + [outcome]) == outcome.chain
    ensures Peak(earlier + [outcome]) ==
            if outcome.Published? && outcome.wealth.Some? && outcome.wealth.value > Peak(earlier) then outcome.wealth.value
            else Peak(earlier)
  {
    assert (earlier + [outcome])[..|earlier|] == earlier;
  }

  lemma ChainExtends(earlier: seq<Outcome>, outcome: Outcome)
    requires WellChained(earlier) && Linked(ChainOf(earlier), outcome)
    ensures WellChained(earlier + [outcome])
  {
    hide Grown, Peak, ChainOf;
    var outcomes := earlier + [outcome];
    PeakExtends(earlier, outcome);
    assert forall k :: 0 <= k < |earlier| ==> outcomes[k] == earlier[k];
    assert outcomes[|earlier|] == outcome;
    assert forall k :: 0 <= k <= |earlier| ==> (AllPublished(outcomes, k) <==> AllPublished(earlier, k));
    assert AllPublished(outcomes, |outcomes|) <==> AllPublished(earlier, |earlier|) && outcome.Published?;
  }

  /**
   The high water is the greatest wealth published, wealth is published exactly while no period
   has been unavailable, and every published drawdown is at most zero.
   */
  lemma {:induction false} ChainMeans(periods: seq<Inputs>)
    requires AllValid(periods) && History(periods).Ok?
    ensures WellChained(History(periods).value)
  {
    hide Evaluate, Grown, Inputs.Valid;
    if periods != [] {
      var front := periods[..|periods| - 1];
      ChainMeans(front);
      var earlier := History(front).value;
      var outcome := Evaluate(periods[|periods| - 1], ChainOf(earlier)).value;
      assert History(periods).value == earlier + [outcome];
      hide History;
      ChainExtends(earlier, outcome);
    }
  }

  /** After the first unavailable period the chain stays as it was left, whatever follows. */
  lemma {:induction false} GapIsFinal(periods: seq<Inputs>, gap: nat)
    requires AllValid(periods) && History(periods).Ok? && gap < |periods| && History(periods).value[gap].Unavailable?
    ensures ChainOf(History(periods).value) == History(periods).value[gap].chain && !ChainOf(History(periods).value).available
    decreases |periods|
  {
    hide Evaluate, Grown, Inputs.Valid;
    if gap < |periods| - 1 {
      GapIsFinal(periods[..|periods| - 1], gap);
    }
  }

  /** With at most two components, and KRW cash held, no sound period fails its reconciliation. */
  lemma SmallPortfoliosReconcile(i: Inputs, chain: Chain)
    requires i.Valid() && chain.highWater > 0 && Gate(i).None? && PeriodOf(i).Denominator() != 0.0
    requires |i.ids| <= 2 && CASH in i.ids
    ensures Evaluate(i, chain).Ok? && Evaluate(i, chain).value.Published?
  {
    CashFlowsStray(PeriodOf(i).flows, i.ids);
    ResidualBound(PeriodOf(i), i.ids);
  }

  /** Two cutoffs of one account that pass every gate, with the states of `Drifting`. */
  function DriftingInputs(n: nat): Inputs {
    Inputs(Some(Snapshot(BeforeOf(n), {"ria"}, None)), Some(Snapshot(AfterOf(n), {"ria"}, None)), _ => {"ria"},
           None, None, [], NamesOf(n))
  }

  /** From three components on, KRW cash among them, a sound period passes every gate and is still not published. */
  lemma SoundPeriodUnavailable(n: nat)
    requires n >= 3
    ensures DriftingInputs(n).Valid() && CASH in DriftingInputs(n).ids && |DriftingInputs(n).ids| == n
    ensures Gate(DriftingInputs(n)).None?
    ensures Evaluate(DriftingInputs(n), START) == Ok(Unavailable("contribution_reconciliation_failed", Broken(START)))
  {
    hide NamesOf, BeforeOf, AfterOf, Period.Denominator, ResidualQuanta;
    DriftingValid(n);
    assert NamesOf(n)[0] == NameOf(0) == CASH;
    RoundingBreaksReconciliation(n);
    DriftingStates(n);
    assert PeriodOf(DriftingInputs(n)) == Drifting(n);
  }

  lemma DriftingStates(n: nat)
    ensures BeforeOf(n).at == 0 && AfterOf(n).at == 1
  {
  }

  function IntSum(xs: seq<int>): int {
    if xs == [] then 0 else IntSum(xs[..|xs| - 1]) + xs[|xs| - 1]
  }

  lemma {:induction false} ContributionsSum(p: Period, ids: seq<string>)
    requires p.Valid() && p.Denominator() != 0.0
    ensures IntSum(ContributionsOf(p, ids)) == ContributionQuantaSum(p, ids)
  {
    hide ContributionQuanta;
    if ids != [] {
      var n := |ids| - 1;
      ContributionsSum(p, ids[..n]);
      assert ContributionsOf(p, ids)[..n] == ContributionsOf(p, ids[..n]);
    }
  }

  /** What is published adds up: the contributions and the residual to the return, with at most one quantum of residual. */
  lemma PublishedAddsUp(i: Inputs, chain: Chain)
    requires i.Valid() && chain.highWater > 0 && Evaluate(i, chain).Ok? && Evaluate(i, chain).value.Published?
    ensures var o := Evaluate(i, chain).value;
            && |o.contributions| == |i.ids| && IntSum(o.contributions) + o.residual == o.periodReturn
            && -1 <= o.residual <= 1
  {
    hide Gate, PeriodOf, ReturnQuanta, ContributionQuantaSum, Drawdown, Grown, Linked;
    ContributionsSum(PeriodOf(i), i.ids);
  }
}
