/**
 Modified Dietz arithmetic of one period: weighted owner flows, the portfolio's return, each
 component's contribution, and the residual that the reconciliation check looks at. Published
 figures are whole quanta of 1e-10, each rounded half to even on its own.
 */
module Dietz {
  import opened Names
  import opened Numbers
  import opened Rounding
  import opened Sums

  const QUANTA := 10_000_000_000.0
  const CASH := "cash|cash|KRW"

  datatype Flow = Flow(component: string, amount: real, at: int)

  /** `order` lists the keys of the dictionary `components` as they were inserted. */
  datatype State = State(at: int, order: seq<string>, components: map<string, real>) {
    ghost predicate Valid() {
      Distinct(order) && forall id :: id in order <==> id in components
    }

    function Value(id: string): real {
      if id in components then components[id] else 0.0
    }

    function Values(): string -> real {
      id => Value(id)
    }

    function Total(): real {
      SumOf(order, Values())
    }
  }

  datatype Period = Period(prior: State, current: State, flows: seq<Flow>) {
    /** Flows fall after the first cutoff and no later than the second. */
    ghost predicate Valid() {
      && prior.Valid() && current.Valid() && prior.at < current.at
      && forall i :: 0 <= i < |flows| ==> prior.at < flows[i].at <= current.at
    }

    /** The part of the period a flow was invested for. */
    function Weight(at: int): real
      requires prior.at < current.at
    {
      (current.at - at) as real / (current.at - prior.at) as real
    }

    function Denominator(): real
      requires prior.at < current.at
    {
      prior.Total() + WeightedFlows(flows)
    }

    function WeightedFlows(fs: seq<Flow>): real
      requires prior.at < current.at
    {
      if fs == [] then 0.0
      else WeightedFlows(fs[..|fs| - 1]) + fs[|fs| - 1].amount * Weight(fs[|fs| - 1].at)
    }

    /** What the period gained beyond its flows, in total and for one component. */
    function Gain(): real {
      current.Total() - prior.Total() - FlowSum(flows)
    }

    function ComponentGain(id: string): real {
      current.Value(id) - prior.Value(id) - FlowsOf(flows, id)
    }

    function ComponentGains(): string -> real {
      id => ComponentGain(id)
    }
  }

  function FlowSum(flows: seq<Flow>): real {
    if flows == [] then 0.0 else FlowSum(flows[..|flows| - 1]) + flows[|flows| - 1].amount
  }

  function FlowsOf(flows: seq<Flow>, id: string): real {
    if flows == [] then 0.0
    else
      var last := flows[|flows| - 1];
      FlowsOf(flows[..|flows| - 1], id) + if last.component == id then last.amount else 0.0
  }

  /** The flows into components that neither state holds. */
  function StrayFlows(flows: seq<Flow>, ids: seq<string>): real {
    if flows == [] then 0.0
    else
      var last := flows[|flows| - 1];
      StrayFlows(flows[..|flows| - 1], ids) + if last.component in ids then 0.0 else last.amount
  }

  function Per(amount: real, denominator: real): real
    requires denominator != 0.0
  {
    amount / denominator
  }

  lemma PerProduct(amount: real, denominator: real)
    requires denominator != 0.0
    ensures Per(amount, denominator) * denominator == amount
  {
  }

  /** A flow counts for less than the whole period and never negatively. */
  lemma WeightInUnit(p: Period, i: nat)
    requires p.Valid() && i < |p.flows|
    ensures 0.0 <= p.Weight(p.flows[i].at) < 1.0
  {
    var left, span := (p.current.at - p.flows[i].at) as real, (p.current.at - p.prior.at) as real;
    assert 0.0 <= left < span;
    PerProduct(left, span);
    var w := Per(left, span);
    assert w == p.Weight(p.flows[i].at);
    UnitFraction(w, span, left);
  }

  lemma UnitFraction(w: real, span: real, left: real)
    requires 0.0 <= left < span && w * span == left
    ensures 0.0 <= w < 1.0
  {
    if w < 0.0 { Negative(-w, span); }
    if w >= 1.0 { AtLeast(w, span); }
  }

  lemma Negative(a: real, b: real)
    requires a > 0.0 && b > 0.0
    ensures a * b > 0.0 && -a * b < 0.0
  {
  }

  lemma AtLeast(w: real, span: real)
    requires w >= 1.0 && span > 0.0
    ensures w * span >= span
  {
  }

  // -------------------------------------------------- the exact residual

  function FlowsTo(flows: seq<Flow>): string -> real {
    id => FlowsOf(flows, id)
  }

  function OneFlow(flow: Flow): string -> real {
    id => if flow.component == id then flow.amount else 0.0
  }

  lemma {:induction false} OneFlowSum(ids: seq<string>, flow: Flow)
    requires Distinct(ids)
    ensures SumOf(ids, OneFlow(flow)) == if flow.component in ids then flow.amount else 0.0
  {
    if ids != [] {
      var n := |ids| - 1;
      OneFlowSum(ids[..n], flow);
      MemberOfMore(ids);
    }
  }

  lemma {:induction false} FlowsSplit(ids: seq<string>, flows: seq<Flow>)
    requires Distinct(ids)
    ensures SumOf(ids, FlowsTo(flows)) == FlowSum(flows) - StrayFlows(flows, ids)
  {
    if flows == [] {
      NoFlows(ids);
    } else {
      var front, last := flows[..|flows| - 1], flows[|flows| - 1];
      FlowsSplit(ids, front);
      OneFlowSum(ids, last);
      SumLinear(ids, FlowsTo(flows), OneFlow(last), FlowsTo(front));
    }
  }

  lemma {:induction false} NoFlows(ids: seq<string>)
    ensures SumOf(ids, FlowsTo([])) == 0.0
  {
    if ids != [] { NoFlows(ids[..|ids| - 1]); }
  }

  function Moves(p: Period): string -> real {
    id => p.current.Value(id) - p.prior.Value(id)
  }

  /** Over the components of both states, gains add up to the portfolio's, bar the stray flows. */
  lemma GainsAddUp(p: Period, ids: seq<string>)
    requires p.Valid() && Covers(ids, p.prior.order, p.current.order)
    ensures SumOf(ids, p.ComponentGains()) == p.Gain() + StrayFlows(p.flows, ids)
  {
    hide SumOf, FlowSum, FlowsOf, StrayFlows;
    ChangesAcross(ids, p.prior.order, p.current.order, p.prior.Values(), p.current.Values(), Moves(p));
    FlowsSplit(ids, p.flows);
    SumLinear(ids, Moves(p), FlowsTo(p.flows), p.ComponentGains());
  }

  function Contribution(p: Period, id: string): real
    requires p.Valid() && p.Denominator() != 0.0
  {
    Per(p.ComponentGain(id), p.Denominator())
  }

  /** The contributions of the listed components, before rounding. */
  function ContributionSum(p: Period, ids: seq<string>): real
    requires p.Valid() && p.Denominator() != 0.0
  {
    if ids == [] then 0.0 else ContributionSum(p, ids[..|ids| - 1]) + Contribution(p, ids[|ids| - 1])
  }

  lemma PerAdds(a: real, b: real, d: real)
    requires d != 0.0
    ensures Per(a, d) + Per(b, d) == Per(a + b, d)
  {
  }

  lemma {:induction false} ContributionsAreGains(p: Period, ids: seq<string>)
    requires p.Valid() && p.Denominator() != 0.0
    ensures ContributionSum(p, ids) == Per(SumOf(ids, p.ComponentGains()), p.Denominator())
  {
    hide Per;
    if ids == [] {
      PerZero(p.Denominator());
    } else {
      var n := |ids| - 1;
      ContributionsAreGains(p, ids[..n]);
      PerAdds(SumOf(ids[..n], p.ComponentGains()), p.ComponentGain(ids[n]), p.Denominator());
    }
  }

  lemma PerZero(d: real)
    requires d != 0.0
    ensures Per(0.0, d) == 0.0
  {
  }

  /**
   Before rounding, the return exceeds the contributions by minus the flows into components that
   neither state holds, over the denominator.
   */
  lemma ExactResidual(p: Period, ids: seq<string>)
    requires p.Valid() && Covers(ids, p.prior.order, p.current.order) && p.Denominator() != 0.0
    ensures Per(p.Gain(), p.Denominator()) - ContributionSum(p, ids) == -Per(StrayFlows(p.flows, ids), p.Denominator())
  {
    hide Per, SumOf, ContributionSum, FlowSum, FlowsOf, StrayFlows;
    GainsAddUp(p, ids);
    ContributionsAreGains(p, ids);
    PerAdds(p.Gain(), StrayFlows(p.flows, ids), p.Denominator());
  }

  lemma {:induction false} CashFlowsStray(flows: seq<Flow>, ids: seq<string>)
    requires forall i :: 0 <= i < |flows| ==> flows[i].component == CASH
    ensures StrayFlows(flows, ids) == if CASH in ids then 0.0 else FlowSum(flows)
  {
    if flows != [] { CashFlowsStray(flows[..|flows| - 1], ids); }
  }

  /**
   Every owner flow goes to KRW cash, so the residual vanishes exactly when a state holds KRW cash
   or the flows net to zero.
   */
  lemma ResidualVanishes(p: Period, ids: seq<string>)
    requires p.Valid() && Covers(ids, p.prior.order, p.current.order) && p.Denominator() != 0.0
    requires forall i :: 0 <= i < |p.flows| ==> p.flows[i].component == CASH
    ensures Per(p.Gain(), p.Denominator()) == ContributionSum(p, ids) <==>
            CASH in p.prior.components || CASH in p.current.components || FlowSum(p.flows) == 0.0
  {
    hide ContributionSum, Per;
    ExactResidual(p, ids);
    CashFlowsStray(p.flows, ids);
    PerProduct(StrayFlows(p.flows, ids), p.Denominator());
    PerZero(p.Denominator());
    assert CASH in ids <==> CASH in p.prior.order || CASH in p.current.order;
  }

  // ------------------------------------------------- the published figures

  /** A figure in whole quanta. */
  function Quanta(x: real): int {
    HalfEven(QUANTA * x)
  }

  function ReturnQuanta(p: Period): int
    requires p.Valid() && p.Denominator() != 0.0
  {
    Quanta(Per(p.Gain(), p.Denominator()))
  }

  function ContributionQuanta(p: Period, id: string): int
    requires p.Valid() && p.Denominator() != 0.0
  {
    Quanta(Contribution(p, id))
  }

  function ContributionQuantaSum(p: Period, ids: seq<string>): int
    requires p.Valid() && p.Denominator() != 0.0
  {
    if ids == [] then 0 else ContributionQuantaSum(p, ids[..|ids| - 1]) + ContributionQuanta(p, ids[|ids| - 1])
  }

  /** The published residual: return less contributions, already whole quanta. */
  function ResidualQuanta(p: Period, ids: seq<string>): int
    requires p.Valid() && p.Denominator() != 0.0
  {
    ReturnQuanta(p) - ContributionQuantaSum(p, ids)
  }

  /** The tolerance is one quantum. */
  predicate Reconciled(p: Period, ids: seq<string>)
    requires p.Valid() && p.Denominator() != 0.0
  {
    -1 <= ResidualQuanta(p, ids) <= 1
  }

  function InQuanta(p: Period, ids: seq<string>): (xs: seq<real>)
    requires p.Valid() && p.Denominator() != 0.0
    ensures |xs| == |ids|
  {
    seq(|ids|, i requires 0 <= i < |ids| => QUANTA * Contribution(p, ids[i]))
  }

  lemma {:induction false} ContributionsInQuanta(p: Period, ids: seq<string>)
    requires p.Valid() && p.Denominator() != 0.0
    ensures Sum(InQuanta(p, ids)) == QUANTA * ContributionSum(p, ids)
    ensures RoundedTotal(InQuanta(p, ids)) == ContributionQuantaSum(p, ids)
  {
    hide HalfEven, Contribution;
    if ids != [] {
      var n := |ids| - 1;
      ContributionsInQuanta(p, ids[..n]);
      assert InQuanta(p, ids)[..n] == InQuanta(p, ids[..n]);
    }
  }

  /** With no stray flow, n components leave a published residual of at most (n + 1)/2 quanta. */
  lemma ResidualBound(p: Period, ids: seq<string>)
    requires p.Valid() && Covers(ids, p.prior.order, p.current.order) && p.Denominator() != 0.0
    requires StrayFlows(p.flows, ids) == 0.0
    ensures -(|ids| + 1) <= 2 * ResidualQuanta(p, ids) <= |ids| + 1
  {
    hide HalfEven, ContributionSum, ContributionQuantaSum, Per, RoundedTotal, Sum, StrayFlows;
    hide Period.Gain, Period.Denominator, Covers;
    ExactResidual(p, ids);
    PerZero(p.Denominator());
    ContributionsInQuanta(p, ids);
    RoundingGap(InQuanta(p, ids));
  }

  // ------------------------------------------ how many components are safe

  /** KRW cash first, then positions in sorted order. */
  function NameOf(k: nat): (name: string)
    ensures Rank(name) == k && (name == CASH <==> k == 0)
  {
    if k == 0 then CASH
    else
      var name := "position|" + seq(k, _ => 'a');
      assert name[0] == 'p' && CASH[0] == 'c';
      name
  }

  function Rank(name: string): int {
    if name == CASH then 0 else |name| - |"position|"|
  }

  function NamesOf(n: nat): (names: seq<string>)
    ensures |names| == n && forall k :: 0 <= k < n ==> names[k] == NameOf(k)
  {
    seq(n, k requires 0 <= k < n => NameOf(k))
  }

  /** All in KRW cash at the start; cash and the first two positions gain one KRW each. */
  function BeforeOf(n: nat): State {
    State(0, NamesOf(n), map id | id in NamesOf(n) :: if Rank(id) == 0 then 20_000_000_000.0 else 0.0)
  }

  function AfterOf(n: nat): State {
    State(1, NamesOf(n), map id | id in NamesOf(n) :: if Rank(id) == 0 then 20_000_000_001.0 else if Rank(id) < 3 then 1.0 else 0.0)
  }

  function Drifting(n: nat): Period {
    Period(BeforeOf(n), AfterOf(n), [])
  }

  lemma DriftingValid(n: nat)
    ensures Drifting(n).Valid() && Covers(NamesOf(n), Drifting(n).prior.order, Drifting(n).current.order)
  {
    hide NameOf, Rank;
    forall i, j | 0 <= i < j < n ensures NamesOf(n)[i] != NamesOf(n)[j] {
      assert Rank(NamesOf(n)[i]) == i && Rank(NamesOf(n)[j]) == j;
    }
  }

  lemma {:induction false} DriftingTotals(n: nat, k: nat)
    requires k <= n
    ensures SumOf(NamesOf(n)[..k], BeforeOf(n).Values()) == if k == 0 then 0.0 else 20_000_000_000.0
    ensures SumOf(NamesOf(n)[..k], AfterOf(n).Values()) ==
            if k == 0 then 0.0 else 20_000_000_000.0 + if k < 3 then k as real else 3.0
    decreases k
  {
    hide NameOf, Rank;
    if k > 0 {
      DriftingTotals(n, k - 1);
      assert NamesOf(n)[..k][..k - 1] == NamesOf(n)[..k - 1];
      assert NamesOf(n)[k - 1] == NameOf(k - 1) && NameOf(k - 1) in NamesOf(n);
    }
  }

  lemma DriftingPeriod(n: nat)
    requires n >= 3
    ensures Drifting(n).Denominator() == 20_000_000_000.0 && Drifting(n).Gain() == 3.0
    ensures forall k :: 0 <= k < n ==> Drifting(n).ComponentGain(NameOf(k)) == if k < 3 then 1.0 else 0.0
  {
    hide NameOf, Rank;
    DriftingTotals(n, n);
    assert NamesOf(n)[..n] == NamesOf(n);
    forall k | 0 <= k < n ensures Drifting(n).ComponentGain(NameOf(k)) == if k < 3 then 1.0 else 0.0 {
      assert NamesOf(n)[k] == NameOf(k);
      assert NameOf(k) in NamesOf(n);
    }
  }

  lemma {:induction false} DriftingContributions(n: nat, k: nat)
    requires 3 <= n && k <= n && Drifting(n).Valid() && Drifting(n).Denominator() == 20_000_000_000.0
    ensures ContributionQuantaSum(Drifting(n), NamesOf(n)[..k]) == 0
    decreases k
  {
    hide NameOf, Rank;
    if k > 0 {
      DriftingContributions(n, k - 1);
      assert NamesOf(n)[..k][..k - 1] == NamesOf(n)[..k - 1];
      DriftingPeriod(n);
      assert NamesOf(n)[k - 1] == NameOf(k - 1);
      HalfQuantum(Drifting(n).ComponentGain(NameOf(k - 1)));
    }
  }

  /** Half a quantum is lost, one and a half become two. */
  lemma HalfQuantum(gain: real)
    requires gain == 0.0 || gain == 1.0 || gain == 3.0
    ensures Quanta(Per(gain, 20_000_000_000.0)) == if gain == 3.0 then 2 else 0
  {
    assert QUANTA * Per(gain, 20_000_000_000.0) == gain / 2.0;
    HalfEvenUnique(gain / 2.0, if gain == 3.0 then 2 else 0);
  }

  /** From three components on there is a sound period without any flow that fails the check. */
  lemma RoundingBreaksReconciliation(n: nat)
    requires n >= 3
    ensures Drifting(n).Valid() && Covers(NamesOf(n), Drifting(n).prior.order, Drifting(n).current.order)
    ensures Drifting(n).Denominator() != 0.0 && ResidualQuanta(Drifting(n), NamesOf(n)) == 2
    ensures !Reconciled(Drifting(n), NamesOf(n))
  {
    hide NameOf, Rank, Drifting;
    DriftingValid(n);
    DriftingPeriod(n);
    DriftingContributions(n, n);
    assert NamesOf(n)[..n] == NamesOf(n);
    HalfQuantum(3.0);
  }

  /** A period whose owner flows all reach a component it holds, with n components. */
  ghost predicate Sound(p: Period, ids: seq<string>, n: nat) {
    p.Valid() && Covers(ids, p.prior.order, p.current.order) && |ids| == n && p.Denominator() != 0.0
    && StrayFlows(p.flows, ids) == 0.0
  }

  /** The check never fails a sound period of n components exactly when n is at most two. */
  lemma ReconciliationGuarantee(n: nat)
    ensures (forall p: Period, ids: seq<string> :: Sound(p, ids, n) ==> Reconciled(p, ids)) <==> n <= 2
  {
    if n <= 2 {
      forall p: Period, ids: seq<string> | Sound(p, ids, n) ensures Reconciled(p, ids) {
        ResidualBound(p, ids);
      }
    } else {
      RoundingBreaksReconciliation(n);
      assert Sound(Drifting(n), NamesOf(n), n);
    }
  }
}
