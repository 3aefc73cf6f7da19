/**
 What a published period means, said of the cash rows, the two states and their cutoffs alone: which
 flows count and with which sign, what a return and a contribution are a share of, and what the
 chain makes of it.
 */
module PerformanceLaws {
  import opened Dietz
  import opened Performance
  import opened Rounding
  import opened Sums
  import opened Wrappers

  // ---------------------------------------------------------- owner flows

  predicate IsOwner(row: CashRow) {
    row.eventType == "owner_deposit" || row.eventType == "owner_withdrawal"
  }

  predicate IsInternal(row: CashRow) {
    || row.eventType == "internal_transfer_in" || row.eventType == "internal_transfer_out"
    || row.eventType == "trade_settlement_in" || row.eventType == "trade_settlement_out"
    || row.eventType == "fx_in" || row.eventType == "fx_out"
  }

  /** The deposits and withdrawals of the owner, in row order. */
  function OwnerRows(rows: seq<CashRow>): seq<CashRow> {
    if rows == [] then []
    else
      var last := rows[|rows| - 1];
      OwnerRows(rows[..|rows| - 1]) + if IsOwner(last) then [last] else []
  }

  /** Nothing about the row stops the period. */
  predicate Passes(row: CashRow) {
    && row.eventQuality == "pass" && row.classQuality == "pass" && row.eventType != "unknown"
    && (IsInternal(row) ==> row.link == "explicit" || row.link == "reconciled")
    && (row.eventType == "owner_deposit" ==> row.amount >= 0.0)
    && (row.eventType == "owner_withdrawal" ==> row.amount <= 0.0)
    && (IsOwner(row) ==> row.currency == "KRW")
  }

  lemma Judged(row: CashRow)
    ensures Judge(row).Refused? <==> !Passes(row)
    ensures Passes(row) && IsOwner(row) ==> Judge(row) == Taken(Flow("cash|cash|KRW", row.amount, row.at))
    ensures Passes(row) && !IsOwner(row) ==> Judge(row) == Skipped
  {
  }

  /**
   The flows of a period are exactly the owner's rows, in order, each with its own amount and instant
   and into KRW cash, deposits never negative and withdrawals never positive; they are there exactly
   when no row stops the period.
   */
  lemma {:induction false} OwnerFlowsAreRows(rows: seq<CashRow>)
    ensures OwnerFlows(rows).Ok? <==> forall i :: 0 <= i < |rows| ==> Passes(rows[i])
    ensures OwnerFlows(rows).Ok? ==>
              var flows, owners := OwnerFlows(rows).value, OwnerRows(rows);
              |flows| == |owners| && forall k :: 0 <= k < |owners| ==>
                && Passes(owners[k]) && IsOwner(owners[k])
                && flows[k] == Flow("cash|cash|KRW", owners[k].amount, owners[k].at)
  {
    hide Judge, Passes, IsOwner;
    if rows != [] {
      OwnerFlowsAreRows(rows[..|rows| - 1]);
      Judged(rows[|rows| - 1]);
    }
  }

  /** Why a row stops the period: the first of these that holds. */
  function Objections(row: CashRow): seq<(bool, string)> {
    [(row.eventQuality != "pass" || row.classQuality != "pass", "cash_flow_input_quality"),
     (row.eventType == "unknown", "unclassified_cash_flow"),
     (IsInternal(row) && row.link != "explicit" && row.link != "reconciled", "unreconciled_internal_cash_flow"),
     (row.eventType == "owner_deposit" && row.amount < 0.0, "invalid_owner_flow_sign"),
     (row.eventType == "owner_withdrawal" && row.amount > 0.0, "invalid_owner_flow_sign"),
     (IsOwner(row) && row.currency != "KRW", "unsupported_cash_flow_currency")]
  }

  /** The first objection of a table that holds. */
  function First(table: seq<(bool, string)>): Option<string>
    decreases |table|
  {
    if table == [] then None else if table[0].0 then Some(table[0].1) else First(table[1..])
  }

  lemma FirstMore(holds: bool, reason: string, table: seq<(bool, string)>)
    ensures First([(holds, reason)] + table) == if holds then Some(reason) else First(table)
  {
    assert ([(holds, reason)] + table)[1..] == table;
  }

  lemma ReasonOf(row: CashRow)
    ensures First(Objections(row)) == if Judge(row).Refused? then Some(Judge(row).reason) else None
  {
    hide First;
    var table := Objections(row);
    FirstMore(table[5].0, table[5].1, []);
    FirstMore(table[4].0, table[4].1, table[5..]);
    FirstMore(table[3].0, table[3].1, table[4..]);
    FirstMore(table[2].0, table[2].1, table[3..]);
    FirstMore(table[1].0, table[1].1, table[2..]);
    FirstMore(table[0].0, table[0].1, table[1..]);
    assert table[5..] == [table[5]] + [] && table[4..] == [table[4]] + table[5..] && table[3..] == [table[3]] + table[4..];
    assert table[2..] == [table[2]] + table[3..] && table[1..] == [table[1]] + table[2..] && table == [table[0]] + table[1..];
    NoObjection();
  }

  lemma NoObjection()
    ensures First([]) == None
  {
  }

  /** The first row that stops the period gives its reason. */
  lemma {:induction false} FirstObjectionCounts(rows: seq<CashRow>, k: nat)
    requires k < |rows| && !Passes(rows[k]) && forall i :: 0 <= i < k ==> Passes(rows[i])
    ensures OwnerFlows(rows).Err? && First(Objections(rows[k])) == Some(OwnerFlows(rows).error)
  {
    hide Passes, Judge, Objections, First;
    Judged(rows[k]);
    ReasonOf(rows[k]);
    OwnerFlowsAreRows(rows[..k]);
    assert rows[..k + 1][..k] == rows[..k];
    assert OwnerFlows(rows[..k + 1]) == Err(Judge(rows[k]).reason);
    RefusedEarly(rows, k + 1);
  }

  // -------------------------------------------------------------- the gates

  /** What keeps a period from being evaluated, in the order it is looked at. */
  function Gates(i: Inputs): seq<(bool, string)>
    requires i.prior.Some? && i.current.Some?
  {
    var p, c := i.prior.value, i.current.value;
    [(p.quality.Some?, if p.quality.Some? then p.quality.value else ""),
     (c.quality.Some?, if c.quality.Some? then c.quality.value else ""),
     (i.required(p.state.at) == {} || p.accounts != i.required(p.state.at), "prior_account_coverage_mismatch"),
     (i.required(c.state.at) == {} || c.accounts != i.required(c.state.at), "current_account_coverage_mismatch"),
     (p.accounts != c.accounts, "account_coverage_changed"),
     (i.calendar.Some?, if i.calendar.Some? then i.calendar.value else ""),
     (c.state.at <= p.state.at, "invalid_state_order"),
     (i.coverage.Some?, if i.coverage.Some? then i.coverage.value else ""),
     (OwnerFlows(i.rows).Err?, if OwnerFlows(i.rows).Err? then OwnerFlows(i.rows).error else "")]
  }

  lemma GateIsFirst(i: Inputs)
    requires i.prior.Some? && i.current.Some?
    ensures Gate(i) == First(Gates(i))
  {
    hide First, OwnerFlows;
    var table := Gates(i);
    NoObjection();
    FirstMore(table[8].0, table[8].1, []);
    FirstMore(table[7].0, table[7].1, table[8..]);
    FirstMore(table[6].0, table[6].1, table[7..]);
    FirstMore(table[5].0, table[5].1, table[6..]);
    FirstMore(table[4].0, table[4].1, table[5..]);
    FirstMore(table[3].0, table[3].1, table[4..]);
    FirstMore(table[2].0, table[2].1, table[3..]);
    FirstMore(table[1].0, table[1].1, table[2..]);
    FirstMore(table[0].0, table[0].1, table[1..]);
    assert table[8..] == [table[8]] + [] && table[7..] == [table[7]] + table[8..] && table[6..] == [table[6]] + table[7..];
    assert table[5..] == [table[5]] + table[6..] && table[4..] == [table[4]] + table[5..] && table[3..] == [table[3]] + table[4..];
    assert table[2..] == [table[2]] + table[3..] && table[1..] == [table[1]] + table[2..] && table == [table[0]] + table[1..];
  }

  /** A period passes exactly with two passing states of one fully covered account set, in order, and no stopping row. */
  lemma PassesGates(i: Inputs)
    ensures Gate(i).None? <==>
              && i.prior.Some? && i.current.Some?
              && i.prior.value.quality.None? && i.current.value.quality.None? && i.calendar.None? && i.coverage.None?
              && i.prior.value.accounts == i.current.value.accounts != {}
              && i.required(i.prior.value.state.at) == i.required(i.current.value.state.at) == i.prior.value.accounts
              && i.prior.value.state.at < i.current.value.state.at
              && forall k :: 0 <= k < |i.rows| ==> Passes(i.rows[k])
  {
    OwnerFlowsAreRows(i.rows);
    hide OwnerFlows, Passes;
  }

  // ------------------------------------------------------------ the return

  function OwnerSum(rows: seq<CashRow>): real {
    if rows == [] then 0.0
    else
      var last := rows[|rows| - 1];
      OwnerSum(rows[..|rows| - 1]) + if IsOwner(last) then last.amount else 0.0
  }

  /** The owner's amounts, each times how long it was invested up to `until`. */
  function OwnerTime(rows: seq<CashRow>, until: int): real {
    if rows == [] then 0.0
    else
      var last := rows[|rows| - 1];
      OwnerTime(rows[..|rows| - 1], until) + if IsOwner(last) then last.amount * (until - last.at) as real else 0.0
  }

  function FlowTime(flows: seq<Flow>, until: int): real {
    if flows == [] then 0.0
    else FlowTime(flows[..|flows| - 1], until) + flows[|flows| - 1].amount * (until - flows[|flows| - 1].at) as real
  }

  lemma {:induction false} FlowsAddUp(rows: seq<CashRow>, until: int)
    requires OwnerFlows(rows).Ok?
    ensures FlowSum(OwnerFlows(rows).value) == OwnerSum(rows)
    ensures FlowTime(OwnerFlows(rows).value, until) == OwnerTime(rows, until)
  {
    if rows != [] {
      var front, last := rows[..|rows| - 1], rows[|rows| - 1];
      Judged(last);
      FlowsAddUp(front, until);
      var before := OwnerFlows(front).value;
      if IsOwner(last) { assert (before + [Judge(last).flow])[..|before|] == before; }
      hide Judge, Passes;
    }
  }

  lemma {:induction false} AllToCash(flows: seq<Flow>, id: string)
    requires forall k :: 0 <= k < |flows| ==> flows[k].component == CASH
    ensures FlowsOf(flows, id) == if id == "cash|cash|KRW" then FlowSum(flows) else 0.0
  {
    if flows != [] { AllToCash(flows[..|flows| - 1], id); }
  }

  function Span(p: Period): real {
    (p.current.at - p.prior.at) as real
  }

  /** The flows weighted, over the whole period, are the amounts times the time they were invested. */
  lemma {:induction false} WeightedOver(p: Period, flows: seq<Flow>)
    requires p.prior.at < p.current.at
    ensures Times(p.WeightedFlows(flows), Span(p)) == FlowTime(flows, p.current.at)
  {
    if flows != [] {
      var n := |flows| - 1;
      WeightedOver(p, flows[..n]);
      var left := (p.current.at - flows[n].at) as real;
      PerProduct(left, Span(p));
      assert Per(left, Span(p)) == p.Weight(flows[n].at);
      WeightedMore(p.WeightedFlows(flows[..n]), flows[n].amount, Per(left, Span(p)), Span(p), left);
    }
  }

  function Times(a: real, b: real): real {
    a * b
  }

  lemma WeightedMore(before: real, amount: real, weight: real, span: real, left: real)
    requires weight * span == left
    ensures Times(before + amount * weight, span) == Times(before, span) + amount * left
  {
    assert (before + amount * weight) * span == before * span + amount * (weight * span);
  }

  /** `whole` is what was invested on average: the beginning value and every flow for the time it was there. */
  predicate Invested(i: Inputs, whole: real)
    requires i.prior.Some? && i.current.Some?
  {
    var prior, current := i.prior.value.state, i.current.value.state;
    Times(whole, (current.at - prior.at) as real) ==
      Times(SumOf(prior.order, prior.Values()), (current.at - prior.at) as real) + OwnerTime(i.rows, current.at)
  }

  lemma DenominatorInvested(i: Inputs)
    requires i.Valid() && Gate(i).None?
    ensures Invested(i, PeriodOf(i).Denominator())
  {
    var p := PeriodOf(i);
    WeightedOver(p, p.flows);
    FlowsAddUp(i.rows, p.current.at);
    TimesAdds(p.prior.Total(), p.WeightedFlows(p.flows), Span(p));
    hide Times, OwnerFlows, Period.WeightedFlows, OwnerTime, FlowTime, Gate;
  }

  lemma TimesAdds(a: real, b: real, c: real)
    ensures Times(a + b, c) == Times(a, c) + Times(b, c)
  {
  }

  /** `n` quanta are the nearest to the amount's share of the whole. */
  predicate IsShare(n: int, amount: real, whole: real) {
    var off := 2.0 * (Times(n as real, whole) - 10_000_000_000.0 * amount);
    if whole >= 0.0 then -whole <= off <= whole else whole <= off <= -whole
  }

  lemma RoundedShare(amount: real, whole: real)
    requires whole != 0.0
    ensures IsShare(Quanta(Per(amount, whole)), amount, whole)
  {
    var x := Per(amount, whole);
    var n := Quanta(x);
    PerProduct(amount, whole);
    assert n == HalfEven(QUANTA * x);
    var e := n as real - QUANTA * x;
    assert -0.5 <= e <= 0.5;
    Remainder(n as real, x, whole);
    HalfOf(e, whole);
    assert 2.0 * (e * whole) == 2.0 * (Times(n as real, whole) - 10_000_000_000.0 * amount);
  }

  lemma Remainder(n: real, x: real, whole: real)
    ensures (n - QUANTA * x) * whole == n * whole - QUANTA * (x * whole)
  {
  }

  lemma HalfOf(e: real, whole: real)
    requires -0.5 <= e <= 0.5
    ensures if whole >= 0.0 then -whole <= 2.0 * (e * whole) <= whole else whole <= 2.0 * (e * whole) <= -whole
  {
    ProductBound(0.5 - e, whole);
    ProductBound(e + 0.5, whole);
  }

  lemma ProductBound(a: real, b: real)
    requires a >= 0.0
    ensures if b >= 0.0 then a * b >= 0.0 else a * b <= 0.0
  {
  }

  /** What the portfolio or a component gained beyond the owner's flows. */
  function Gained(i: Inputs): real
    requires i.prior.Some? && i.current.Some?
  {
    var prior, current := i.prior.value.state, i.current.value.state;
    SumOf(current.order, current.Values()) - SumOf(prior.order, prior.Values()) - OwnerSum(i.rows)
  }

  function GainedIn(i: Inputs, id: string): real
    requires i.prior.Some? && i.current.Some?
  {
    i.current.value.state.Value(id) - i.prior.value.state.Value(id)
    - if id == "cash|cash|KRW" then OwnerSum(i.rows) else 0.0
  }

  /**
   A published return is the gain's share, and each contribution its component's gain's share, in
   what was invested on average, both to the nearest quantum.
   */
  lemma PublishedShares(i: Inputs, chain: Chain) returns (whole: real)
    requires i.Valid() && chain.highWater > 0 && Evaluate(i, chain).Ok? && Evaluate(i, chain).value.Published?
    ensures i.prior.Some? && i.current.Some? && whole != 0.0 && Invested(i, whole)
    ensures var o := Evaluate(i, chain).value;
            && IsShare(o.periodReturn, Gained(i), whole) && |o.contributions| == |i.ids|
            && forall k :: 0 <= k < |i.ids| ==> IsShare(o.contributions[k], GainedIn(i, i.ids[k]), whole)
  {
    hide Gate, IsShare, Quanta, Per, Invested, OwnerFlows, OwnerSum, FlowSum, Period.Denominator, Gained, GainedIn;
    hide Period.Gain, Period.ComponentGain;
    PublishedFigures(i, chain);
    GatesKnown(i);
    var p := PeriodOf(i);
    whole := p.Denominator();
    DenominatorInvested(i);
    GainsAre(i);
    RoundedShare(p.Gain(), whole);
    forall k | 0 <= k < |i.ids| ensures IsShare(Evaluate(i, chain).value.contributions[k], GainedIn(i, i.ids[k]), whole) {
      RoundedShare(p.ComponentGain(i.ids[k]), whole);
    }
    hide Evaluate;
  }

  lemma PublishedFigures(i: Inputs, chain: Chain)
    requires i.Valid() && chain.highWater > 0 && Evaluate(i, chain).Ok? && Evaluate(i, chain).value.Published?
    ensures Gate(i).None? && PeriodOf(i).Denominator() != 0.0
    ensures var o, p := Evaluate(i, chain).value, PeriodOf(i);
            && o.periodReturn == Quanta(Per(p.Gain(), p.Denominator())) && |o.contributions| == |i.ids|
            && forall k :: 0 <= k < |i.ids| ==>
                 o.contributions[k] == Quanta(Per(p.ComponentGain(i.ids[k]), p.Denominator()))
  {
    hide Gate, Quanta, Per, Period.Gain, Period.ComponentGain, Period.Denominator, Reconciled, Linked, Grown, Drawdown;
  }

  lemma GainsAre(i: Inputs)
    requires i.Valid() && Gate(i).None?
    ensures i.prior.Some? && i.current.Some? && PeriodOf(i).Gain() == Gained(i)
    ensures forall id :: PeriodOf(i).ComponentGain(id) == GainedIn(i, id)
  {
    hide Gate, OwnerFlows, OwnerSum, FlowSum, FlowsOf, SumOf;
    GatesKnown(i);
    var p := PeriodOf(i);
    FlowsAddUp(i.rows, p.current.at);
    forall id ensures p.ComponentGain(id) == GainedIn(i, id) { AllToCash(p.flows, id); }
  }

  lemma GatesKnown(i: Inputs)
    requires Gate(i).None?
    ensures i.prior.Some? && i.current.Some? && OwnerFlows(i.rows).Ok?
  {
    hide OwnerFlows;
  }

  // ------------------------------------------------------------- the chain

  /** Wealth after a return of `r` quanta, to the nearest quantum. */
  predicate IsGrown(after: int, before: int, r: int) {
    -10_000_000_000 <= 2 * (after * 10_000_000_000 - before * (10_000_000_000 + r)) <= 10_000_000_000
  }

  lemma GrownIs(before: int, r: int)
    ensures IsGrown(Grown(before, r), before, r)
  {
    var exact := before as real * (1.0 + r as real / QUANTA);
    assert QUANTA * exact == before as real * (QUANTA + r as real) by { Spread(before as real, r as real); }
    assert (before * (10_000_000_000 + r)) as real == before as real * (QUANTA + r as real) by { Cast(before, 10_000_000_000 + r); }
    var after := Grown(before, r);
    assert -QUANTA <= 2.0 * (after as real * QUANTA - QUANTA * exact) <= QUANTA;
    assert (after * 10_000_000_000) as real == after as real * QUANTA;
  }

  lemma Spread(a: real, r: real)
    ensures QUANTA * (a * (1.0 + r / QUANTA)) == a * (QUANTA + r)
  {
    var q := r / QUANTA;
    assert q * QUANTA == r;
    assert QUANTA * (a * (1.0 + q)) == a * (QUANTA + q * QUANTA);
  }

  lemma Cast(a: int, b: int)
    ensures (a * b) as real == a as real * b as real
  {
  }

  /**
   While no period was unavailable, the published wealth is the wealth before grown by the published
   return, the high water the greater of the two, and the drawdown the share by which wealth stands
   below it.
   */
  lemma PublishedChain(i: Inputs, chain: Chain)
    requires i.Valid() && chain.highWater > 0 && Evaluate(i, chain).Ok? && Evaluate(i, chain).value.Published?
    requires chain.available
    ensures var o := Evaluate(i, chain).value;
            && o.wealth.Some? && o.drawdown.Some? && IsGrown(o.wealth.value, chain.wealth, o.periodReturn)
            && o.chain.available && o.chain.wealth == o.wealth.value
            && o.chain.highWater == (if o.wealth.value > chain.highWater then o.wealth.value else chain.highWater) > 0
            && IsShare(o.drawdown.value, (o.wealth.value - o.chain.highWater) as real, o.chain.highWater as real)
  {
    hide Gate, IsShare, IsGrown, Reconciled, ResidualQuanta, Grown, Drawdown;
    var o := Evaluate(i, chain).value;
    GrownIs(chain.wealth, o.periodReturn);
    DrawdownIs(o.wealth.value, o.chain.highWater);
  }

  lemma DrawdownIs(wealth: int, highWater: int)
    requires highWater > 0
    ensures IsShare(Drawdown(wealth, highWater), (wealth - highWater) as real, highWater as real)
  {
    RoundedShare((wealth - highWater) as real, highWater as real);
    PerAdds(wealth as real, -(highWater as real), highWater as real);
    PerNegated(highWater as real);
    hide IsShare, Quanta, Per;
  }

  lemma PerNegated(x: real)
    requires x != 0.0
    ensures Per(-x, x) == -1.0
  {
    var q := Per(-x, x);
    PerProduct(-x, x);
    assert (q + 1.0) * x == 0.0;
  }

  /**
   A period that passes the gates and whose total changed by exactly the owner's deposits and
   withdrawals earned nothing: when published, its return is zero and the wealth stays.
   */
  lemma PureFlowsEarnNothing(i: Inputs, chain: Chain)
    requires i.Valid() && chain.highWater > 0 && Evaluate(i, chain).Ok? && Evaluate(i, chain).value.Published?
    requires i.prior.Some? && i.current.Some? && Gained(i) == 0.0
    ensures var o := Evaluate(i, chain).value;
            o.periodReturn == 0 && (chain.available ==> o.chain.wealth == chain.wealth && o.wealth == Some(chain.wealth))
  {
    hide Evaluate, Gained, GainedIn, Invested;
    var whole := PublishedShares(i, chain);
    NoShare(Evaluate(i, chain).value.periodReturn, whole);
    if chain.available { PublishedChain(i, chain); }
  }

  lemma NoShare(n: int, whole: real)
    requires whole != 0.0 && IsShare(n, 0.0, whole)
    ensures n == 0
  {
    if n >= 1 { ProductBound(n as real - 1.0, whole); }
    if n <= -1 { ProductBound(-(n as real) - 1.0, whole); }
  }

  function Stopped(chain: Chain, reason: string): Result<Outcome, string> {
    Ok(Unavailable(reason, Chain(false, chain.wealth, chain.highWater)))
  }

  /** What a period comes to, case by case in order; a period that is not published breaks the chain where it stands. */
  lemma OutcomeExactly(i: Inputs, chain: Chain) returns (whole: real, shares: seq<int>, total: int)
    requires i.Valid() && chain.highWater > 0
    ensures var o := Evaluate(i, chain);
            if i.prior.None? && i.current.None? then o.Err?
            else if i.prior.None? then o == Stopped(chain, "insufficient_history")
            else if i.current.None? then o == Stopped(chain, "missing_current_state")
            else if First(Gates(i)).Some? then o == Stopped(chain, First(Gates(i)).value)
            else
              && Invested(i, whole)
              && (whole == 0.0 ==> o == Stopped(chain, "zero_denominator"))
              && (whole != 0.0 ==>
                    && IsShare(total, Gained(i), whole) && |shares| == |i.ids|
                    && (forall k :: 0 <= k < |i.ids| ==> IsShare(shares[k], GainedIn(i, i.ids[k]), whole))
                    && (if -1 <= total - IntSum(shares) <= 1 then
                          o.Ok? && o.value.Published? && o.value.periodReturn == total && o.value.contributions == shares
                        else o == Stopped(chain, "contribution_reconciliation_failed")))
  {
    whole, shares, total := 0.0, [], 0;
    if i.prior.Some? && i.current.Some? {
      GateIsFirst(i);
      hide Gate, IsShare, Invested, OwnerFlows, OwnerSum, FlowSum, Period.Denominator, Gained, GainedIn, First, Gates;
      hide Period.Gain, Period.ComponentGain, Quanta, Per, ContributionQuantaSum, IntSum, Linked, Grown, Drawdown;
      if Gate(i).None? {
        var p := PeriodOf(i);
        whole := p.Denominator();
        DenominatorInvested(i);
        if whole != 0.0 {
          GainsAre(i);
          total, shares := ReturnQuanta(p), ContributionsOf(p, i.ids);
          ContributionsSum(p, i.ids);
          RoundedShare(p.Gain(), whole);
          forall k | 0 <= k < |i.ids| ensures IsShare(shares[k], GainedIn(i, i.ids[k]), whole) {
            RoundedShare(p.ComponentGain(i.ids[k]), whole);
          }
        }
      }
    }
  }
}
