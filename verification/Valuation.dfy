/**
 Comparing two canonical valuation states: what each instrument and the cash contributed to the
 change of the stated total, what is left unexplained, and what rounding does to the display.
 */
module Valuation {
  import opened Numbers
  import opened Wrappers
  import opened Names
  import opened Rounding
  import opened Sums

  datatype Component = Component(isCash: bool, value: real, accounts: seq<Entry>)

  /** `order` lists the keys of the dictionary `components` as they were inserted. */
  datatype State = State(
    takenAt: int, total: real, order: seq<string>, components: map<string, Component>,
    required: set<string>, observed: set<string>, complete: bool, blockers: seq<string>)
  {
    ghost predicate Valid() {
      Distinct(order) && forall id :: id in order <==> id in components
    }

    function Value(id: string): real {
      if id in components then components[id].value else 0.0
    }

    function CashValue(id: string): real {
      if id in components && components[id].isCash then components[id].value else 0.0
    }

    function Accounts(id: string): seq<Entry> {
      if id in components then components[id].accounts else []
    }

    function Values(): string -> real {
      id => Value(id)
    }

    function CashValues(): string -> real {
      id => CashValue(id)
    }

    function ComponentSum(): real {
      SumOf(order, Values())
    }

    function CashSum(): real {
      SumOf(order, CashValues())
    }
  }

  /** The later state's entry wins when an id is in both. */
  predicate Instrument(prior: State, current: State, id: string) {
    if id in current.components then !current.components[id].isCash
    else id in prior.components && !prior.components[id].isCash
  }

  /** The instrument ids, each once, in the order they are visited. */
  ghost predicate Visits(ids: seq<string>, prior: State, current: State) {
    Distinct(ids) && forall id :: id in ids <==> Instrument(prior, current, id)
  }

  function Change(prior: State, current: State, id: string): real {
    current.Value(id) - prior.Value(id)
  }

  function Changes(prior: State, current: State): string -> real {
    id => Change(prior, current, id)
  }

  function HoldingChange(prior: State, current: State, ids: seq<string>): real {
    SumOf(ids, Changes(prior, current))
  }

  function CashChange(prior: State, current: State): real {
    current.CashSum() - prior.CashSum()
  }

  function Residual(prior: State, current: State, ids: seq<string>): real {
    (current.total - prior.total) - (HoldingChange(prior, current, ids) + CashChange(prior, current))
  }

  // ------------------------------------------------------- the residual

  /** What the stated total has beyond its components. */
  function Unattributed(state: State): real {
    state.total - state.ComponentSum()
  }

  /** The prior value of a component that turned from cash into an instrument, less one that went the other way. */
  function Reclassified(prior: State, current: State, id: string): real {
    if id !in current.components || id !in prior.components then 0.0
    else if current.components[id].isCash == prior.components[id].isCash then 0.0
    else if prior.components[id].isCash then prior.components[id].value
    else -prior.components[id].value
  }

  function Reclassification(prior: State, current: State): real {
    SumOf(prior.order, Reclassifications(prior, current))
  }

  function Reclassifications(prior: State, current: State): string -> real {
    id => Reclassified(prior, current, id)
  }

  /** The components that are visited, and the cash that moved. */
  function Held(prior: State, current: State): string -> real {
    id => if Instrument(prior, current, id) then Change(prior, current, id) else 0.0
  }

  function CashMoves(prior: State, current: State): string -> real {
    id => current.CashValue(id) - prior.CashValue(id)
  }

  function Unvisited(prior: State, current: State): string -> real {
    id => Changes(prior, current)(id) - Held(prior, current)(id)
  }

  lemma ReclassifiedIs(prior: State, current: State, id: string)
    ensures Reclassified(prior, current, id) == Unvisited(prior, current)(id) - CashMoves(prior, current)(id)
  {
    assert Unvisited(prior, current)(id) == Changes(prior, current)(id) - Held(prior, current)(id);
    assert Changes(prior, current)(id) == Change(prior, current, id);
    assert Held(prior, current)(id) == if Instrument(prior, current, id) then Change(prior, current, id) else 0.0;
    assert CashMoves(prior, current)(id) == current.CashValue(id) - prior.CashValue(id);
  }

  /** The four sums over all keys that the residual is made of. */
  lemma SumsOverAll(prior: State, current: State, ids: seq<string>, all: seq<string>)
    requires prior.Valid() && current.Valid() && Visits(ids, prior, current)
    requires Covers(all, prior.order, current.order)
    ensures SumOf(all, Changes(prior, current)) == current.ComponentSum() - prior.ComponentSum()
    ensures SumOf(all, CashMoves(prior, current)) == CashChange(prior, current)
    ensures SumOf(all, Held(prior, current)) == HoldingChange(prior, current, ids)
    ensures SumOf(all, Reclassifications(prior, current)) == Reclassification(prior, current)
  {
    hide Distinct, SumOf;
    ChangesAcross(all, prior.order, current.order, prior.Values(), current.Values(), Changes(prior, current));
    ChangesAcross(all, prior.order, current.order, prior.CashValues(), current.CashValues(), CashMoves(prior, current));
    SumWithin(all, ids, Changes(prior, current), Held(prior, current));
    SumWithin(all, prior.order, Reclassifications(prior, current), Reclassifications(prior, current));
  }

  /**
   For any two states, the unexplained residual is the change of the unattributed part of the
   total plus the net reclassification between cash and instruments; so it equals the former
   exactly when reclassifications cancel.
   */
  lemma ResidualExplained(prior: State, current: State, ids: seq<string>)
    requires prior.Valid() && current.Valid() && Visits(ids, prior, current)
    ensures Residual(prior, current, ids) ==
            Unattributed(current) - Unattributed(prior) + Reclassification(prior, current)
    ensures Residual(prior, current, ids) == Unattributed(current) - Unattributed(prior) <==>
            Reclassification(prior, current) == 0.0
  {
    hide SumOf, Distinct, Covers;
    var all := Union(prior.order, current.order);
    UnionCovers(prior.order, current.order);
    SumsOverAll(prior, current, ids, all);
    SumLinear(all, Changes(prior, current), Held(prior, current), Unvisited(prior, current));
    forall id ensures Reclassified(prior, current, id) == Unvisited(prior, current)(id) - CashMoves(prior, current)(id) {
      ReclassifiedIs(prior, current, id);
    }
    hide Unvisited, CashMoves, Held;
    SumLinear(all, Unvisited(prior, current), CashMoves(prior, current), Reclassifications(prior, current));
  }

  ghost predicate SameFlags(prior: State, current: State) {
    forall id :: id in prior.components && id in current.components ==>
      prior.components[id].isCash == current.components[id].isCash
  }

  lemma {:induction false} SumOfZeros(keys: seq<string>, f: string -> real)
    requires forall i :: 0 <= i < |keys| ==> f(keys[i]) == 0.0
    ensures SumOf(keys, f) == 0.0
  {
    if keys != [] { SumOfZeros(keys[..|keys| - 1], f); }
  }

  /** With the same cash flags the residual is what the totals have beyond their components. */
  lemma SameFlagsResidual(prior: State, current: State, ids: seq<string>)
    requires prior.Valid() && current.Valid() && Visits(ids, prior, current) && SameFlags(prior, current)
    ensures Residual(prior, current, ids) == Unattributed(current) - Unattributed(prior)
  {
    ResidualExplained(prior, current, ids);
    SumOfZeros(prior.order, Reclassifications(prior, current));
  }

  // ------------------------------------------------------------ display

  /** Whole hundredths of a KRW, as displayed. */
  function Money(x: real): int {
    HalfEven(100.0 * x)
  }

  function Abs(x: real): real {
    if x < 0.0 then -x else x
  }

  /** One part in a million of the larger total, at least one KRW; in hundredths. */
  function Tolerance(prior: real, current: real): int {
    Money(Max(1.0, Max(Abs(prior), Abs(current)) * 0.000001))
  }

  predicate Reconciles(residual: real, tolerance: int) {
    100.0 * Abs(residual) <= tolerance as real
  }

  lemma ToleranceAtLeastOne(prior: real, current: real)
    ensures Tolerance(prior, current) >= 100
  {
    var allowed := Max(1.0, Max(Abs(prior), Abs(current)) * 0.000001);
    assert 100.0 * allowed >= 100.0;
  }

  datatype Movement = Movement(account: string, previous: int, current: int, change: int)

  datatype Contributor = Contributor(
    id: string, previous: int, current: int, change: int, breakdown: seq<Movement>,
    isNew: Option<bool>, isSold: Option<bool>)

  datatype Comparison = Comparison(
    comparable: bool, holdingChange: real, cashChange: real, residual: real, tolerance: int, reconciles: bool,
    contributors: seq<Contributor>)

  function MovementOf(prior: State, current: State, id: string, account: string): Movement {
    var before, after := Amount(prior.Accounts(id), account), Amount(current.Accounts(id), account);
    Movement(account, Money(before), Money(after), Money(after - before))
  }

  function Breakdown(prior: State, current: State, id: string, accounts: seq<string>): (moves: seq<Movement>)
    ensures |moves| == |accounts|
  {
    seq(|accounts|, i requires 0 <= i < |accounts| => MovementOf(prior, current, id, accounts[i]))
  }

  function ContributorOf(prior: State, current: State, id: string, accounts: seq<string>, comparable: bool): Contributor {
    var before, after := Money(prior.Value(id)), Money(current.Value(id));
    Contributor(id, before, after, Money(Change(prior, current, id)), Breakdown(prior, current, id, accounts),
                if comparable then Some(before == 0 && after != 0) else None,
                if comparable then Some(before != 0 && after == 0) else None)
  }

  function Contributors(prior: State, current: State, ids: seq<string>, accountsOf: string -> seq<string>,
      comparable: bool): (cs: seq<Contributor>)
    ensures |cs| == |ids|
  {
    seq(|ids|, i requires 0 <= i < |ids| => ContributorOf(prior, current, ids[i], accountsOf(ids[i]), comparable))
  }

  predicate QualityBlocked(prior: State, current: State) {
    || prior.blockers != [] || current.blockers != [] || !prior.complete || !current.complete
    || prior.required != current.required || prior.observed != prior.required || current.observed != current.required
  }

  function DisplayedSum(cs: seq<Contributor>): int {
    if cs == [] then 0 else DisplayedSum(cs[..|cs| - 1]) + cs[|cs| - 1].change
  }

  /** The changes whose display is summed, in hundredths. */
  function InHundredths(prior: State, current: State, ids: seq<string>): (xs: seq<real>)
    ensures |xs| == |ids|
  {
    seq(|ids|, i requires 0 <= i < |ids| => 100.0 * Change(prior, current, ids[i]))
  }

  lemma {:induction false} HoldingInHundredths(prior: State, current: State, ids: seq<string>)
    ensures 100.0 * HoldingChange(prior, current, ids) == Sum(InHundredths(prior, current, ids))
  {
    if ids != [] {
      var n := |ids| - 1;
      HoldingInHundredths(prior, current, ids[..n]);
      assert InHundredths(prior, current, ids)[..n] == InHundredths(prior, current, ids[..n]);
    }
  }

  lemma {:induction false} DisplayedAsRounded(prior: State, current: State, ids: seq<string>,
      accountsOf: string -> seq<string>, comparable: bool)
    ensures DisplayedSum(Contributors(prior, current, ids, accountsOf, comparable)) == RoundedTotal(InHundredths(prior, current, ids))
  {
    hide HalfEven, Breakdown, Change;
    if ids != [] {
      var n := |ids| - 1;
      DisplayedAsRounded(prior, current, ids[..n], accountsOf, comparable);
      assert Contributors(prior, current, ids, accountsOf, comparable)[..n] ==
             Contributors(prior, current, ids[..n], accountsOf, comparable);
      assert InHundredths(prior, current, ids)[..n] == InHundredths(prior, current, ids[..n]);
    }
  }

  /** For n contributors the displayed changes add up to within (n + 1)/2 hundredths of the displayed holding sum. */
  lemma DisplayedSumClose(prior: State, current: State, ids: seq<string>, accountsOf: string -> seq<string>,
      comparable: bool)
    ensures var shown := DisplayedSum(Contributors(prior, current, ids, accountsOf, comparable));
            var gap := shown - Money(HoldingChange(prior, current, ids));
            -(|ids| + 1) <= 2 * gap <= |ids| + 1
  {
    DisplayedAsRounded(prior, current, ids, accountsOf, comparable);
    HoldingInHundredths(prior, current, ids);
    RoundingGap(InHundredths(prior, current, ids));
  }

  /** Each component is worth the sum of its accounts. */
  ghost predicate Balanced(state: State) {
    forall id :: id in state.components ==>
      Distinct(Keys(state.components[id].accounts)) && state.components[id].value == Sums.Total(state.components[id].accounts)
  }

  /** Before rounding, an account breakdown adds up to its contributor's change. */
  lemma BreakdownAddsUp(prior: State, current: State, id: string, accounts: seq<string>)
    requires Balanced(prior) && Balanced(current)
    requires Covers(accounts, Keys(prior.Accounts(id)), Keys(current.Accounts(id)))
    ensures SumOf(accounts, account => Amount(current.Accounts(id), account) - Amount(prior.Accounts(id), account)) ==
            Change(prior, current, id)
  {
    ChangesAddUp(prior.Accounts(id), current.Accounts(id), accounts,
                 account => Amount(current.Accounts(id), account) - Amount(prior.Accounts(id), account));
  }

  // ------------------------------------------------------------- the loop

  function Compared(prior: State, current: State, ids: seq<string>, accountsOf: string -> seq<string>): Comparison {
    var residual, tolerance := Residual(prior, current, ids), Tolerance(prior.total, current.total);
    var comparable := !QualityBlocked(prior, current) && Reconciles(residual, tolerance);
    Comparison(
      comparable, HoldingChange(prior, current, ids), CashChange(prior, current), residual, tolerance,
      Reconciles(residual, tolerance), Contributors(prior, current, ids, accountsOf, comparable))
  }

  /** `build_valuation_change_result`; `ids` and `accountsOf` are the sorted keys it walks. */
  method BuildValuationChangeResult(prior: State, current: State, ids: seq<string>, accountsOf: string -> seq<string>)
    returns (result: Option<Comparison>)
    requires prior.Valid() && current.Valid() && Visits(ids, prior, current)
    ensures result == if current.takenAt <= prior.takenAt then None else Some(Compared(prior, current, ids, accountsOf))
  {
    hide HalfEven, Distinct;
    if current.takenAt <= prior.takenAt {
      return None;
    }
    var blocked := QualityBlocked(prior, current);
    var cashChange := SumOf(current.order, current.CashValues()) - SumOf(prior.order, prior.CashValues());
    var contributors: seq<Contributor>, holdingChangeSum := [], 0.0;
    var k := 0;
    while k < |ids|
      invariant 0 <= k <= |ids|
      invariant contributors == Contributors(prior, current, ids[..k], accountsOf, false)
      invariant holdingChangeSum == HoldingChange(prior, current, ids[..k])
    {
      var id := ids[k];
      var change := current.Value(id) - prior.Value(id);
      holdingChangeSum := holdingChangeSum + change;
      contributors := contributors + [ContributorOf(prior, current, id, accountsOf(id), false)];
      HoldingStep(prior, current, ids, k);
      assert ids[..k + 1] == ids[..k] + [id];
      k := k + 1;
    }
    assert ids[..k] == ids;
    var residual := current.total - prior.total - (holdingChangeSum + cashChange);
    var tolerance := Tolerance(prior.total, current.total);
    var reconciles := Reconciles(residual, tolerance);
    var comparable := !blocked && reconciles;
    if comparable {
      contributors := Infer(contributors);
      assert contributors == Contributors(prior, current, ids, accountsOf, true);
    }
    assert residual == Residual(prior, current, ids);
    assert contributors == Contributors(prior, current, ids, accountsOf, comparable);
    result := Some(Comparison(comparable, holdingChangeSum, cashChange, residual, tolerance, reconciles, contributors));
  }

  lemma HoldingStep(prior: State, current: State, ids: seq<string>, k: nat)
    requires k < |ids|
    ensures HoldingChange(prior, current, ids[..k + 1]) == HoldingChange(prior, current, ids[..k]) + Change(prior, current, ids[k])
  {
    assert ids[..k + 1][..k] == ids[..k];
  }

  function Inferred(c: Contributor): Contributor {
    c.(isNew := Some(c.previous == 0 && c.current != 0), isSold := Some(c.previous != 0 && c.current == 0))
  }

  /** Only a comparable pair says which positions are new and which were sold. */
  method Infer(given: seq<Contributor>) returns (contributors: seq<Contributor>)
    ensures |contributors| == |given| && forall i :: 0 <= i < |given| ==> contributors[i] == Inferred(given[i])
  {
    contributors := given;
    var k := 0;
    while k < |contributors|
      invariant 0 <= k <= |contributors| == |given|
      invariant forall i :: 0 <= i < k ==> contributors[i] == Inferred(given[i])
      invariant forall i :: k <= i < |given| ==> contributors[i] == given[i]
    {
      contributors := contributors[k := Inferred(contributors[k])];
      k := k + 1;
    }
  }

  // --------------------------------------------------------- corollaries

  /** A state whose total is the sum of its components, as the V2 loader builds it. */
  ghost predicate Summed(state: State) {
    state.total == state.ComponentSum()
  }

  /** Two such states with the same cash flags reconcile exactly; only their quality can block them. */
  lemma SummedStatesReconcile(prior: State, current: State, ids: seq<string>, accountsOf: string -> seq<string>)
    requires prior.Valid() && current.Valid() && Visits(ids, prior, current) && SameFlags(prior, current)
    requires Summed(prior) && Summed(current)
    ensures var c := Compared(prior, current, ids, accountsOf);
            c.residual == 0.0 && c.reconciles && (c.comparable <==> !QualityBlocked(prior, current))
  {
    SameFlagsResidual(prior, current, ids);
    ToleranceAtLeastOne(prior.total, current.total);
  }
}
