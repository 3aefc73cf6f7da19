/**
 What a valuation comparison reports, said of the two states' fields alone: when it is comparable,
 how much is tolerated, and what each figure is.
 */
module ValuationLaws {
  import opened Numbers
  import opened Sums
  import opened Valuation
  import opened ValuationLoaders
  import opened Wrappers

  /** `n` hundredths are the nearest to `x`, a tie going to the even one. */
  predicate IsHundredths(n: int, x: real) {
    && -1.0 <= 2.0 * (n as real - 100.0 * x) <= 1.0
    && (2.0 * (n as real - 100.0 * x) == 1.0 || 2.0 * (n as real - 100.0 * x) == -1.0 ==> n % 2 == 0)
  }

  predicate Magnitude(size: real, x: real) {
    size >= 0.0 && (size == x || size == -x)
  }

  /** One KRW, or a millionth of the larger total if that is more. */
  predicate IsAllowance(allowed: real, a: real, b: real) {
    && allowed >= 1.0 && -1_000_000.0 * allowed <= a <= 1_000_000.0 * allowed
    && -1_000_000.0 * allowed <= b <= 1_000_000.0 * allowed
    && (allowed == 1.0 || Magnitude(1_000_000.0 * allowed, a) || Magnitude(1_000_000.0 * allowed, b))
  }

  lemma ToleranceIs(prior: real, current: real) returns (allowed: real)
    ensures IsAllowance(allowed, prior, current) && IsHundredths(Tolerance(prior, current), allowed)
  {
    allowed := Max(1.0, Max(Abs(prior), Abs(current)) * 0.000001);
    MoneyIs(allowed);
    hide Money;
  }

  lemma MoneyIs(x: real)
    ensures IsHundredths(Money(x), x)
  {
  }

  /** Nothing is wrong with the state itself, and every required account was observed. */
  predicate FitToCompare(s: State) {
    s.blockers == [] && s.complete && s.observed == s.required
  }

  /**
   A comparison is comparable exactly when both states are complete, without blockers and with every
   required account observed, require the same accounts, and the residual is within the tolerance.
   */
  lemma ComparableExactly(prior: State, current: State, ids: seq<string>, accountsOf: string -> seq<string>)
    returns (allowed: real)
    ensures IsAllowance(allowed, prior.total, current.total)
    ensures var c := Compared(prior, current, ids, accountsOf);
            && IsHundredths(c.tolerance, allowed)
            && (c.reconciles <==> -(c.tolerance as real) <= 100.0 * c.residual <= c.tolerance as real)
            && (c.comparable <==>
                  && FitToCompare(prior) && FitToCompare(current) && prior.required == current.required
                  && -(c.tolerance as real) <= 100.0 * c.residual <= c.tolerance as real)
  {
    allowed := ToleranceIs(prior.total, current.total);
    hide Residual, Tolerance, HoldingChange, CashChange, Contributors, IsHundredths, IsAllowance;
  }

  /** What is shown of one account of a component. */
  ghost predicate ShowsAccount(m: Movement, prior: State, current: State, id: string, account: string) {
    var before, after := Amount(prior.Accounts(id), account), Amount(current.Accounts(id), account);
    m.account == account && IsHundredths(m.previous, before) && IsHundredths(m.current, after) && IsHundredths(m.change, after - before)
  }

  /** What is shown of one component: nothing where a state does not hold it. */
  ghost predicate ShowsComponent(
    c: Contributor, prior: State, current: State, id: string, accounts: seq<string>, comparable: bool)
  {
    var before := if id in prior.components then prior.components[id].value else 0.0;
    var after := if id in current.components then current.components[id].value else 0.0;
    && c.id == id && IsHundredths(c.previous, before) && IsHundredths(c.current, after) && IsHundredths(c.change, after - before)
    && |c.breakdown| == |accounts|
    && (forall k :: 0 <= k < |accounts| ==> ShowsAccount(c.breakdown[k], prior, current, id, accounts[k]))
    && (if comparable then c.isNew == Some(c.previous == 0 && c.current != 0) && c.isSold == Some(c.previous != 0 && c.current == 0)
        else c.isNew == None && c.isSold == None)
  }

  /** Every figure of a comparison, for each visited id in its place. */
  lemma FiguresShown(prior: State, current: State, ids: seq<string>, accountsOf: string -> seq<string>)
    ensures var c := Compared(prior, current, ids, accountsOf);
            && c.holdingChange + c.cashChange + c.residual == current.total - prior.total
            && |c.contributors| == |ids|
            && forall k :: 0 <= k < |ids| ==>
                 ShowsComponent(c.contributors[k], prior, current, ids[k], accountsOf(ids[k]), c.comparable)
  {
    hide QualityBlocked, HoldingChange, CashChange, Tolerance, Reconciles, ShowsComponent, ContributorOf;
    var c := Compared(prior, current, ids, accountsOf);
    forall k | 0 <= k < |ids|
      ensures ShowsComponent(c.contributors[k], prior, current, ids[k], accountsOf(ids[k]), c.comparable)
    {
      ComponentShown(prior, current, ids[k], accountsOf(ids[k]), c.comparable);
    }
  }

  lemma ComponentShown(prior: State, current: State, id: string, accounts: seq<string>, comparable: bool)
    ensures ShowsComponent(ContributorOf(prior, current, id, accounts, comparable), prior, current, id, accounts, comparable)
  {
    MoneyIs(prior.Value(id));
    MoneyIs(current.Value(id));
    MoneyIs(Change(prior, current, id));
    hide Money, IsHundredths, ShowsAccount, MovementOf, State.Accounts;
    forall k | 0 <= k < |accounts| ensures ShowsAccount(MovementOf(prior, current, id, accounts[k]), prior, current, id, accounts[k]) {
      AccountShown(prior, current, id, accounts[k]);
    }
  }

  lemma AccountShown(prior: State, current: State, id: string, account: string)
    ensures ShowsAccount(MovementOf(prior, current, id, account), prior, current, id, account)
  {
    MoneyIs(Amount(prior.Accounts(id), account));
    MoneyIs(Amount(current.Accounts(id), account));
    MoneyIs(Amount(current.Accounts(id), account) - Amount(prior.Accounts(id), account));
    hide Money, IsHundredths;
  }

  // ------------------------------------------------------------ the loaders

  /** A loaded V2 state is sound exactly with passing rows of one cutoff from exactly the registered accounts. */
  lemma V2Sound(rows: seq<StateRow>, registry: int -> set<string>)
    requires rows != []
    ensures V2State(rows, registry).Some?
    ensures var s := V2State(rows, registry).value;
            && (s.complete <==> s.blockers == []) && s.required == registry(s.takenAt)
            && (forall account :: account in s.observed <==> exists i :: 0 <= i < |rows| && rows[i].account == account)
            && (exists i :: 0 <= i < |rows| && rows[i].asOf == s.takenAt)
            && (forall i :: 0 <= i < |rows| ==> rows[i].asOf <= s.takenAt)
            && (FitToCompare(s) <==>
                  && (forall i :: 0 <= i < |rows| ==> rows[i].quality == "pass" && rows[i].asOf == rows[0].asOf)
                  && s.required == s.observed != {})
  {
    hide PostAll, SumOf, V2Postings, ValueIn;
    LatestIs(rows);
    QualityIs(rows);
  }

  lemma {:induction false} LatestIs(rows: seq<StateRow>)
    requires rows != []
    ensures exists i :: 0 <= i < |rows| && rows[i].asOf == LatestOf(rows)
    ensures forall i :: 0 <= i < |rows| ==> rows[i].asOf <= LatestOf(rows)
  {
    if |rows| > 1 {
      var n := |rows| - 1;
      LatestIs(rows[..n]);
      var i :| 0 <= i < n && rows[..n][i].asOf == LatestOf(rows[..n]);
      assert rows[i].asOf == LatestOf(rows[..n]);
      assert rows[n].asOf == LatestOf(rows) || rows[i].asOf == LatestOf(rows);
      assert forall j :: 0 <= j < n ==> rows[j] == rows[..n][j];
    } else {
      assert rows[0].asOf == LatestOf(rows);
    }
  }

  lemma {:induction false} QualityIs(rows: seq<StateRow>)
    ensures QualityFlags(rows) == [] <==> forall i :: 0 <= i < |rows| ==> rows[i].quality == "pass"
  {
    if rows != [] {
      var n := |rows| - 1;
      QualityIs(rows[..n]);
      assert forall j :: 0 <= j < n ==> rows[j] == rows[..n][j];
    }
  }

  /** A loaded V1 state is sound exactly as the overview says, with rows that add up to the stated total. */
  lemma V1Sound(overview: Overview)
    ensures var s := V1State(overview);
            && s.takenAt == overview.takenAt && s.required == overview.required && s.observed == overview.observed
            && s.total == (if overview.total.Some? then overview.total.value else 0.0)
            && (s.complete <==> overview.complete && overview.quality == "pass")
            && (s.blockers == [] <==>
                  && overview.flags == [] && overview.rows != []
                  && Reconciles(s.total - RowSum(V1Postings(overview.rows)), Tolerance(s.total, s.total)))
  {
    GroupingConserves(V1Postings(overview.rows));
    hide PostAll, SumOf, V1Postings, ValueIn, Reconciles, Tolerance, RowSum;
  }

  /** The text, or its substitute when it is missing or empty. */
  predicate IsOr(result: string, text: Option<string>, substitute: string) {
    result == if text.None? || text == Some("") then substitute else text.value
  }

  /** Where a V1 row goes: cash by currency, anything else by market and symbol; a missing amount counts nothing. */
  lemma V1RowGoesTo(row: HoldingRow) returns (market: string, symbol: string, currency: string)
    ensures IsOr(market, row.market, "UNKNOWN") && IsOr(symbol, row.symbol, "UNKNOWN") && IsOr(currency, row.currency, "KRW")
    ensures var p, cash := V1Posting(row), row.basis == "cash" || row.exposure == "cash" || row.subtype == "cash";
            && p.isCash == cash && p.id == (if cash then "cash|" + currency else "instrument|" + market + "|" + symbol)
            && IsOr(p.account, row.account, "unknown") && (row.value.None? ==> p.amount == 0.0)
            && (row.value.Some? ==> p.amount == row.value.value)
  {
    market, symbol, currency := Or(row.market, "UNKNOWN"), Or(row.symbol, "UNKNOWN"), Or(row.currency, "KRW");
  }

  /** A V2 row goes to its instrument, as cash exactly when its level says so. */
  lemma V2RowGoesTo(row: StateRow)
    ensures var p := V2Posting(row);
            && p.id == row.instrument && p.account == row.account && (p.isCash <==> row.level == "cash")
            && (row.value.None? ==> p.amount == 0.0) && (row.value.Some? ==> p.amount == row.value.value)
  {
  }
}
