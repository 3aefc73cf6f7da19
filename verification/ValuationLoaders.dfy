/**
 The loaders of canonical valuation states: rows are grouped into components, each with its own
 dictionary of account amounts, and the state's total is stated (V1) or summed (V2).
 Text columns arrive lower- or upper-cased as the loader would case them.
 */
module ValuationLoaders {
  import opened Wrappers
  import opened Names
  import opened Sums
  import Rounding
  import opened Valuation

  /** One row as either loader reads it: the component it goes to, its account, flag and amount. */
  datatype Posting = Posting(id: string, account: string, isCash: bool, amount: real)

  datatype Books = Books(order: seq<string>, components: map<string, Component>)

  const NO_BOOKS := Books([], map[])

  function Added(c: Component, p: Posting): Component {
    Component(c.isCash, c.value + p.amount, Credit(c.accounts, p.account, p.amount))
  }

  /** `setdefault`, then the three updates of the bucket: only the first row of a component sets its flag. */
  function Post(b: Books, p: Posting): Books {
    var bucket := if p.id in b.components then b.components[p.id] else Component(p.isCash, 0.0, []);
    Books(if p.id in b.components then b.order else b.order + [p.id], b.components[p.id := Added(bucket, p)])
  }

  function PostAll(ps: seq<Posting>): Books {
    if ps == [] then NO_BOOKS else Post(PostAll(ps[..|ps| - 1]), ps[|ps| - 1])
  }

  // ------------------------------------------------- what the rows add up to

  function RowSum(ps: seq<Posting>): real {
    if ps == [] then 0.0 else RowSum(ps[..|ps| - 1]) + ps[|ps| - 1].amount
  }

  function IdSum(ps: seq<Posting>, id: string): real {
    if ps == [] then 0.0
    else
      var last := ps[|ps| - 1];
      IdSum(ps[..|ps| - 1], id) + if last.id == id then last.amount else 0.0
  }

  function AccountSum(ps: seq<Posting>, id: string, account: string): real {
    if ps == [] then 0.0
    else
      var last := ps[|ps| - 1];
      AccountSum(ps[..|ps| - 1], id, account) + if last.id == id && last.account == account then last.amount else 0.0
  }

  /** The flag of the first row of a component. */
  function FirstFlag(ps: seq<Posting>, id: string): Option<bool> {
    if ps == [] then None
    else
      var earlier, last := FirstFlag(ps[..|ps| - 1], id), ps[|ps| - 1];
      if earlier.Some? then earlier else if last.id == id then Some(last.isCash) else None
  }

  /** A component holds exactly the amounts of its rows, in total and account by account. */
  ghost predicate Holds(ps: seq<Posting>, id: string, c: Component) {
    && FirstFlag(ps, id) == Some(c.isCash) && c.value == IdSum(ps, id)
    && Distinct(Keys(c.accounts)) && Total(c.accounts) == c.value
    && forall account :: Amount(c.accounts, account) == AccountSum(ps, id, account)
  }

  ghost predicate BooksValid(b: Books) {
    Distinct(b.order) && forall id :: id in b.order <==> id in b.components
  }

  lemma {:induction false} PostAllHolds(ps: seq<Posting>, id: string)
    ensures id in PostAll(ps).components <==> FirstFlag(ps, id).Some?
    ensures id in PostAll(ps).components ==> Holds(ps, id, PostAll(ps).components[id])
    ensures id !in PostAll(ps).components ==> IdSum(ps, id) == 0.0 && forall account :: AccountSum(ps, id, account) == 0.0
  {
    if ps != [] {
      var front, p := ps[..|ps| - 1], ps[|ps| - 1];
      PostAllHolds(front, id);
      if p.id == id {
        var b := PostAll(front);
        var bucket := if id in b.components then b.components[id] else Component(p.isCash, 0.0, []);
        CreditMeans(bucket.accounts, p.account, p.amount);
      }
    }
  }

  lemma {:induction false} PostAllValid(ps: seq<Posting>)
    ensures BooksValid(PostAll(ps))
  {
    if ps != [] {
      hide Distinct, Added;
      var b, p := PostAll(ps[..|ps| - 1]), ps[|ps| - 1];
      PostAllValid(ps[..|ps| - 1]);
      DistinctMore(b.order, p.id);
    }
  }

  function ValueIn(b: Books): string -> real {
    id => if id in b.components then b.components[id].value else 0.0
  }

  lemma PostValue(b: Books, p: Posting, id: string)
    ensures ValueIn(Post(b, p))(id) == ValueIn(b)(id) + if id == p.id then p.amount else 0.0
  {
    hide Credit;
  }

  lemma PostMovesSum(b: Books, p: Posting)
    requires BooksValid(b)
    ensures SumOf(Post(b, p).order, ValueIn(Post(b, p))) == SumOf(b.order, ValueIn(b)) + p.amount
  {
    var after := Post(b, p);
    assert after.order == if p.id in b.components then b.order else b.order + [p.id];
    hide Post, ValueIn, SumOf, Distinct;
    forall id ensures ValueIn(after)(id) == ValueIn(b)(id) + if id == p.id then p.amount else 0.0 {
      PostValue(b, p, id);
    }
    if p.id in b.components {
      var k :| 0 <= k < |b.order| && b.order[k] == p.id;
      SumWithout(b.order, k, ValueIn(b));
      SumWithout(b.order, k, ValueIn(after));
      DistinctWithout(b.order, k);
      SumAgrees(Without(b.order, k), ValueIn(b), ValueIn(after));
    } else {
      SumAgrees(b.order, ValueIn(b), ValueIn(after));
      SumOfMore(b.order, p.id, ValueIn(after));
      NoValue(b, p.id);
    }
  }

  lemma NoValue(b: Books, id: string)
    requires id !in b.components
    ensures ValueIn(b)(id) == 0.0
  {
  }

  lemma SumOfMore(keys: seq<string>, key: string, f: string -> real)
    ensures SumOf(keys + [key], f) == SumOf(keys, f) + f(key)
  {
    assert (keys + [key])[..|keys|] == keys;
  }

  /** Grouping conserves the total of the rows. */
  lemma {:induction false} GroupingConserves(ps: seq<Posting>)
    ensures SumOf(PostAll(ps).order, ValueIn(PostAll(ps))) == RowSum(ps)
  {
    hide Post;
    if ps != [] {
      GroupingConserves(ps[..|ps| - 1]);
      PostAllValid(ps[..|ps| - 1]);
      PostMovesSum(PostAll(ps[..|ps| - 1]), ps[|ps| - 1]);
    }
  }

  /** The grouping loop. */
  method Group(ps: seq<Posting>) returns (order: seq<string>, components: map<string, Component>)
    ensures Books(order, components) == PostAll(ps)
  {
    hide Credit;
    order, components := [], map[];
    var k := 0;
    while k < |ps|
      invariant 0 <= k <= |ps| && Books(order, components) == PostAll(ps[..k])
    {
      var p := ps[k];
      if p.id !in components {
        order := order + [p.id];
        components := components[p.id := Component(p.isCash, 0.0, [])];
      }
      var bucket := components[p.id];
      var accounts := Credit(bucket.accounts, p.account, p.amount);
      components := components[p.id := Component(bucket.isCash, bucket.value + p.amount, accounts)];
      assert ps[..k + 1][..k] == ps[..k];
      k := k + 1;
    }
    assert ps[..k] == ps;
  }

  // ---------------------------------------------------------- the V1 loader

  datatype HoldingRow = HoldingRow(
    account: Option<string>, symbol: Option<string>, market: Option<string>, basis: string, exposure: string,
    subtype: string, value: Option<real>, currency: Option<string>)

  datatype Overview = Overview(
    takenAt: int, total: Option<real>, quality: string, flags: seq<string>, complete: bool,
    required: set<string>, observed: set<string>, rows: seq<HoldingRow>)

  /** Missing and empty text both fall back. */
  function Or(text: Option<string>, fallback: string): string {
    if text.Some? && text.value != "" then text.value else fallback
  }

  function AmountOf(value: Option<real>): real {
    if value.Some? then value.value else 0.0
  }

  function V1ComponentId(isCash: bool, market: Option<string>, symbol: Option<string>, currency: Option<string>): string {
    if isCash then "cash|" + Or(currency, "KRW")
    else "instrument|" + Or(market, "UNKNOWN") + "|" + Or(symbol, "UNKNOWN")
  }

  function V1Posting(row: HoldingRow): Posting {
    var isCash := "cash" in {row.basis, row.exposure, row.subtype};
    Posting(V1ComponentId(isCash, row.market, row.symbol, row.currency), Or(row.account, "unknown"), isCash, AmountOf(row.value))
  }

  function V1Postings(rows: seq<HoldingRow>): (ps: seq<Posting>)
    ensures |ps| == |rows|
  {
    seq(|rows|, i requires 0 <= i < |rows| => V1Posting(rows[i]))
  }

  /** What `load_v1_canonical_states` makes of one overview. */
  function V1State(overview: Overview): State {
    var b := PostAll(V1Postings(overview.rows));
    var total, held := AmountOf(overview.total), SumOf(b.order, ValueIn(b));
    State(
      overview.takenAt, total, b.order, b.components, overview.required, overview.observed,
      overview.complete && overview.quality == "pass",
      overview.flags
      + (if overview.rows == [] then ["missing_holding_rows"] else [])
      + if Reconciles(total - held, Tolerance(total, total)) then [] else ["overview_holding_reconciliation_failed"])
  }

  method LoadV1CanonicalState(overview: Overview) returns (state: State)
    ensures state == V1State(overview)
  {
    hide Reconciles, Tolerance, PostAll;
    var order, components := Group(V1Postings(overview.rows));
    var blockers := overview.flags;
    if |overview.rows| == 0 {
      blockers := blockers + ["missing_holding_rows"];
    }
    var total := AmountOf(overview.total);
    if !Reconciles(total - SumOf(order, ValueIn(Books(order, components))), Tolerance(total, total)) {
      blockers := blockers + ["overview_holding_reconciliation_failed"];
    }
    state := State(overview.takenAt, total, order, components, overview.required, overview.observed,
                   overview.complete && overview.quality == "pass", blockers);
  }

  // ---------------------------------------------------------- the V2 loader

  datatype StateRow = StateRow(account: string, instrument: string, level: string, value: Option<real>,
      asOf: int, quality: string)

  function V2Posting(row: StateRow): Posting {
    Posting(row.instrument, row.account, row.level == "cash", AmountOf(row.value))
  }

  function V2Postings(rows: seq<StateRow>): (ps: seq<Posting>)
    ensures |ps| == |rows|
  {
    seq(|rows|, i requires 0 <= i < |rows| => V2Posting(rows[i]))
  }

  function LatestOf(rows: seq<StateRow>): int
    requires rows != []
  {
    if |rows| == 1 then rows[0].asOf
    else
      var earlier, last := LatestOf(rows[..|rows| - 1]), rows[|rows| - 1].asOf;
      if last > earlier then last else earlier
  }

  predicate Mixed(rows: seq<StateRow>) {
    exists i :: 0 <= i < |rows| && rows[i].asOf != rows[0].asOf
  }

  function QualityFlags(rows: seq<StateRow>): seq<string> {
    if rows == [] then []
    else
      var last := rows[|rows| - 1];
      QualityFlags(rows[..|rows| - 1]) + if last.quality != "pass" then ["input_quality_" + last.quality] else []
  }

  function ObservedIn(rows: seq<StateRow>): set<string> {
    set i | 0 <= i < |rows| :: rows[i].account
  }

  /** `load_v2_canonical_state`; the account registry is read as of the snapshot. */
  function V2State(rows: seq<StateRow>, registry: int -> set<string>): Option<State> {
    if rows == [] then None
    else
      var b, at := PostAll(V2Postings(rows)), LatestOf(rows);
      var required, observed := registry(at), ObservedIn(rows);
      var blockers :=
        QualityFlags(rows)
        + (if Mixed(rows) then ["mixed_state_cutoff"] else [])
        + (if required == {} then ["missing_required_account_registry"] else [])
        + if observed != required then ["required_account_coverage_mismatch"] else [];
      Some(State(at, SumOf(b.order, ValueIn(b)), b.order, b.components, required, observed, blockers == [], blockers))
  }

  /** What the loop over the rows gathers beside the groups. */
  method ScanRows(rows: seq<StateRow>) returns (observed: set<string>, asOf: set<int>, at: int, blockers: seq<string>)
    requires rows != []
    ensures observed == ObservedIn(rows) && blockers == QualityFlags(rows) && at == LatestOf(rows)
    ensures |asOf| == 1 <==> !Mixed(rows)
  {
    observed, asOf, at, blockers := {}, {}, rows[0].asOf, [];
    var k := 0;
    while k < |rows|
      invariant 0 <= k <= |rows|
      invariant observed == ObservedIn(rows[..k])
      invariant blockers == QualityFlags(rows[..k])
      invariant asOf == set i | 0 <= i < k :: rows[i].asOf
      invariant at == if k == 0 then rows[0].asOf else LatestOf(rows[..k])
    {
      var row := rows[k];
      assert rows[..k + 1] == rows[..k] + [row];
      ObservedMore(rows[..k], row);
      hide ObservedIn;
      observed := observed + {row.account};
      asOf := asOf + {row.asOf};
      at := if row.asOf > at then row.asOf else at;
      if row.quality != "pass" {
        blockers := blockers + ["input_quality_" + row.quality];
      }
      k := k + 1;
    }
    assert rows[..k] == rows;
    OneCutoff(rows, asOf);
  }

  lemma ObservedMore(rows: seq<StateRow>, row: StateRow)
    ensures ObservedIn(rows + [row]) == ObservedIn(rows) + {row.account}
  {
    var more := rows + [row];
    forall account ensures account in ObservedIn(more) <==> account in ObservedIn(rows) || account == row.account {
      if account in ObservedIn(rows) {
        var i :| 0 <= i < |rows| && rows[i].account == account;
        assert more[i].account == account;
      }
      assert more[|rows|] == row;
    }
  }

  method LoadV2CanonicalState(rows: seq<StateRow>, registry: int -> set<string>) returns (state: Option<State>)
    ensures state == V2State(rows, registry)
  {
    hide PostAll, V2Postings, ValueIn, Mixed, LatestOf, ObservedIn, QualityFlags;
    if rows == [] {
      return None;
    }
    var observed, asOf, at, blockers := ScanRows(rows);
    var order, components := Group(V2Postings(rows));
    var required := registry(at);
    blockers := blockers + if |asOf| != 1 then ["mixed_state_cutoff"] else [];
    blockers := blockers + if required == {} then ["missing_required_account_registry"] else [];
    blockers := blockers + if observed != required then ["required_account_coverage_mismatch"] else [];
    state := Some(State(at, SumOf(order, ValueIn(Books(order, components))), order, components, required, observed,
                        blockers == [], blockers));
  }

  lemma OneCutoff(rows: seq<StateRow>, asOf: set<int>)
    requires rows != [] && asOf == set i | 0 <= i < |rows| :: rows[i].asOf
    ensures |asOf| == 1 <==> !Mixed(rows)
  {
    var first := rows[0].asOf;
    assert first in asOf;
    var others := asOf - {first};
    assert |others| == |asOf| - 1;
    if Mixed(rows) {
      var i :| 0 <= i < |rows| && rows[i].asOf != first;
      assert rows[i].asOf in others;
    } else {
      assert others == {};
    }
  }

  // ------------------------------------------------------------- theorems

  /** Every loaded state is a dictionary whose components are worth the sum of their accounts. */
  lemma LoadedStatesBalance(ps: seq<Posting>, state: State)
    requires (state.order, state.components) == (PostAll(ps).order, PostAll(ps).components)
    ensures state.Valid() && Balanced(state) && state.ComponentSum() == RowSum(ps)
    ensures forall id :: state.Value(id) == IdSum(ps, id)
    ensures forall id, account :: Amount(state.Accounts(id), account) == AccountSum(ps, id, account)
  {
    hide PostAll, Distinct, IdSum, AccountSum, RowSum;
    PostAllValid(ps);
    GroupingConserves(ps);
    SumAgrees(state.order, state.Values(), ValueIn(PostAll(ps)));
    forall id ensures state.Value(id) == IdSum(ps, id)
      ensures id in state.components ==> Holds(ps, id, state.components[id])
      ensures forall account :: Amount(state.Accounts(id), account) == AccountSum(ps, id, account)
    {
      PostAllHolds(ps, id);
    }
  }

  /** A V2 state's total is the sum of its rows and of its components. */
  lemma V2IsSummed(rows: seq<StateRow>, registry: int -> set<string>)
    requires rows != []
    ensures var state := V2State(rows, registry).value;
            state.Valid() && Balanced(state) && Summed(state) && state.total == RowSum(V2Postings(rows))
  {
    LoadedStatesBalance(V2Postings(rows), V2State(rows, registry).value);
    GroupingConserves(V2Postings(rows));
  }

  /**
   Two V2 states leave a residual of exactly their net reclassification; unless some id changed
   sides it is zero, and then the comparison is degraded only by the quality of its inputs.
   */
  lemma V2Residual(
    a: seq<StateRow>, b: seq<StateRow>, registry: int -> set<string>, prior: State, current: State,
    ids: seq<string>, accountsOf: string -> seq<string>)
    requires V2State(a, registry) == Some(prior) && V2State(b, registry) == Some(current)
    requires Visits(ids, prior, current)
    ensures Residual(prior, current, ids) == Reclassification(prior, current)
    ensures SameFlags(prior, current) ==>
              && Compared(prior, current, ids, accountsOf).residual == 0.0
              && (Compared(prior, current, ids, accountsOf).comparable <==> !QualityBlocked(prior, current))
  {
    V2IsSummed(a, registry);
    V2IsSummed(b, registry);
    hide V2State, Visits, Compared;
    ResidualExplained(prior, current, ids);
    if SameFlags(prior, current) { SummedStatesReconcile(prior, current, ids, accountsOf); }
  }

  /** What a single row is loaded as, with its account the only one registered. */
  function Single(row: StateRow): State {
    var amount := AmountOf(row.value);
    State(row.asOf, amount, [row.instrument],
          map[row.instrument := Component(row.level == "cash", amount, [Entry(row.account, amount)])],
          {row.account}, {row.account}, true, [])
  }

  lemma OnePosting(p: Posting)
    ensures PostAll([p]) == Books([p.id], map[p.id := Component(p.isCash, p.amount, [Entry(p.account, p.amount)])])
  {
    assert [p][..0] == [];
    assert PostAll([p]) == Post(NO_BOOKS, p);
  }

  lemma OneValue(id: string, f: string -> real)
    ensures SumOf([id], f) == f(id)
  {
    assert [id][..0] == [];
  }

  lemma OneRow(row: StateRow)
    requires row.quality == "pass"
    ensures QualityFlags([row]) == [] && LatestOf([row]) == row.asOf && !Mixed([row])
    ensures ObservedIn([row]) == {row.account} && V2Postings([row]) == [V2Posting(row)]
  {
    assert [row][..0] == [];
    assert [row][0] == row;
  }

  lemma SingleLoads(row: StateRow, registry: int -> set<string>)
    requires row.quality == "pass" && registry(row.asOf) == {row.account}
    ensures V2State([row], registry) == Some(Single(row))
  {
    hide PostAll, QualityFlags, LatestOf, Mixed, ObservedIn, V2Postings, SumOf;
    OneRow(row);
    OnePosting(V2Posting(row));
    OneValue(row.instrument, ValueIn(PostAll([V2Posting(row)])));
  }

  lemma SingleReclassified(a: StateRow, b: StateRow)
    requires a.instrument == b.instrument && a.level != "cash" && b.level == "cash"
    ensures Visits([], Single(a), Single(b)) && Reclassification(Single(a), Single(b)) == -AmountOf(a.value)
  {
    OneValue(a.instrument, Reclassifications(Single(a), Single(b)));
  }

  /**
   A position whose row is written as cash the next time, nothing else having changed, is reported
   as an unexplained loss of its whole value, though both states load without a blocker.
   */
  lemma FlagFlipLosesValue(a: StateRow, b: StateRow, registry: int -> set<string>, accountsOf: string -> seq<string>)
    requires a.instrument == b.instrument && a.level != "cash" && b.level == "cash" && a.account == b.account
    requires a.quality == b.quality == "pass" && registry(a.asOf) == registry(b.asOf) == {a.account}
    ensures V2State([a], registry).Some? && V2State([b], registry).Some?
    ensures var prior, current := V2State([a], registry).value, V2State([b], registry).value;
            && Visits([], prior, current) && !QualityBlocked(prior, current)
            && prior.total == AmountOf(a.value) && current.total == AmountOf(b.value)
            && Compared(prior, current, [], accountsOf).residual == -AmountOf(a.value)
  {
    hide V2State, Visits, Reclassification, SameFlags;
    SingleLoads(a, registry);
    SingleLoads(b, registry);
    SingleReclassified(a, b);
    V2Residual([a], [b], registry, Single(a), Single(b), [], accountsOf);
    ComparedResidual(Single(a), Single(b), accountsOf);
  }

  lemma ComparedResidual(prior: State, current: State, accountsOf: string -> seq<string>)
    ensures Compared(prior, current, [], accountsOf).residual == Residual(prior, current, [])
    ensures !Reconciles(Residual(prior, current, []), Tolerance(prior.total, current.total)) ==>
              !Compared(prior, current, [], accountsOf).comparable
  {
    hide Reconciles, Tolerance, Residual, QualityBlocked;
  }

  /** With 100 KRW held the comparison is refused, though not a won has moved. */
  lemma ReclassificationUnexplained(registry: int -> set<string>, accountsOf: string -> seq<string>)
    returns (before: seq<StateRow>, after: seq<StateRow>)
    requires registry(1) == registry(2) == {"ria"}
    ensures before == [StateRow("ria", "X", "position", Some(100.0), 1, "pass")]
    ensures after == [StateRow("ria", "X", "cash", Some(100.0), 2, "pass")]
    ensures V2State(before, registry).Some? && V2State(after, registry).Some?
    ensures var prior, current := V2State(before, registry).value, V2State(after, registry).value;
            && Visits([], prior, current) && !QualityBlocked(prior, current) && prior.total == current.total == 100.0
            && Compared(prior, current, [], accountsOf).residual == -100.0
            && !Compared(prior, current, [], accountsOf).comparable
  {
    hide V2State, Visits, QualityBlocked, Compared, Residual, Tolerance;
    before := [StateRow("ria", "X", "position", Some(100.0), 1, "pass")];
    after := [StateRow("ria", "X", "cash", Some(100.0), 2, "pass")];
    FlagFlipLosesValue(before[0], after[0], registry, accountsOf);
    ComparedResidual(V2State(before, registry).value, V2State(after, registry).value, accountsOf);
    ToleranceOfHundred();
  }

  lemma ToleranceOfHundred()
    ensures Tolerance(100.0, 100.0) == 100
  {
    Rounding.HalfEvenOfWhole(100);
  }

  /** In V1 the id itself says whether a component is cash. */
  lemma {:induction false} V1FlagInId(rows: seq<HoldingRow>, id: string)
    ensures var flag := FirstFlag(V1Postings(rows), id);
            flag.Some? ==> |id| > 0 && (flag.value <==> id[0] == 'c')
  {
    if rows != [] {
      var n := |rows| - 1;
      V1FlagInId(rows[..n], id);
      assert V1Postings(rows)[..n] == V1Postings(rows[..n]);
      assert V1Postings(rows)[n].id[0] == if V1Postings(rows)[n].isCash then 'c' else 'i';
    }
  }

  /** So no V1 component ever changes sides, and the residual is what the stated totals have beyond their holdings. */
  lemma V1Residual(a: Overview, b: Overview, ids: seq<string>)
    requires Visits(ids, V1State(a), V1State(b))
    ensures SameFlags(V1State(a), V1State(b))
    ensures Residual(V1State(a), V1State(b), ids) ==
            (AmountOf(b.total) - RowSum(V1Postings(b.rows))) - (AmountOf(a.total) - RowSum(V1Postings(a.rows)))
  {
    var prior, current := V1State(a), V1State(b);
    LoadedStatesBalance(V1Postings(a.rows), prior);
    LoadedStatesBalance(V1Postings(b.rows), current);
    forall id | id in prior.components && id in current.components
      ensures prior.components[id].isCash == current.components[id].isCash
    {
      PostAllHolds(V1Postings(a.rows), id);
      PostAllHolds(V1Postings(b.rows), id);
      V1FlagInId(a.rows, id);
      V1FlagInId(b.rows, id);
    }
    hide V1State, Visits, RowSum;
    SameFlagsResidual(prior, current, ids);
  }
}
