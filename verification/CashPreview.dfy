/**
 The point-in-time preview of cash reconciliations: an append-only history of evaluations, the
 choice of one revision per interval, and a paged read whose cursor is bound to that choice.
 Instants are microseconds; hashing and the cursor's encoding are taken as injective.
 */
module CashPreview {
  import opened Wrappers

  datatype Evaluation = Evaluation(
    account: string, currency: string, t0: Option<int>, t1: int, knownBy: int, inputHash: string, outcome: string)
  {
    predicate WellFormed() {
      t0.Some? ==> t0.value < t1
    }
  }

  datatype Row = Row(revision: nat, result: Evaluation)

  datatype Interval = Interval(account: string, currency: string, t0: Option<int>, t1: int)

  function IntervalOf(e: Evaluation): Interval {
    Interval(e.account, e.currency, e.t0, e.t1)
  }

  // ------------------------------------------------------------ the history

  function Matching(rows: seq<Row>, interval: Interval): seq<Row> {
    if rows == [] then []
    else
      var last := rows[|rows| - 1];
      Matching(rows[..|rows| - 1], interval) + if IntervalOf(last.result) == interval then [last] else []
  }

  /** The rows come from well-formed results, and revisions number the rows of an interval from 1. */
  ghost predicate Numbered(rows: seq<Row>) {
    forall i :: 0 <= i < |rows| ==>
      rows[i].result.WellFormed() && rows[i].revision == |Matching(rows[..i], IntervalOf(rows[i].result))| + 1
  }

  lemma {:induction false} MatchingMember(rows: seq<Row>, interval: Interval, row: Row)
    ensures row in Matching(rows, interval) <==> row in rows && IntervalOf(row.result) == interval
  {
    if rows != [] { MatchingMember(rows[..|rows| - 1], interval, row); }
  }

  lemma {:induction false} MatchingGrows(rows: seq<Row>, i: nat, j: nat, interval: Interval)
    requires i <= j <= |rows|
    ensures |Matching(rows[..i], interval)| <= |Matching(rows[..j], interval)|
    ensures i < j && IntervalOf(rows[i].result) == interval ==>
              |Matching(rows[..i], interval)| < |Matching(rows[..j], interval)|
    decreases j
  {
    if i < j {
      MatchingGrows(rows, i, j - 1, interval);
      assert rows[..j][..j - 1] == rows[..j - 1];
    }
  }

  /** No two rows of one interval carry the same revision. */
  lemma RevisionsDiffer(rows: seq<Row>, i: nat, j: nat)
    requires Numbered(rows) && i < j < |rows| && IntervalOf(rows[i].result) == IntervalOf(rows[j].result)
    ensures rows[i].revision < rows[j].revision
  {
    MatchingGrows(rows, i, j, IntervalOf(rows[i].result));
  }

  // ------------------------------------------------------------- the choice

  datatype Query = Query(
    account: string, currency: string, start: int, end: int, cutoff: int, limit: int, cursor: Option<Cursor>)

  /** A cursor decodes to its two fields, or not at all. */
  datatype Cursor = Garbled | At(snapshot: Binding, offset: int)

  datatype Binding = Binding(
    account: string, currency: string, start: int, end: int, cutoff: int, rows: seq<(string, nat)>)

  predicate Eligible(q: Query, row: Row) {
    var r := row.result;
    r.account == q.account && r.currency == q.currency && q.start <= r.t1 <= q.end && r.knownBy <= q.cutoff
  }

  /** Greater by (knowledge cutoff, revision). */
  predicate Newer(a: Row, b: Row) {
    a.result.knownBy > b.result.knownBy || (a.result.knownBy == b.result.knownBy && a.revision > b.revision)
  }

  /** No eligible row of the same interval is newer. */
  ghost predicate Chosen(rows: seq<Row>, q: Query, row: Row) {
    && row in rows && Eligible(q, row)
    && forall other :: other in rows && Eligible(q, other) && IntervalOf(other.result) == IntervalOf(row.result)
                       ==> !Newer(other, row)
  }

  function StartOr(e: Evaluation): int {
    if e.t0.Some? then e.t0.value else e.t1
  }

  predicate Precedes(a: Row, b: Row) {
    a.result.t1 < b.result.t1 || (a.result.t1 == b.result.t1 && StartOr(a.result) < StartOr(b.result))
  }

  ghost predicate Ordered(rows: seq<Row>) {
    forall i, j :: 0 <= i < j < |rows| ==> Precedes(rows[i], rows[j])
  }

  /** The chosen rows, each once, in interval order. */
  ghost predicate IsSelection(rows: seq<Row>, q: Query, selection: seq<Row>) {
    Ordered(selection) && forall row :: row in selection <==> Chosen(rows, q, row)
  }

  lemma HeadIsMember(rows: seq<Row>)
    ensures rows == [] || rows[0] in rows
  {
  }

  lemma {:induction false} OrderedUnique(a: seq<Row>, b: seq<Row>)
    requires Ordered(a) && Ordered(b) && forall row :: row in a <==> row in b
    ensures a == b
  {
    HeadIsMember(a);
    HeadIsMember(b);
    if a != [] {
      assert a[0] == b[0];
      forall row ensures row in a[1..] <==> row in b[1..] {
        if row in a[1..] { assert row in b && row != b[0]; }
        if row in b[1..] { assert row in a && row != a[0]; }
      }
      OrderedUnique(a[1..], b[1..]);
    }
  }

  /** The selection depends only on which rows there are, not on the order they were appended in. */
  lemma SelectionIgnoresOrder(rows: seq<Row>, shuffled: seq<Row>, q: Query, a: seq<Row>, b: seq<Row>)
    requires forall row :: row in rows <==> row in shuffled
    requires IsSelection(rows, q, a) && IsSelection(shuffled, q, b)
    ensures a == b
  {
    forall row ensures Chosen(rows, q, row) <==> Chosen(shuffled, q, row) {
    }
    OrderedUnique(a, b);
  }

  // --------------------------------------------- the selection as a function

  /** One more row: it replaces an older revision of its interval, or takes its place in order. */
  function Place(selection: seq<Row>, row: Row): seq<Row> {
    if selection == [] then [row]
    else if IntervalOf(selection[0].result) == IntervalOf(row.result) then
      if Newer(row, selection[0]) then [row] + selection[1..] else selection
    else if Precedes(row, selection[0]) then [row] + selection
    else [selection[0]] + Place(selection[1..], row)
  }

  function Selection(rows: seq<Row>, q: Query): seq<Row> {
    if rows == [] then []
    else
      var last, earlier := rows[|rows| - 1], Selection(rows[..|rows| - 1], q);
      if Eligible(q, last) then Place(earlier, last) else earlier
  }

  ghost predicate Scoped(q: Query, rows: seq<Row>) {
    forall i :: 0 <= i < |rows| ==> Eligible(q, rows[i]) && rows[i].result.WellFormed()
  }

  /** Distinct intervals of one account and currency have distinct places in the order. */
  lemma IntervalsCompare(q: Query, a: Row, b: Row)
    requires Eligible(q, a) && Eligible(q, b) && a.result.WellFormed() && b.result.WellFormed()
    ensures IntervalOf(a.result) != IntervalOf(b.result) <==> Precedes(a, b) || Precedes(b, a)
  {
  }

  ghost predicate Keeps(selection: seq<Row>, placed: seq<Row>, row: Row) {
    && (forall other :: other in placed ==> other == row || other in selection)
    && (forall other :: other in selection ==>
          (other in placed <==> IntervalOf(other.result) != IntervalOf(row.result) || !Newer(row, other)))
    && (row in placed <==> forall other :: other in selection && IntervalOf(other.result) == IntervalOf(row.result)
                                           ==> Newer(row, other) || other == row)
  }

  lemma {:induction false} PlaceKeeps(q: Query, selection: seq<Row>, row: Row)
    requires Ordered(selection) && Scoped(q, selection) && Eligible(q, row) && row.result.WellFormed()
    ensures Ordered(Place(selection, row)) && Scoped(q, Place(selection, row)) && Keeps(selection, Place(selection, row), row)
  {
    hide Ordered, Scoped, Keeps, Eligible, Newer, Precedes;
    if selection == [] {
      KeepsNothing(q, row);
    } else {
      var first, rest := selection[0], selection[1..];
      Uncons(q, selection);
      assert selection == [first] + rest;
      IntervalsCompare(q, first, row);
      if IntervalOf(first.result) == IntervalOf(row.result) {
        ReplaceHead(q, first, rest, row);
      } else if Precedes(row, first) {
        InFront(q, first, rest, row);
      } else {
        PlaceKeeps(q, rest, row);
        Behind(q, first, rest, Place(rest, row), row);
      }
    }
  }

  lemma KeepsNothing(q: Query, row: Row)
    requires Eligible(q, row) && row.result.WellFormed()
    ensures Ordered([row]) && Scoped(q, [row]) && Keeps([], [row], row)
  {
  }

  /** A head that comes before everything else in the list. */
  ghost predicate Leads(first: Row, rest: seq<Row>) {
    forall row :: row in rest ==> Precedes(first, row)
  }

  lemma Uncons(q: Query, rows: seq<Row>)
    requires rows != [] && Ordered(rows) && Scoped(q, rows)
    ensures Ordered(rows[1..]) && Scoped(q, rows[1..]) && Leads(rows[0], rows[1..])
    ensures Eligible(q, rows[0]) && rows[0].result.WellFormed()
  {
    hide Precedes, Eligible;
  }

  lemma Cons(q: Query, first: Row, rest: seq<Row>)
    requires Ordered(rest) && Scoped(q, rest) && Leads(first, rest)
    requires Eligible(q, first) && first.result.WellFormed()
    ensures Ordered([first] + rest) && Scoped(q, [first] + rest)
  {
    hide Precedes, Eligible;
  }

  lemma LeadsApart(q: Query, first: Row, rest: seq<Row>)
    requires Scoped(q, rest) && Leads(first, rest) && Eligible(q, first) && first.result.WellFormed()
    ensures forall other :: other in rest ==> IntervalOf(other.result) != IntervalOf(first.result)
  {
    hide Precedes, Eligible;
    forall other | other in rest ensures IntervalOf(other.result) != IntervalOf(first.result) {
      IntervalsCompare(q, first, other);
    }
  }

  lemma ReplaceHead(q: Query, first: Row, rest: seq<Row>, row: Row)
    requires Ordered(rest) && Scoped(q, rest) && Leads(first, rest)
    requires Eligible(q, first) && first.result.WellFormed() && Eligible(q, row) && row.result.WellFormed()
    requires IntervalOf(first.result) == IntervalOf(row.result)
    ensures var placed := if Newer(row, first) then [row] + rest else [first] + rest;
            Ordered(placed) && Scoped(q, placed) && Keeps([first] + rest, placed, row)
  {
    LeadsApart(q, first, rest);
    assert Leads(row, rest);
    Cons(q, if Newer(row, first) then row else first, rest);
    hide Ordered, Scoped, Leads, Precedes, Eligible;
  }

  lemma InFront(q: Query, first: Row, rest: seq<Row>, row: Row)
    requires Ordered(rest) && Scoped(q, rest) && Leads(first, rest)
    requires Eligible(q, first) && first.result.WellFormed() && Eligible(q, row) && row.result.WellFormed()
    requires Precedes(row, first)
    ensures Ordered([row] + ([first] + rest)) && Scoped(q, [row] + ([first] + rest))
    ensures Keeps([first] + rest, [row] + ([first] + rest), row)
  {
    assert Leads(row, [first] + rest);
    Cons(q, first, rest);
    Cons(q, row, [first] + rest);
    LeadsApart(q, row, [first] + rest);
    hide Ordered, Scoped, Leads, Precedes, Eligible, Newer;
  }

  lemma Behind(q: Query, first: Row, rest: seq<Row>, placed: seq<Row>, row: Row)
    requires Leads(first, rest) && Ordered(placed) && Scoped(q, placed) && Keeps(rest, placed, row)
    requires Eligible(q, first) && first.result.WellFormed()
    requires Precedes(first, row) && IntervalOf(first.result) != IntervalOf(row.result)
    ensures Ordered([first] + placed) && Scoped(q, [first] + placed) && Keeps([first] + rest, [first] + placed, row)
  {
    hide Precedes, Eligible, Newer;
    assert Leads(first, placed);
    Cons(q, first, placed);
    hide Ordered, Scoped, Leads;
  }

  lemma {:induction false} SelectionCorrect(rows: seq<Row>, q: Query)
    requires Numbered(rows)
    ensures IsSelection(rows, q, Selection(rows, q)) && Scoped(q, Selection(rows, q))
  {
    hide Place, Newer, Precedes, Matching, Keeps, Eligible;
    if rows == [] {
      assert IsSelection(rows, q, []);
    } else {
      var n := |rows| - 1;
      NumberedPrefix(rows);
      SelectionCorrect(rows[..n], q);
      if Eligible(q, rows[n]) {
        assert rows[n].result.WellFormed();
        PlaceKeeps(q, Selection(rows[..n], q), rows[n]);
        PlacedIsSelection(rows, q, Selection(rows[..n], q));
      } else {
        SkippedIsSelection(rows, q, Selection(rows[..n], q));
      }
    }
  }

  lemma NumberedPrefix(rows: seq<Row>)
    requires Numbered(rows) && rows != []
    ensures Numbered(rows[..|rows| - 1])
  {
    var n := |rows| - 1;
    assert forall i :: 0 <= i < n ==> rows[..n][..i] == rows[..i];
  }

  lemma SkippedIsSelection(rows: seq<Row>, q: Query, earlier: seq<Row>)
    requires rows != [] && !Eligible(q, rows[|rows| - 1]) && IsSelection(rows[..|rows| - 1], q, earlier)
    ensures IsSelection(rows, q, earlier)
  {
    hide Newer, Precedes;
    var n := |rows| - 1;
    assert rows == rows[..n] + [rows[n]];
    assert forall row :: Chosen(rows, q, row) <==> Chosen(rows[..n], q, row);
  }

  lemma PlacedIsSelection(rows: seq<Row>, q: Query, earlier: seq<Row>)
    requires Numbered(rows) && rows != [] && Eligible(q, rows[|rows| - 1])
    requires IsSelection(rows[..|rows| - 1], q, earlier) && Keeps(earlier, Place(earlier, rows[|rows| - 1]), rows[|rows| - 1])
    requires Ordered(Place(earlier, rows[|rows| - 1]))
    ensures IsSelection(rows, q, Place(earlier, rows[|rows| - 1]))
  {
    hide Numbered, Place;
    var n := |rows| - 1;
    var before, last := rows[..n], rows[n];
    assert rows == before + [last];
    var placed := Place(earlier, last);
    forall row ensures row in placed <==> Chosen(rows, q, row) {
      ChosenAfter(rows, q, earlier, placed, row);
    }
  }

  /** The newest eligible revision of an interval that has one. */
  lemma {:induction false} SomeChosen(rows: seq<Row>, q: Query, row: Row) returns (chosen: Row)
    requires row in rows && Eligible(q, row)
    ensures Chosen(rows, q, chosen) && IntervalOf(chosen.result) == IntervalOf(row.result)
    ensures chosen == row || Newer(chosen, row)
  {
    var n := |rows| - 1;
    var before, last := rows[..n], rows[n];
    assert rows == before + [last];
    if row !in before {
      chosen := last;
      if other :| other in before && Eligible(q, other) && IntervalOf(other.result) == IntervalOf(last.result) {
        var best := SomeChosen(before, q, other);
        chosen := if Newer(best, last) then best else last;
      }
    } else {
      chosen := SomeChosen(before, q, row);
      if Eligible(q, last) && IntervalOf(last.result) == IntervalOf(row.result) && Newer(last, chosen) {
        chosen := last;
      }
    }
  }

  lemma ChosenAfter(rows: seq<Row>, q: Query, earlier: seq<Row>, placed: seq<Row>, row: Row)
    requires Numbered(rows) && rows != [] && Eligible(q, rows[|rows| - 1])
    requires forall other :: other in earlier <==> Chosen(rows[..|rows| - 1], q, other)
    requires Keeps(earlier, placed, rows[|rows| - 1])
    ensures row in placed <==> Chosen(rows, q, row)
  {
    hide Chosen, Newer, Eligible, Numbered, Matching;
    if row == rows[|rows| - 1] {
      hide Keeps;
      LastPlaced(rows, q, earlier, placed);
    } else {
      ChosenBefore(rows, q, row);
    }
  }

  lemma ChosenBefore(rows: seq<Row>, q: Query, row: Row)
    requires rows != [] && row != rows[|rows| - 1] && Eligible(q, rows[|rows| - 1])
    ensures var last := rows[|rows| - 1];
            Chosen(rows, q, row) <==>
              && Chosen(rows[..|rows| - 1], q, row)
              && (IntervalOf(row.result) != IntervalOf(last.result) || !Newer(last, row))
  {
    hide Newer, Eligible;
    var before, last := rows[..|rows| - 1], rows[|rows| - 1];
    assert forall other :: other in rows <==> other in before || other == last by {
      assert rows == before + [last];
    }
  }

  lemma KeepsLast(selection: seq<Row>, placed: seq<Row>, row: Row)
    requires Keeps(selection, placed, row)
    ensures row in placed <==> forall other :: other in selection && IntervalOf(other.result) == IntervalOf(row.result)
                                               ==> Newer(row, other) || other == row
  {
  }

  /** The last row is chosen exactly when it beats the revision chosen so far. */
  lemma LastPlaced(rows: seq<Row>, q: Query, earlier: seq<Row>, placed: seq<Row>)
    requires Numbered(rows) && rows != [] && Eligible(q, rows[|rows| - 1])
    requires forall other :: other in earlier <==> Chosen(rows[..|rows| - 1], q, other)
    requires Keeps(earlier, placed, rows[|rows| - 1])
    ensures rows[|rows| - 1] in placed <==> Chosen(rows, q, rows[|rows| - 1])
  {
    hide Eligible, Numbered, Matching, Keeps, Newer;
    var n := |rows| - 1;
    var before, last := rows[..n], rows[n];
    assert last in rows;
    if Chosen(rows, q, last) {
      forall other | other in earlier && IntervalOf(other.result) == IntervalOf(last.result)
        ensures Newer(last, other) || other == last
      {
        LastBeats(rows, q, other);
      }
      assert last in placed by { KeepsLast(earlier, placed, last); }
    }
    if last in placed {
      forall other | other in rows && Eligible(q, other) && IntervalOf(other.result) == IntervalOf(last.result)
        ensures !Newer(other, last)
      {
        if other in before {
          var best := SomeChosen(before, q, other);
          assert Newer(last, best) || best == last by { KeepsLast(earlier, placed, last); }
          NewerChain(last, best, other);
        } else {
          assert rows == before + [last];
          NewerChain(last, last, other);
        }
      }
    }
  }

  lemma NewerChain(a: Row, b: Row, c: Row)
    requires (Newer(a, b) || a == b) && (Newer(b, c) || b == c)
    ensures !Newer(c, a)
  {
  }

  lemma LastBeats(rows: seq<Row>, q: Query, other: Row)
    requires Numbered(rows) && rows != [] && Chosen(rows, q, rows[|rows| - 1])
    requires other in rows[..|rows| - 1] && Eligible(q, other)
    requires IntervalOf(other.result) == IntervalOf(rows[|rows| - 1].result)
    ensures Newer(rows[|rows| - 1], other)
  {
    hide Eligible, Matching;
    var i :| 0 <= i < |rows| - 1 && rows[i] == other;
    RevisionsDiffer(rows, i, |rows| - 1);
    assert other in rows;
  }

  /** One row per interval that has an eligible revision, and it is the newest. */
  lemma EachIntervalOnce(rows: seq<Row>, q: Query, row: Row) returns (k: nat)
    requires Numbered(rows) && row in rows && Eligible(q, row)
    ensures var s := Selection(rows, q);
            && k < |s| && IntervalOf(s[k].result) == IntervalOf(row.result) && !Newer(row, s[k])
            && forall j :: 0 <= j < |s| && j != k ==> IntervalOf(s[j].result) != IntervalOf(row.result)
  {
    hide Selection, Numbered;
    SelectionCorrect(rows, q);
    var s := Selection(rows, q);
    var best := SomeChosen(rows, q, row);
    k :| 0 <= k < |s| && s[k] == best;
    forall j | 0 <= j < |s| && j != k ensures IntervalOf(s[j].result) != IntervalOf(row.result) {
      assert Precedes(s[j], s[k]) || Precedes(s[k], s[j]);
      IntervalsCompare(q, s[j], s[k]);
    }
  }

  // ------------------------------------------------------------- the pages

  const ACCOUNTS := {"ria", "isa", "brokerage", "irp", "pension"}
  const MAX_SPAN := 31 * 86_400_000_000

  predicate InScope(account: string, currency: string) {
    account in ACCOUNTS && |currency| == 3 && forall i :: 0 <= i < 3 ==> 'A' <= currency[i] <= 'Z'
  }

  datatype Error = InvalidScope | InvalidRange | InvalidLimit | InvalidCursor

  datatype Page = Page(data: seq<Row>, next: Option<Cursor>)

  function References(selection: seq<Row>): (refs: seq<(string, nat)>)
    ensures |refs| == |selection|
  {
    seq(|selection|, i requires 0 <= i < |selection| => (selection[i].result.inputHash, selection[i].revision))
  }

  function Bind(q: Query, selection: seq<Row>): Binding {
    Binding(q.account, q.currency, q.start, q.end, q.cutoff, References(selection))
  }

  predicate RangeOk(q: Query) {
    q.start <= q.end <= q.cutoff && q.end - q.start <= MAX_SPAN
  }

  /** A cursor is good for a query when it was bound to the same selection and points inside it. */
  predicate CursorOk(q: Query, selection: seq<Row>) {
    match q.cursor
    case None => true
    case Some(Garbled) => false
    case Some(At(snapshot, offset)) => snapshot == Bind(q, selection) && 0 < offset < |selection|
  }

  function Offset(q: Query): int {
    if q.cursor.Some? && q.cursor.value.At? then q.cursor.value.offset else 0
  }

  function Cut(q: Query, selection: seq<Row>): Page
    requires q.limit > 0 && CursorOk(q, selection)
  {
    var from := Offset(q);
    var to := if from + q.limit < |selection| then from + q.limit else |selection|;
    Page(selection[from..to], if to < |selection| then Some(At(Bind(q, selection), to)) else None)
  }

  function Preview(rows: seq<Row>, q: Query): Result<Page, Error> {
    if !InScope(q.account, q.currency) then Err(InvalidScope)
    else if !RangeOk(q) then Err(InvalidRange)
    else if !(1 <= q.limit <= 100) then Err(InvalidLimit)
    else if !CursorOk(q, Selection(rows, q)) then Err(InvalidCursor)
    else Ok(Cut(q, Selection(rows, q)))
  }

  /** The choice reads neither the limit nor the cursor. */
  lemma {:induction false} SelectionOfScope(rows: seq<Row>, q: Query, r: Query)
    requires r.account == q.account && r.currency == q.currency
    requires r.start == q.start && r.end == q.end && r.cutoff == q.cutoff
    ensures Selection(rows, r) == Selection(rows, q) && Bind(r, Selection(rows, r)) == Bind(q, Selection(rows, q))
  {
    hide Place;
    if rows != [] { SelectionOfScope(rows[..|rows| - 1], q, r); }
  }

  /** How many rows a query has still to see. */
  function Remaining(rows: seq<Row>, q: Query): nat {
    if CursorOk(q, Selection(rows, q)) then |Selection(rows, q)| - Offset(q) else 0
  }

  lemma NextIsSmaller(rows: seq<Row>, q: Query)
    requires Preview(rows, q).Ok? && Preview(rows, q).value.next.Some?
    ensures Remaining(rows, q.(cursor := Preview(rows, q).value.next)) < Remaining(rows, q)
  {
    SelectionOfScope(rows, q, q.(cursor := Preview(rows, q).value.next));
    hide Selection;
  }

  /** A reader that follows `next_cursor`, choosing its limit page by page. */
  function Follow(rows: seq<Row>, q: Query, limits: nat -> int, page: nat): Result<seq<Row>, Error>
    decreases Remaining(rows, q)
  {
    var asked := q.(limit := limits(page));
    SelectionOfScope(rows, q, asked);
    match Preview(rows, asked)
    case Err(e) => Err(e)
    case Ok(got) =>
      if got.next.None? then Ok(got.data)
      else
        NextIsSmaller(rows, asked);
        match Follow(rows, asked.(cursor := got.next), limits, page + 1)
        case Err(e) => Err(e)
        case Ok(rest) => Ok(got.data + rest)
  }

  lemma {:induction false} FollowFrom(rows: seq<Row>, q: Query, limits: nat -> int, page: nat)
    requires InScope(q.account, q.currency) && RangeOk(q) && CursorOk(q, Selection(rows, q))
    requires forall n: nat :: 1 <= limits(n) <= 100
    ensures Follow(rows, q, limits, page) == Ok(Selection(rows, q)[Offset(q)..])
    decreases Remaining(rows, q)
  {
    hide Selection, InScope, References;
    var asked := q.(limit := limits(page));
    SelectionOfScope(rows, q, asked);
    var got, all := Preview(rows, asked).value, Selection(rows, q);
    assert all[Offset(q)..|all|] == all[Offset(q)..];
    if got.next.Some? {
      NextIsSmaller(rows, asked);
      var after := asked.(cursor := got.next);
      SelectionOfScope(rows, asked, after);
      FollowFrom(rows, after, limits, page + 1);
      assert all[Offset(q)..] == all[Offset(q)..Offset(after)] + all[Offset(after)..];
    }
  }

  /** Following the cursors from the start, with any limits, ends and reads the whole selection in order. */
  lemma PagesCoverSelection(rows: seq<Row>, q: Query, limits: nat -> int)
    requires Numbered(rows) && InScope(q.account, q.currency) && RangeOk(q) && q.cursor == None
    requires forall n: nat :: 1 <= limits(n) <= 100
    ensures Follow(rows, q, limits, 0).Ok? && IsSelection(rows, q, Follow(rows, q, limits, 0).value)
  {
    FollowFrom(rows, q, limits, 0);
    SelectionCorrect(rows, q);
    assert Selection(rows, q)[0..] == Selection(rows, q);
  }

  /**
   A cursor issued for one query and history is honoured by another exactly when both have the
   same scope, range and cutoff, and select the same evaluations at the same revisions.
   */
  lemma CursorBoundToSelection(rows: seq<Row>, q: Query, later: seq<Row>, r: Query)
    requires Preview(rows, q).Ok? && Preview(rows, q).value.next.Some?
    requires r.cursor == Preview(rows, q).value.next
    requires InScope(r.account, r.currency) && RangeOk(r) && 1 <= r.limit <= 100
    ensures Preview(later, r).Ok? <==>
              && (r.account, r.currency, r.start, r.end, r.cutoff) == (q.account, q.currency, q.start, q.end, q.cutoff)
              && References(Selection(later, r)) == References(Selection(rows, q))
    ensures !Preview(later, r).Ok? ==> Preview(later, r) == Err(InvalidCursor)
  {
    hide Selection, InScope, References;
  }

  lemma {:induction false} IneligibleIgnored(rows: seq<Row>, more: seq<Row>, q: Query)
    requires forall i :: 0 <= i < |more| ==> !Eligible(q, more[i])
    ensures Selection(rows + more, q) == Selection(rows, q)
    decreases |more|
  {
    if more == [] {
      assert rows + more == rows;
    } else {
      assert (rows + more)[..|rows + more| - 1] == rows + more[..|more| - 1];
      IneligibleIgnored(rows, more[..|more| - 1], q);
    }
  }

  /** Evaluations known only after the cutoff change no page, so cursors already issued stay good. */
  lemma LaterKnowledgeChangesNothing(rows: seq<Row>, more: seq<Row>, q: Query)
    requires forall i :: 0 <= i < |more| ==> more[i].result.knownBy > q.cutoff
    ensures Preview(rows + more, q) == Preview(rows, q)
  {
    IneligibleIgnored(rows, more, q);
  }

  // -------------------------------------------------------------- the objects

  /** The rows after one `append`, and the row it returns. */
  ghost predicate Appended(rows: seq<Row>, result: Evaluation, rows': seq<Row>, row: Row) {
    var same := Matching(rows, IntervalOf(result));
    if exists known :: known in same && known.result.inputHash == result.inputHash then
      rows' == rows && row in same && row.result.inputHash == result.inputHash
    else
      row == Row(|same| + 1, result) && rows' == rows + [row]
  }

  lemma AppendKeepsNumbering(rows: seq<Row>, result: Evaluation, rows': seq<Row>, row: Row)
    requires Numbered(rows) && result.WellFormed() && Appended(rows, result, rows', row)
    ensures Numbered(rows') && row in rows' && IntervalOf(row.result) == IntervalOf(result)
    ensures rows <= rows'
  {
    MatchingMember(rows, IntervalOf(result), row);
    if rows' != rows {
      forall i | 0 <= i < |rows'|
        ensures rows'[i].revision == |Matching(rows'[..i], IntervalOf(rows'[i].result))| + 1
      {
        if i < |rows| { assert rows'[..i] == rows[..i]; } else { assert rows'[..i] == rows; }
      }
    }
  }

  class EvaluationHistory {
    var rows: seq<Row>

    ghost predicate Valid()
      reads this
    {
      Numbered(rows)
    }

    constructor ()
      ensures Valid() && rows == []
    {
      rows := [];
    }

    /** A result whose inputs were already evaluated for the interval is not recorded again. */
    method Append(result: Evaluation) returns (row: Row)
      requires Valid() && result.WellFormed()
      modifies this
      ensures Valid() && Appended(old(rows), result, rows, row) && old(rows) <= rows
    {
      var matching := Matching(rows, IntervalOf(result));
      var i := 0;
      while i < |matching|
        invariant 0 <= i <= |matching|
        invariant forall j :: 0 <= j < i ==> matching[j].result.inputHash != result.inputHash
      {
        if matching[i].result.inputHash == result.inputHash {
          row := matching[i];
          AppendKeepsNumbering(old(rows), result, rows, row);
          return;
        }
        i := i + 1;
      }
      row := Row(|matching| + 1, result);
      rows := rows + [row];
      AppendKeepsNumbering(old(rows), result, rows, row);
    }
  }

  // ------------------------------------------------------------- the read

  /** The dictionary of the loop holds exactly the rows selected so far, under their intervals. */
  ghost predicate Holds(intervals: map<Interval, Row>, selection: seq<Row>) {
    && (forall key :: key in intervals ==> IntervalOf(intervals[key].result) == key && intervals[key] in selection)
    && (forall row :: row in selection ==>
          IntervalOf(row.result) in intervals && intervals[IntervalOf(row.result)] == row)
  }

  lemma HoldsPlaced(q: Query, intervals: map<Interval, Row>, selection: seq<Row>, row: Row)
    requires Ordered(selection) && Scoped(q, selection) && Eligible(q, row) && row.result.WellFormed()
    requires Holds(intervals, selection)
    ensures var key := IntervalOf(row.result);
            Holds(if key !in intervals || Newer(row, intervals[key]) then intervals[key := row] else intervals,
                  Place(selection, row))
  {
    PlaceKeeps(q, selection, row);
    hide Place, Ordered, Eligible;
    var key, placed := IntervalOf(row.result), Place(selection, row);
    var after := if key !in intervals || Newer(row, intervals[key]) then intervals[key := row] else intervals;
    forall other | other in placed ensures IntervalOf(other.result) in after && after[IntervalOf(other.result)] == other {
      HeldAfter(intervals, selection, placed, row, other);
    }
    forall other | other in after ensures IntervalOf(after[other].result) == other && after[other] in placed {
      if other == key && after != intervals { NewlyHeld(intervals, selection, placed, row); }
    }
  }

  lemma HeldAfter(intervals: map<Interval, Row>, selection: seq<Row>, placed: seq<Row>, row: Row, other: Row)
    requires Holds(intervals, selection) && Keeps(selection, placed, row) && other in placed
    ensures var key := IntervalOf(row.result);
            var after := if key !in intervals || Newer(row, intervals[key]) then intervals[key := row] else intervals;
            IntervalOf(other.result) in after && after[IntervalOf(other.result)] == other
  {
    hide Newer;
    var key := IntervalOf(row.result);
    if IntervalOf(other.result) == key && key in intervals {
      assert intervals[key] in selection;
    }
  }

  lemma NewlyHeld(intervals: map<Interval, Row>, selection: seq<Row>, placed: seq<Row>, row: Row)
    requires Holds(intervals, selection) && Keeps(selection, placed, row)
    requires var key := IntervalOf(row.result); key !in intervals || Newer(row, intervals[key])
    ensures row in placed
  {
    hide Newer;
  }

  /** `sorted(intervals.values(), …)` by (t1, t0 or t1). */
  method SortedRows(q: Query, intervals: map<Interval, Row>, ghost selection: seq<Row>) returns (rows: seq<Row>)
    requires Ordered(selection) && Scoped(q, selection) && Holds(intervals, selection)
    ensures rows == selection
  {
    hide Place, Newer, Precedes, Eligible;
    rows := [];
    var left := intervals.Keys;
    while left != {}
      invariant left <= intervals.Keys && Ordered(rows) && Scoped(q, rows)
      invariant forall row :: row in rows <==> row in selection && IntervalOf(row.result) !in left
    {
      var key :| key in left;
      var row := intervals[key];
      ghost var k :| 0 <= k < |selection| && selection[k] == row;
      PlaceKeeps(q, rows, row);
      rows := Place(rows, row);
      left := left - {key};
    }
    OrderedUnique(rows, selection);
  }

  /** The loop that chooses: a dictionary entry gives way to a greater (knowledge cutoff, revision). */
  method Choose(history: EvaluationHistory, q: Query) returns (intervals: map<Interval, Row>)
    requires history.Valid()
    ensures Holds(intervals, Selection(history.rows, q))
  {
    hide Numbered, Place, Keeps, Newer, Eligible, Ordered, Scoped, Chosen;
    intervals := map[];
    NumberedTake(history.rows, 0);
    var i := 0;
    while i < |history.rows|
      invariant 0 <= i <= |history.rows| && Numbered(history.rows[..i])
      invariant Holds(intervals, Selection(history.rows[..i], q))
    {
      hide Holds;
      ghost var before := Selection(history.rows[..i], q);
      var row := history.rows[i];
      NumberedTake(history.rows, i + 1);
      assert history.rows[..i + 1][..i] == history.rows[..i];
      if Eligible(q, row) {
        SelectionCorrect(history.rows[..i], q);
        HoldsPlaced(q, intervals, before, row);
        var key := IntervalOf(row.result);
        if key !in intervals || Newer(row, intervals[key]) {
          intervals := intervals[key := row];
        }
      }
      i := i + 1;
    }
    assert history.rows[..i] == history.rows;
  }

  /** `read_preview`: choose per interval in one pass, sort, check the cursor, cut the page. */
  method ReadPreview(history: EvaluationHistory, q: Query) returns (response: Result<Page, Error>)
    requires history.Valid()
    ensures response == Preview(history.rows, q)
  {
    hide InScope, Selection, References;
    if !InScope(q.account, q.currency) {
      return Err(InvalidScope);
    }
    if !RangeOk(q) {
      return Err(InvalidRange);
    }
    if !(1 <= q.limit <= 100) {
      return Err(InvalidLimit);
    }
    var intervals := Choose(history, q);
    SelectionCorrect(history.rows, q);
    var rows := SortedRows(q, intervals, Selection(history.rows, q));
    hide IsSelection, Scoped, Numbered, Holds, Ordered;
    var binding, offset := Bind(q, rows), 0;
    if q.cursor.Some? {
      var cursor := q.cursor.value;
      if cursor.Garbled? || cursor.snapshot != binding || !(0 < cursor.offset < |rows|) {
        return Err(InvalidCursor);
      }
      offset := cursor.offset;
    }
    var selected := rows[offset..if offset + q.limit < |rows| then offset + q.limit else |rows|];
    var nextOffset := offset + |selected|;
    response := Ok(Page(selected, if nextOffset < |rows| then Some(At(binding, nextOffset)) else None));
  }

  lemma NumberedTake(rows: seq<Row>, n: nat)
    requires Numbered(rows) && n <= |rows|
    ensures Numbered(rows[..n])
    ensures n > 0 ==> rows[n - 1].result.WellFormed()
  {
    forall i | 0 <= i < n ensures rows[..n][..i] == rows[..i] {
    }
  }
}
