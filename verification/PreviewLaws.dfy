/**
 What a preview answers, said of the recorded rows and the query's own fields: which rows it may
 show, that it shows one of every interval asked for, and when it refuses.
 */
module PreviewLaws {
  import opened CashPreview
  import opened Wrappers

  /** The row is of the account and currency asked for, ends in the range, and was known by the cutoff. */
  predicate Asked(q: Query, row: Row) {
    var r := row.result;
    && r.account == q.account && r.currency == q.currency
    && r.t1 >= q.start && r.t1 <= q.end && r.knownBy <= q.cutoff
  }

  /** `b` supersedes `a`: the same interval, known later, or at the same moment and recorded later. */
  predicate Supersedes(b: Row, a: Row) {
    && b.result.t0 == a.result.t0 && b.result.t1 == a.result.t1
    && (a.result.knownBy < b.result.knownBy || (a.result.knownBy == b.result.knownBy && a.revision < b.revision))
  }

  lemma ShownAreAsked(rows: seq<Row>, q: Query, row: Row)
    requires Numbered(rows) && row in Selection(rows, q)
    ensures row in rows && Asked(q, row)
    ensures forall other :: other in rows && Asked(q, other) ==> !Supersedes(other, row)
  {
    hide Selection, Numbered, Ordered;
    SelectionCorrect(rows, q);
    assert Chosen(rows, q, row);
    forall other | other in rows && Asked(q, other) ensures !Supersedes(other, row) {
      if IntervalOf(other.result) == IntervalOf(row.result) { assert Eligible(q, other) && !Newer(other, row); }
    }
  }

  /** Every row of a page is a recorded row that was asked for and that no other asked-for row supersedes. */
  lemma PageShowsAsked(rows: seq<Row>, q: Query, row: Row)
    requires Numbered(rows) && Preview(rows, q).Ok? && row in Preview(rows, q).value.data
    ensures row in rows && Asked(q, row)
    ensures forall other :: other in rows && Asked(q, other) ==> !Supersedes(other, row)
  {
    hide Selection, Numbered;
    ShownAreAsked(rows, q, row);
  }

  /** Following the cursors shows a row of every interval that has an asked-for row, and only one. */
  lemma PagesShowEveryInterval(rows: seq<Row>, q: Query, limits: nat -> int, row: Row) returns (k: nat)
    requires Numbered(rows) && InScope(q.account, q.currency) && RangeOk(q) && q.cursor == None
    requires forall n: nat :: 1 <= limits(n) <= 100
    requires row in rows && Asked(q, row)
    ensures Follow(rows, q, limits, 0).Ok?
    ensures var shown := Follow(rows, q, limits, 0).value;
            && k < |shown| && shown[k].result.t0 == row.result.t0 && shown[k].result.t1 == row.result.t1
            && forall j :: 0 <= j < |shown| && j != k ==>
                 shown[j].result.t0 != row.result.t0 || shown[j].result.t1 != row.result.t1
  {
    hide Selection, Numbered, Follow, Eligible, InScope, RangeOk;
    FollowFrom(rows, q, limits, 0);
    var s := Selection(rows, q);
    assert s[0..] == s;
    assert Eligible(q, row) by { AskedIsEligible(q, row); }
    k := EachIntervalOnce(rows, q, row);
    forall j | 0 <= j < |s| && j != k ensures s[j].result.t0 != row.result.t0 || s[j].result.t1 != row.result.t1 {
      ShownAreAsked(rows, q, s[j]);
    }
  }

  lemma AskedIsEligible(q: Query, row: Row)
    ensures Asked(q, row) <==> Eligible(q, row)
  {
  }

  // -------------------------------------------------------------- refusals

  predicate KnownAccount(account: string) {
    account == "ria" || account == "isa" || account == "brokerage" || account == "irp" || account == "pension"
  }

  predicate IsCode(currency: string) {
    |currency| == 3 && 'A' <= currency[0] <= 'Z' && 'A' <= currency[1] <= 'Z' && 'A' <= currency[2] <= 'Z'
  }

  /** In order, not beyond the cutoff, and at most 31 days of microseconds. */
  predicate Spans(q: Query) {
    q.start <= q.end && q.end <= q.cutoff && q.end <= q.start + 2_678_400_000_000
  }

  /** No cursor, or one issued for these rows that leaves something to show. */
  predicate Resumes(q: Query, selection: seq<Row>) {
    || q.cursor.None?
    || (&& q.cursor.value.At? && q.cursor.value.offset > 0 && q.cursor.value.offset < |selection|
        && q.cursor.value.snapshot == Binding(q.account, q.currency, q.start, q.end, q.cutoff, References(selection)))
  }

  /** Where the page begins. */
  function From(q: Query): int {
    match q.cursor
    case Some(At(_, offset)) => offset
    case _ => 0
  }

  /** The page is the next `limit` rows of the selection, and has a cursor exactly when some are left. */
  predicate IsPage(q: Query, selection: seq<Row>, page: Page) {
    var from, shown := From(q), |page.data|;
    && 0 <= from && from + shown <= |selection| && page.data == selection[from..from + shown]
    && (shown == q.limit || from + shown == |selection|) && shown <= q.limit
    && (page.next.None? <==> from + shown == |selection|)
    && (page.next.Some? ==>
          page.next == Some(At(Binding(q.account, q.currency, q.start, q.end, q.cutoff, References(selection)), from + shown)))
  }

  /** What a query is answered, case by case in order. */
  lemma AnswersExactly(rows: seq<Row>, q: Query)
    ensures var answer, selection := Preview(rows, q), Selection(rows, q);
            if !KnownAccount(q.account) || !IsCode(q.currency) then answer == Err(InvalidScope)
            else if !Spans(q) then answer == Err(InvalidRange)
            else if q.limit < 1 || q.limit > 100 then answer == Err(InvalidLimit)
            else if !Resumes(q, selection) then answer == Err(InvalidCursor)
            else answer.Ok? && IsPage(q, selection, answer.value)
  {
    hide Selection, References;
    assert InScope(q.account, q.currency) <==> KnownAccount(q.account) && IsCode(q.currency);
    assert RangeOk(q) <==> Spans(q);
    assert CursorOk(q, Selection(rows, q)) <==> Resumes(q, Selection(rows, q));
    hide InScope, RangeOk, KnownAccount, IsCode, Spans;
  }

  // ------------------------------------------------------------ the history

  /** No inputs are evaluated twice for an interval. */
  ghost predicate InputsDiffer(rows: seq<Row>) {
    forall i, j :: 0 <= i < j < |rows| && IntervalOf(rows[i].result) == IntervalOf(rows[j].result) ==>
      rows[i].result.inputHash != rows[j].result.inputHash
  }

  /**
   Appending records the inputs of an interval once: the row returned is in the history and carries
   them, and the history grows by one exactly when they were not there.
   */
  lemma AppendRecordsOnce(rows: seq<Row>, result: Evaluation, rows': seq<Row>, row: Row)
    requires InputsDiffer(rows) && Appended(rows, result, rows', row)
    ensures InputsDiffer(rows') && row in rows'
    ensures IntervalOf(row.result) == IntervalOf(result) && row.result.inputHash == result.inputHash
    ensures rows' == rows || (rows' == rows + [row] && row.result == result)
    ensures rows' == rows <==>
              exists i :: 0 <= i < |rows| && IntervalOf(rows[i].result) == IntervalOf(result)
                          && rows[i].result.inputHash == result.inputHash
  {
    var interval := IntervalOf(result);
    forall known ensures known in Matching(rows, interval) <==> known in rows && IntervalOf(known.result) == interval {
      MatchingMember(rows, interval, known);
    }
    hide Matching;
    if rows' == rows + [row] && rows' != rows {
      forall i | 0 <= i < |rows| && IntervalOf(rows[i].result) == interval
        ensures rows[i].result.inputHash != result.inputHash
      {
        assert rows[i] in Matching(rows, interval);
      }
    }
  }
}
