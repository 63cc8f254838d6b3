/** The two queries of `showFeedbacks`: the parameterised page fetch, built
    clause by clause with numbered placeholders, and the count over the same
    filters with the values written inline. */
module SqlQuery {
  import opened Wrappers
  import opened Text
  import opened Feedback
  import opened Listing

  /** A bound query parameter. */
  datatype Param = TextParam(text: string) | TimeParam(time: int) | IntParam(n: int)

  datatype Column = FeedbackTypeColumn | CreatedAtColumn
  datatype Op = Eq | AtLeast | AtMost

  /** `column op $slot`, with `slot` the 1-based number of its parameter. */
  datatype Clause = Clause(column: Column, op: Op, slot: nat)

  /** The fetch query: its SQL text, its parameters, and the structure of its
      WHERE clause and LIMIT/OFFSET slots. */
  datatype FetchQuery = FetchQuery(
    sql: string,
    params: seq<Param>,
    clauses: seq<Clause>,
    limitSlot: nat,
    offsetSlot: nat)

  /** A fetch query under construction: `query` after its fixed start
      `SELECT_ALL`, `queryParams` and `paramIndex` as the builder keeps
      them. */
  datatype Draft = Draft(sql: string, params: seq<Param>, clauses: seq<Clause>, paramIndex: nat)

  function ColumnName(c: Column): string
  {
    match c
    case FeedbackTypeColumn => "feedback_type"
    case CreatedAtColumn => "created_at"
  }

  function OpText(op: Op): string
  {
    match op
    case Eq => "="
    case AtLeast => ">="
    case AtMost => "<="
  }

  /** The numbers of the `$n` placeholders of `sql`, in order of appearance. */
  function Placeholders(sql: string): seq<nat>
    decreases |sql|
  {
    if |sql| == 0 then []
    else if sql[0] == '$' && |sql| > 1 && IsDigit(sql[1]) then
      var digits := DigitRun(sql[1..]);
      [DigitsValue(digits)] + Placeholders(sql[1 + |digits|..])
    else Placeholders(sql[1..])
  }

  /** `[1, 2, ..., n]`. */
  function Upto(n: nat): (r: seq<nat>)
    ensures |r| == n
    ensures forall i :: 0 <= i < n ==> r[i] == i + 1
  {
    if n == 0 then [] else Upto(n - 1) + [n]
  }

  lemma {:induction false} PlaceholdersAppend(a: string, b: string)
    requires |b| == 0 || !IsDigit(b[0])
    ensures Placeholders(a + b) == Placeholders(a) + Placeholders(b)
    decreases |a|, 1
  {
    if |a| == 0 {
      assert a + b == b;
    } else if a[0] == '$' && |a| > 1 && IsDigit(a[1]) {
      AppendAtNumber(a, b);
    } else {
      AppendElsewhere(a, b);
    }
  }

  lemma {:induction false} AppendAtNumber(a: string, b: string)
    requires |b| == 0 || !IsDigit(b[0])
    requires |a| > 1 && a[0] == '$' && IsDigit(a[1])
    ensures Placeholders(a + b) == Placeholders(a) + Placeholders(b)
    decreases |a|, 0
  {
    var digits := DigitRun(a[1..]);
    var rest := a[1 + |digits|..];
    PlaceholdersAppend(rest, b);
    PlaceholdersAppendNumber(a, b, digits, rest);
    PlaceholdersAtNumber(a);
    ConsAssoc(DigitsValue(digits), Placeholders(rest), Placeholders(b));
  }

  lemma {:induction false} ConsAssoc(v: nat, x: seq<nat>, y: seq<nat>)
    ensures [v] + (x + y) == ([v] + x) + y
  {
  }

  lemma {:induction false} AppendElsewhere(a: string, b: string)
    requires |b| == 0 || !IsDigit(b[0])
    requires |a| > 0 && !(a[0] == '$' && |a| > 1 && IsDigit(a[1]))
    ensures Placeholders(a + b) == Placeholders(a) + Placeholders(b)
    decreases |a|, 0
  {
    assert (a + b)[1..] == a[1..] + b;
    PlaceholdersAppend(a[1..], b);
    PlaceholdersElsewhere(a);
    PlaceholdersElsewhere(a + b);
  }

  lemma {:induction false} PlaceholdersAppendNumber(a: string, b: string, digits: string, rest: string)
    requires |b| == 0 || !IsDigit(b[0])
    requires |a| > 1 && a[0] == '$' && IsDigit(a[1])
    requires digits == DigitRun(a[1..]) && rest == a[1 + |digits|..]
    ensures Placeholders(a + b) == [DigitsValue(digits)] + Placeholders(rest + b)
  {
    var ab := a + b;
    assert ab[0] == '$' && |ab| > 1 && IsDigit(ab[1]);
    assert ab[1..] == a[1..] + b;
    DigitRunAppend(a[1..], b);
    assert ab[1 + |digits|..] == rest + b;
    PlaceholdersAtNumber(ab);
  }

  /** One step of the scan at a `$` followed by a digit. */
  lemma {:induction false} PlaceholdersAtNumber(s: string)
    requires |s| > 1 && s[0] == '$' && IsDigit(s[1])
    ensures Placeholders(s) == [DigitsValue(DigitRun(s[1..]))] + Placeholders(s[1 + |DigitRun(s[1..])|..])
  {
  }

  /** One step of the scan anywhere else. */
  lemma {:induction false} PlaceholdersElsewhere(s: string)
    requires |s| > 0 && !(s[0] == '$' && |s| > 1 && IsDigit(s[1]))
    ensures Placeholders(s) == Placeholders(s[1..])
  {
  }

  lemma {:induction false} PlaceholdersOfPlain(a: string, b: string)
    requires '$' !in a
    ensures Placeholders(a + b) == Placeholders(b)
    decreases |a|
  {
    if |a| == 0 {
      assert a + b == b;
    } else {
      assert (a + b)[1..] == a[1..] + b;
      PlaceholdersOfPlain(a[1..], b);
    }
  }

  /** A literal without `$` followed by `$n` holds exactly the placeholder `n`. */
  lemma {:induction false} PlaceholderPiece(literal: string, n: nat)
    requires '$' !in literal
    ensures Placeholders(literal + "$" + NatToString(n)) == [n]
  {
    var digits := NatToString(n);
    PlaceholdersOfPlain(literal, "$" + digits);
    assert literal + "$" + digits == literal + ("$" + digits);
    DigitRunOfDigits(digits);
    assert ("$" + digits)[1..] == digits;
    assert ("$" + digits)[1 + |digits|..] == "";
  }

  /** The builder's bookkeeping: `paramIndex` is one past the number of
      parameters, the SQL text so far holds the placeholders `$1..$k` for the
      `k` parameters, and every clause names the parameter pushed with it. */
  ghost predicate DraftOk(d: Draft) {
    && d.paramIndex == |d.params| + 1
    && Placeholders(d.sql) == Upto(|d.params|)
    && |d.clauses| == |d.params|
    && (forall i :: 0 <= i < |d.clauses| ==> d.clauses[i].slot == i + 1)
  }

  /** The text of one clause, up to its placeholder. */
  function ClausePrefix(column: Column, op: Op): (literal: string)
    ensures '$' !in literal && |literal| > 0 && literal[0] == ' '
  {
    " AND " + ColumnName(column) + " " + OpText(op) + " "
  }

  /** `query += " AND column op $" + paramIndex++; queryParams.push(p)`. */
  function AddClause(d: Draft, column: Column, op: Op, p: Param): (r: Draft)
    requires DraftOk(d)
    ensures DraftOk(r)
    ensures r.params == d.params + [p]
    ensures r.clauses == d.clauses + [Clause(column, op, |d.params| + 1)]
  {
    var piece := ClausePrefix(column, op) + "$" + NatToString(d.paramIndex);
    AddPieceOk(d.sql, ClausePrefix(column, op), d.paramIndex);
    Draft(d.sql + piece, d.params + [p], d.clauses + [Clause(column, op, d.paramIndex)], d.paramIndex + 1)
  }

  /** Appending a literal that starts with a space and then `$n` adds exactly
      the placeholder `n`. */
  lemma {:induction false} AddPieceOk(sql: string, literal: string, n: nat)
    requires '$' !in literal && |literal| > 0 && literal[0] == ' '
    ensures Placeholders(sql + (literal + "$" + NatToString(n))) == Placeholders(sql) + [n]
  {
    PlaceholdersAppend(sql, literal + "$" + NatToString(n));
    PlaceholderPiece(literal, n);
  }

  const SELECT_ALL: string := "SELECT * FROM feedbacks WHERE 1=1"

  /** The number of filters that are active. */
  function ActiveCount(f: Filter): nat
  {
    (if f.feedbackType != "" then 1 else 0)
    + (if f.start.Some? then 1 else 0)
    + (if f.end.Some? then 1 else 0)
  }

  /** `let query = 'SELECT * FROM feedbacks WHERE 1=1'; let queryParams = [];
      let paramIndex = 1;` — nothing yet after the fixed start. */
  function InitialDraft(): (d: Draft)
    ensures DraftOk(d) && |d.params| == 0
  {
    Draft("", [], [], 1)
  }

  /** The fixed start of the query holds no placeholder. */
  lemma {:induction false} FixedStart(rest: string)
    ensures Placeholders(SELECT_ALL + rest) == Placeholders(rest)
  {
    PlaceholdersOfPlain(SELECT_ALL, rest);
  }

  /** The type clause, when the type filter is set. */
  function WithType(d: Draft, f: Filter): (r: Draft)
    requires DraftOk(d)
    ensures DraftOk(r)
    ensures r.params == d.params + (if f.feedbackType != "" then [TextParam(f.feedbackType)] else [])
    ensures r.clauses == d.clauses + (if f.feedbackType != "" then [Clause(FeedbackTypeColumn, Eq, |d.params| + 1)] else [])
  {
    if f.feedbackType != "" then AddClause(d, FeedbackTypeColumn, Eq, TextParam(f.feedbackType)) else d
  }

  /** The `created_at >=` clause, when the start bound is set. */
  function WithStart(d: Draft, f: Filter): (r: Draft)
    requires DraftOk(d)
    ensures DraftOk(r)
    ensures r.params == d.params + (if f.start.Some? then [TimeParam(f.start.value)] else [])
    ensures r.clauses == d.clauses + (if f.start.Some? then [Clause(CreatedAtColumn, AtLeast, |d.params| + 1)] else [])
  {
    if f.start.Some? then AddClause(d, CreatedAtColumn, AtLeast, TimeParam(f.start.value)) else d
  }

  /** The `created_at <=` clause, when the end bound is set. */
  function WithEnd(d: Draft, f: Filter): (r: Draft)
    requires DraftOk(d)
    ensures DraftOk(r)
    ensures r.params == d.params + (if f.end.Some? then [TimeParam(f.end.value)] else [])
    ensures r.clauses == d.clauses + (if f.end.Some? then [Clause(CreatedAtColumn, AtMost, |d.params| + 1)] else [])
  {
    if f.end.Some? then AddClause(d, CreatedAtColumn, AtMost, TimeParam(f.end.value)) else d
  }

  /** The filter clauses, in the builder's order: type, start, end. */
  function FilterDraft(f: Filter): (d: Draft)
    ensures DraftOk(d)
    ensures |d.params| == ActiveCount(f)
  {
    WithEnd(WithStart(WithType(InitialDraft(), f), f), f)
  }

  /** The page fetch: the filter clauses, then
      `ORDER BY created_at DESC LIMIT $k OFFSET $k+1` bound to `PAGE_SIZE` and
      the page's offset. Its placeholders are exactly `$1..$n` in order with
      `n` the number of parameters, and its clauses name their parameters. */
  function BuildFetch(page: int, f: Filter): (q: FetchQuery)
    ensures Placeholders(q.sql) == Upto(|q.params|)
    ensures |q.params| == ActiveCount(f) + 2
    ensures q.limitSlot == |q.params| - 1 && q.params[q.limitSlot - 1] == IntParam(PAGE_SIZE)
    ensures q.offsetSlot == |q.params| && q.params[q.offsetSlot - 1] == IntParam(PageOffset(page))
    ensures |q.clauses| == ActiveCount(f)
    ensures forall i :: 0 <= i < |q.clauses| ==> q.clauses[i].slot == i + 1
  {
    var d := FilterDraft(f);
    var k := d.paramIndex;
    var tail := d.sql + (ORDER_LIMIT + "$" + NatToString(k)) + (OFFSET + "$" + NatToString(k + 1));
    PagingPlaceholders(d.sql, |d.params|);
    FixedStart(tail);
    FetchQuery(SELECT_ALL + tail, d.params + [IntParam(PAGE_SIZE), IntParam(PageOffset(page))], d.clauses, k, k + 1)
  }

  /** The LIMIT and OFFSET placeholders continue the numbering. */
  lemma {:induction false} PagingPlaceholders(sql: string, n: nat)
    requires Placeholders(sql) == Upto(n)
    ensures Placeholders(sql + (ORDER_LIMIT + "$" + NatToString(n + 1)) + (OFFSET + "$" + NatToString(n + 2)))
            == Upto(n + 2)
  {
    var limited := sql + (ORDER_LIMIT + "$" + NatToString(n + 1));
    AddPieceOk(sql, ORDER_LIMIT, n + 1);
    AddPieceOk(limited, OFFSET, n + 2);
  }

  const ORDER_LIMIT: string := " ORDER BY created_at DESC LIMIT "
  const OFFSET: string := " OFFSET "

  /** Whether a row satisfies one clause under the bound parameters. */
  predicate ClauseHolds(c: Clause, params: seq<Param>, e: Entry) {
    1 <= c.slot <= |params| &&
    match (c.column, c.op, params[c.slot - 1])
    case (FeedbackTypeColumn, Eq, TextParam(s)) => e.feedbackType == s
    case (CreatedAtColumn, AtLeast, TimeParam(t)) => e.createdAt >= t
    case (CreatedAtColumn, AtMost, TimeParam(t)) => e.createdAt <= t
    case _ => false
  }

  /** The WHERE clause of the fetch: `1=1` and every clause. */
  predicate RowSatisfies(q: FetchQuery, e: Entry) {
    AllHold(q.clauses, q.params, e)
  }

  /** `RowSatisfies(q, ·)` as a value. */
  function Satisfying(q: FetchQuery): Entry -> bool
  {
    e => RowSatisfies(q, e)
  }

  /** Every clause of `clauses` holds under `params`. */
  predicate AllHold(clauses: seq<Clause>, params: seq<Param>, e: Entry) {
    forall i :: 0 <= i < |clauses| ==> ClauseHolds(clauses[i], params, e)
  }

  /** Binding more parameters after the ones the clauses name changes nothing. */
  lemma {:induction false} AllHoldExtended(clauses: seq<Clause>, params: seq<Param>, extra: seq<Param>, e: Entry)
    requires forall i :: 0 <= i < |clauses| ==> clauses[i].slot <= |params|
    ensures AllHold(clauses, params + extra, e) <==> AllHold(clauses, params, e)
  {
    forall i | 0 <= i < |clauses|
      ensures ClauseHolds(clauses[i], params + extra, e) <==> ClauseHolds(clauses[i], params, e)
    {
      var c := clauses[i];
      if 1 <= c.slot {
        assert (params + extra)[c.slot - 1] == params[c.slot - 1];
      }
    }
  }

  /** One more clause narrows the accepted rows by exactly that clause. */
  lemma {:induction false} AddClauseMeaning(d: Draft, column: Column, op: Op, p: Param, e: Entry)
    requires DraftOk(d)
    ensures AllHold(AddClause(d, column, op, p).clauses, AddClause(d, column, op, p).params, e)
            <==> AllHold(d.clauses, d.params, e) && ClauseHolds(Clause(column, op, |d.params| + 1), d.params + [p], e)
  {
    var r := AddClause(d, column, op, p);
    AllHoldExtended(d.clauses, d.params, [p], e);
    assert forall i :: 0 <= i < |d.clauses| ==> r.clauses[i] == d.clauses[i];
    assert r.clauses[|d.clauses|] == Clause(column, op, |d.params| + 1);
  }

  lemma {:induction false} WithTypeMeaning(d: Draft, f: Filter, e: Entry)
    requires DraftOk(d)
    ensures AllHold(WithType(d, f).clauses, WithType(d, f).params, e)
            <==> AllHold(d.clauses, d.params, e) && (f.feedbackType == "" || e.feedbackType == f.feedbackType)
  {
    if f.feedbackType != "" {
      AddClauseMeaning(d, FeedbackTypeColumn, Eq, TextParam(f.feedbackType), e);
    }
  }

  lemma {:induction false} WithStartMeaning(d: Draft, f: Filter, e: Entry)
    requires DraftOk(d)
    ensures AllHold(WithStart(d, f).clauses, WithStart(d, f).params, e)
            <==> AllHold(d.clauses, d.params, e) && (f.start.None? || e.createdAt >= f.start.value)
  {
    if f.start.Some? {
      AddClauseMeaning(d, CreatedAtColumn, AtLeast, TimeParam(f.start.value), e);
    }
  }

  lemma {:induction false} WithEndMeaning(d: Draft, f: Filter, e: Entry)
    requires DraftOk(d)
    ensures AllHold(WithEnd(d, f).clauses, WithEnd(d, f).params, e)
            <==> AllHold(d.clauses, d.params, e) && (f.end.None? || e.createdAt <= f.end.value)
  {
    if f.end.Some? {
      AddClauseMeaning(d, CreatedAtColumn, AtMost, TimeParam(f.end.value), e);
    }
  }

  /** The fetch's WHERE clause accepts a row exactly when the row matches the
      filters it was built from, on every page. */
  lemma {:induction false} FetchMeansFilter(page: int, f: Filter, e: Entry)
    ensures RowSatisfies(BuildFetch(page, f), e) <==> Matches(f, e)
  {
    var q := BuildFetch(page, f);
    var d0 := InitialDraft();
    var d1 := WithType(d0, f);
    var d2 := WithStart(d1, f);
    var d3 := WithEnd(d2, f);
    WithTypeMeaning(d0, f, e);
    WithStartMeaning(d1, f, e);
    WithEndMeaning(d2, f, e);
    AllHoldExtended(d3.clauses, d3.params, [IntParam(PAGE_SIZE), IntParam(PageOffset(page))], e);
  }

  /** The largest value of PostgreSQL's `bigint`, the type of LIMIT and
      OFFSET. */
  const BIGINT_MAX: int := 0x7FFF_FFFF_FFFF_FFFF

  /** The last page whose OFFSET still fits in a `bigint`. */
  const MAX_PAGE: int := 922_337_203_685_477_581

  /** Page `page`'s offset fits in a `bigint` exactly up to `MAX_PAGE`. */
  lemma {:induction false} OffsetFits(page: int)
    ensures PageOffset(page) <= BIGINT_MAX <==> page <= MAX_PAGE
  {
    if page <= MAX_PAGE {
      assert PageOffset(page) <= PageOffset(MAX_PAGE);
    } else {
      assert PageOffset(page) >= PageOffset(MAX_PAGE + 1);
    }
  }

  /** The LIMIT and OFFSET placeholders name integer parameters that are
      neither negative nor beyond the `bigint` range. */
  predicate PagingInRange(q: FetchQuery) {
    && 1 <= q.limitSlot <= |q.params| && 1 <= q.offsetSlot <= |q.params|
    && q.params[q.limitSlot - 1].IntParam? && q.params[q.offsetSlot - 1].IntParam?
    && 0 <= q.params[q.limitSlot - 1].n <= BIGINT_MAX
    && 0 <= q.params[q.offsetSlot - 1].n <= BIGINT_MAX
  }

  /** Runs the fetch as PostgreSQL would: the clauses select rows, which are
      ordered newest first and windowed by the LIMIT and OFFSET parameters; a
      LIMIT or OFFSET outside the `bigint` range, or a negative one, is an
      error. */
  function RunFetch(q: FetchQuery, store: seq<Entry>): (r: Result<seq<Entry>>)
    ensures r.Ok? ==> 1 <= q.limitSlot <= |q.params| && q.params[q.limitSlot - 1].IntParam?
                      && |r.value| <= q.params[q.limitSlot - 1].n
    ensures r.Ok? ==> forall i :: 0 <= i < |r.value| ==> RowSatisfies(q, r.value[i])
    ensures r.Ok? ==> NewestFirst(r.value) && multiset(r.value) <= multiset(store)
  {
    if !(1 <= q.limitSlot <= |q.params| && 1 <= q.offsetSlot <= |q.params|) then Err("there is no parameter $n")
    else match (q.params[q.limitSlot - 1], q.params[q.offsetSlot - 1])
      case (IntParam(limit), IntParam(offset)) =>
        if limit > BIGINT_MAX || offset > BIGINT_MAX then Err("value is out of range for type bigint")
        else if limit < 0 then Err("LIMIT must not be negative")
        else if offset < 0 then Err("OFFSET must not be negative")
        else
          var selected := Select(store, Satisfying(q));
          SortedWindow(selected, Satisfying(q), limit, offset);
          Ok(Window(SortNewestFirst(selected), limit, offset))
      case _ => Err("invalid input syntax for type bigint")
  }

  /** A fetch succeeds exactly when its LIMIT and OFFSET name integer
      parameters in the `bigint` range that are not negative. */
  lemma {:induction false} FetchFails(q: FetchQuery, store: seq<Entry>)
    ensures RunFetch(q, store).Ok? <==> PagingInRange(q)
  {
  }

  /** The fetch of page `page` fails exactly when its offset is negative or
      too large for a `bigint`, and otherwise returns the matching rows,
      newest first, after skipping `(page - 1) * PAGE_SIZE` of them. */
  lemma {:induction false} FetchPage(page: int, f: Filter, store: seq<Entry>)
    ensures RunFetch(BuildFetch(page, f), store).Err? <==> page < 1 || page > MAX_PAGE
    ensures 1 <= page <= MAX_PAGE ==>
      RunFetch(BuildFetch(page, f), store)
        == Ok(Window(SortNewestFirst(Matching(store, f)), PAGE_SIZE, PageOffset(page)))
  {
    var q := BuildFetch(page, f);
    OffsetFits(page);
    forall e: Entry ensures Satisfying(q)(e) == MatchesOf(f)(e) {
      FetchMeansFilter(page, f, e);
    }
    SelectSameRows(store, Satisfying(q), MatchesOf(f));
  }

  /** One inline condition of the count query, its value written into the
      SQL text: `feedback_type = '...'`, `created_at >= '...'`,
      `created_at <= '...'`. */
  datatype Literal = Literal(column: Column, op: Op, value: Param)

  /** The count query's conditions, in the order they are appended. */
  function CountConditions(f: Filter): seq<Literal>
  {
    (if f.feedbackType != "" then [Literal(FeedbackTypeColumn, Eq, TextParam(f.feedbackType))] else [])
    + (if f.start.Some? then [Literal(CreatedAtColumn, AtLeast, TimeParam(f.start.value))] else [])
    + (if f.end.Some? then [Literal(CreatedAtColumn, AtMost, TimeParam(f.end.value))] else [])
  }

  predicate LiteralHolds(c: Literal, e: Entry) {
    match (c.column, c.op, c.value)
    case (FeedbackTypeColumn, Eq, TextParam(s)) => e.feedbackType == s
    case (CreatedAtColumn, AtLeast, TimeParam(t)) => e.createdAt >= t
    case (CreatedAtColumn, AtMost, TimeParam(t)) => e.createdAt <= t
    case _ => false
  }

  predicate CountAccepts(conditions: seq<Literal>, e: Entry) {
    forall i :: 0 <= i < |conditions| ==> LiteralHolds(conditions[i], e)
  }

  /** `CountAccepts(conditions, ·)` as a value. */
  function CountAccepting(conditions: seq<Literal>): Entry -> bool
  {
    e => CountAccepts(conditions, e)
  }

  lemma {:induction false} SingleAccepts(c: Literal, e: Entry)
    ensures CountAccepts([c], e) <==> LiteralHolds(c, e)
  {
    assert [c][0] == c;
  }

  lemma {:induction false} CountAcceptsAppend(a: seq<Literal>, b: seq<Literal>, e: Entry)
    ensures CountAccepts(a + b, e) <==> CountAccepts(a, e) && CountAccepts(b, e)
  {
    assert forall i :: 0 <= i < |a| ==> (a + b)[i] == a[i];
    assert forall i :: 0 <= i < |b| ==> (a + b)[|a| + i] == b[i];
  }

  /** `SELECT COUNT(*) FROM feedbacks WHERE 1=1 AND ...`. */
  function RunCount(conditions: seq<Literal>, store: seq<Entry>): (n: nat)
    ensures n <= |store|
    ensures n == 0 <==> forall i :: 0 <= i < |store| ==> !CountAccepts(conditions, store[i])
    ensures (forall i :: 0 <= i < |store| ==> CountAccepts(conditions, store[i])) ==> n == |store|
  {
    var keep := CountAccepting(conditions);
    var rows := Select(store, keep);
    SelectExact(store, keep);
    assert |rows| > 0 ==> rows[0] in multiset(store);
    assert (forall i :: 0 <= i < |store| ==> keep(store[i])) ==> |rows| == |store| by {
      if forall i :: 0 <= i < |store| ==> keep(store[i]) {
        assert forall e :: e in multiset(store) ==> keep(e);
        assert multiset(rows) == multiset(store);
        assert |multiset(rows)| == |multiset(store)|;
      }
    }
    |rows|
  }

  /** The count query accepts a row exactly when the fetch query of any page
      does: the two queries stay in lock-step, so the count is the number of
      rows the fetch pages through. */
  lemma {:induction false} CountMatchesFetch(page: int, f: Filter, store: seq<Entry>)
    ensures forall e :: CountAccepts(CountConditions(f), e) <==> RowSatisfies(BuildFetch(page, f), e)
    ensures RunCount(CountConditions(f), store) == |Matching(store, f)|
  {
    var cs := CountConditions(f);
    forall e: Entry ensures CountAccepts(cs, e) <==> Matches(f, e) {
      var t := if f.feedbackType != "" then [Literal(FeedbackTypeColumn, Eq, TextParam(f.feedbackType))] else [];
      var st := if f.start.Some? then [Literal(CreatedAtColumn, AtLeast, TimeParam(f.start.value))] else [];
      var en := if f.end.Some? then [Literal(CreatedAtColumn, AtMost, TimeParam(f.end.value))] else [];
      assert cs == t + st + en;
      CountAcceptsAppend(t, st, e);
      CountAcceptsAppend(t + st, en, e);
      if f.feedbackType != "" {
        SingleAccepts(Literal(FeedbackTypeColumn, Eq, TextParam(f.feedbackType)), e);
      }
      if f.start.Some? {
        SingleAccepts(Literal(CreatedAtColumn, AtLeast, TimeParam(f.start.value)), e);
      }
      if f.end.Some? {
        SingleAccepts(Literal(CreatedAtColumn, AtMost, TimeParam(f.end.value)), e);
      }
    }
    forall e: Entry ensures CountAccepts(cs, e) <==> RowSatisfies(BuildFetch(page, f), e) {
      FetchMeansFilter(page, f, e);
    }
    SelectSameRows(store, CountAccepting(cs), MatchesOf(f));
  }
}
