/**
 The paged, filtered transaction query: filters compiled to numbered
 placeholders, the page that is fetched, and the walk over all pages.
 */
module Query {
  import opened Common

  /** Upper-casing of text and parsing of RFC 3339 times, as the runtime does them. */
  datatype Runtime = Runtime(upper: string -> string, parseTime: string -> Option<int>)

  datatype Filters = Filters(status: string, startDate: string, endDate: string)

  datatype Row = Row(id: string, owner: int, status: string, createdAt: int)

  // ---------- Pagination parameters ----------

  const DEFAULT_PAGE_LIMIT := 20
  const MAX_PAGE_LIMIT := 100

  /** `p` and `l` are the two query parameters where they are integers. */
  method ParsePagination(p: Option<int>, l: Option<int>) returns (page: int, limit: int)
    ensures page >= 1 && 1 <= limit <= 100
    ensures p.Some? && p.value >= 1 ==> page == p.value
    ensures p.None? || p.value < 1 ==> page == 1
    ensures l.Some? && 1 <= l.value <= 100 ==> limit == l.value
    ensures l.Some? && l.value > 100 ==> limit == 100
    ensures l.None? || l.value < 1 ==> limit == 20
  {
    page := 1;
    limit := DEFAULT_PAGE_LIMIT;
    if p.Some? && p.value > 0 {
      page := p.value;
    }
    if l.Some? && l.value > 0 {
      var n := l.value;
      if n > MAX_PAGE_LIMIT {
        n := MAX_PAGE_LIMIT;
      }
      limit := n;
    }
  }

  // ---------- Filters ----------

  const ALLOWED_STATUSES := {"PENDING", "SUCCESS", "COMPLETED", "FAILED", "REVERSED"}

  datatype Arg = Number(n: int) | Text(s: string) | Time(t: int)

  /** A comparison of a column with the argument of a numbered placeholder. */
  datatype Clause =
    | OwnerIs(placeholder: nat)
    | StatusIs(placeholder: nat)
    | CreatedFrom(placeholder: nat)
    | CreatedUntil(placeholder: nat)

  function StatusFilter(rt: Runtime, f: Filters): Option<string> {
    if f.status != "" && rt.upper(f.status) in ALLOWED_STATUSES then Some(rt.upper(f.status)) else None
  }

  function TimeFilter(rt: Runtime, s: string): Option<int> {
    if s != "" then rt.parseTime(s) else None
  }

  predicate StatusMatches(rt: Runtime, f: Filters, row: Row) {
    StatusFilter(rt, f).Some? ==> row.status == StatusFilter(rt, f).value
  }

  predicate FromMatches(rt: Runtime, f: Filters, row: Row) {
    TimeFilter(rt, f.startDate).Some? ==> row.createdAt >= TimeFilter(rt, f.startDate).value
  }

  predicate UntilMatches(rt: Runtime, f: Filters, row: Row) {
    TimeFilter(rt, f.endDate).Some? ==> row.createdAt <= TimeFilter(rt, f.endDate).value
  }

  /** The filters as a direct predicate: an absent or unreadable filter selects everything. */
  predicate FiltersMatch(rt: Runtime, f: Filters, row: Row) {
    StatusMatches(rt, f, row) && FromMatches(rt, f, row) && UntilMatches(rt, f, row)
  }

  predicate Matches(rt: Runtime, owner: int, f: Filters, row: Row) {
    row.owner == owner && FiltersMatch(rt, f, row)
  }

  /** What a row must be to be selected: the owner's, and inside each filter that is present and readable. */
  lemma MatchesExactly(rt: Runtime, owner: int, f: Filters, row: Row)
    ensures Matches(rt, owner, f, row)
            <==> && row.owner == owner
                 && (f.status != "" && rt.upper(f.status) in {"PENDING", "SUCCESS", "COMPLETED", "FAILED", "REVERSED"}
                     ==> row.status == rt.upper(f.status))
                 && (f.startDate != "" && rt.parseTime(f.startDate).Some?
                     ==> rt.parseTime(f.startDate).value <= row.createdAt)
                 && (f.endDate != "" && rt.parseTime(f.endDate).Some?
                     ==> row.createdAt <= rt.parseTime(f.endDate).value)
  {
  }

  /** `$n` denotes the n-th argument; a missing or wrongly typed one selects nothing. */
  predicate Holds(c: Clause, args: seq<Arg>, row: Row) {
    && 1 <= c.placeholder <= |args|
    && match c
       case OwnerIs(n) => args[n - 1] == Number(row.owner)
       case StatusIs(n) => args[n - 1] == Text(row.status)
       case CreatedFrom(n) => args[n - 1].Time? && row.createdAt >= args[n - 1].t
       case CreatedUntil(n) => args[n - 1].Time? && row.createdAt <= args[n - 1].t
  }

  predicate AllHold(clauses: seq<Clause>, args: seq<Arg>, row: Row) {
    forall i :: 0 <= i < |clauses| ==> Holds(clauses[i], args, row)
  }

  /** Consecutive placeholders from `first` on. */
  predicate Numbered(clauses: seq<Clause>, first: nat) {
    forall i :: 0 <= i < |clauses| ==> clauses[i].placeholder == first + i
  }

  function StatusArgs(rt: Runtime, f: Filters): seq<Arg> {
    match StatusFilter(rt, f)
    case None => []
    case Some(status) => [Text(status)]
  }

  function TimeArgs(rt: Runtime, s: string): seq<Arg> {
    match TimeFilter(rt, s)
    case None => []
    case Some(t) => [Time(t)]
  }

  function FilterArgs(rt: Runtime, f: Filters): (args: seq<Arg>)
    ensures |args| <= 3
  {
    StatusArgs(rt, f) + TimeArgs(rt, f.startDate) + TimeArgs(rt, f.endDate)
  }

  function StatusClauses(rt: Runtime, f: Filters, at: nat): seq<Clause> {
    if StatusFilter(rt, f).Some? then [StatusIs(at)] else []
  }

  function FromClauses(rt: Runtime, f: Filters, at: nat): seq<Clause> {
    if TimeFilter(rt, f.startDate).Some? then [CreatedFrom(at)] else []
  }

  function UntilClauses(rt: Runtime, f: Filters, at: nat): seq<Clause> {
    if TimeFilter(rt, f.endDate).Some? then [CreatedUntil(at)] else []
  }

  function FilterClauses(rt: Runtime, first: nat, f: Filters): (clauses: seq<Clause>)
    ensures |clauses| == |FilterArgs(rt, f)| && Numbered(clauses, first)
  {
    var second := first + |StatusArgs(rt, f)|;
    var third := second + |TimeArgs(rt, f.startDate)|;
    StatusClauses(rt, f, first) + FromClauses(rt, f, second) + UntilClauses(rt, f, third)
  }

  method BuildFilterClauses(rt: Runtime, first: nat, f: Filters) returns (clauses: seq<Clause>, args: seq<Arg>)
    requires first >= 1
    ensures clauses == FilterClauses(rt, first, f) && args == FilterArgs(rt, f)
  {
    clauses, args := [], [];
    var argIdx := first;
    if f.status != "" {
      var status := rt.upper(f.status);
      if status in ALLOWED_STATUSES {
        clauses := clauses + [StatusIs(argIdx)];
        args := args + [Text(status)];
        argIdx := argIdx + 1;
      }
    }
    if f.startDate != "" {
      var t := rt.parseTime(f.startDate);
      if t.Some? {
        clauses := clauses + [CreatedFrom(argIdx)];
        args := args + [Time(t.value)];
        argIdx := argIdx + 1;
      }
    }
    if f.endDate != "" {
      var t := rt.parseTime(f.endDate);
      if t.Some? {
        clauses := clauses + [CreatedUntil(argIdx)];
        args := args + [Time(t.value)];
      }
    }
  }

  lemma AllHoldConcat(cs: seq<Clause>, ds: seq<Clause>, args: seq<Arg>, row: Row)
    ensures AllHold(cs + ds, args, row) <==> AllHold(cs, args, row) && AllHold(ds, args, row)
  {
    if AllHold(cs + ds, args, row) {
      forall i | 0 <= i < |cs| ensures Holds(cs[i], args, row) {
        assert (cs + ds)[i] == cs[i];
      }
      forall i | 0 <= i < |ds| ensures Holds(ds[i], args, row) {
        assert (cs + ds)[|cs| + i] == ds[i];
      }
    }
  }

  lemma AllHoldThree(cs: seq<Clause>, ds: seq<Clause>, es: seq<Clause>, args: seq<Arg>, row: Row)
    ensures AllHold(cs + ds + es, args, row)
            <==> AllHold(cs, args, row) && AllHold(ds, args, row) && AllHold(es, args, row)
  {
    AllHoldConcat(cs + ds, es, args, row);
    AllHoldConcat(cs, ds, args, row);
  }

  lemma AllHoldOne(c: Clause, args: seq<Arg>, row: Row)
    ensures AllHold([c], args, row) <==> Holds(c, args, row)
  {
    if AllHold([c], args, row) {
      assert [c][0] == c;
    }
  }

  /** The arguments `part` stand at the placeholders from `at` on. */
  predicate StandAt(args: seq<Arg>, at: nat, part: seq<Arg>) {
    1 <= at && at - 1 + |part| <= |args| && forall i :: 0 <= i < |part| ==> args[at - 1 + i] == part[i]
  }

  lemma StatusCompiled(rt: Runtime, f: Filters, args: seq<Arg>, at: nat, row: Row)
    requires StandAt(args, at, StatusArgs(rt, f))
    ensures AllHold(StatusClauses(rt, f, at), args, row) <==> StatusMatches(rt, f, row)
  {
    AllHoldOne(StatusIs(at), args, row);
    if StatusFilter(rt, f).Some? {
      assert args[at - 1 + 0] == StatusArgs(rt, f)[0];
    }
  }

  lemma FromCompiled(rt: Runtime, f: Filters, args: seq<Arg>, at: nat, row: Row)
    requires StandAt(args, at, TimeArgs(rt, f.startDate))
    ensures AllHold(FromClauses(rt, f, at), args, row) <==> FromMatches(rt, f, row)
  {
    AllHoldOne(CreatedFrom(at), args, row);
    if TimeFilter(rt, f.startDate).Some? {
      assert args[at - 1 + 0] == TimeArgs(rt, f.startDate)[0];
    }
  }

  lemma UntilCompiled(rt: Runtime, f: Filters, args: seq<Arg>, at: nat, row: Row)
    requires StandAt(args, at, TimeArgs(rt, f.endDate))
    ensures AllHold(UntilClauses(rt, f, at), args, row) <==> UntilMatches(rt, f, row)
  {
    AllHoldOne(CreatedUntil(at), args, row);
    if TimeFilter(rt, f.endDate).Some? {
      assert args[at - 1 + 0] == TimeArgs(rt, f.endDate)[0];
    }
  }

  lemma PartsStand(args: seq<Arg>, at: nat, a: seq<Arg>, b: seq<Arg>, c: seq<Arg>)
    requires StandAt(args, at, a + b + c)
    ensures StandAt(args, at, a) && StandAt(args, at + |a|, b) && StandAt(args, at + |a| + |b|, c)
  {
    var part := a + b + c;
    forall i | 0 <= i < |a| ensures args[at - 1 + i] == a[i] {
      assert part[i] == a[i];
    }
    forall i | 0 <= i < |b| ensures args[at + |a| - 1 + i] == b[i] {
      assert part[|a| + i] == b[i];
    }
    forall i | 0 <= i < |c| ensures args[at + |a| + |b| - 1 + i] == c[i] {
      assert part[|a| + |b| + i] == c[i];
    }
  }

  /** Wherever the filter arguments stand in the list, the compiled clauses select what the filters say. */
  lemma FiltersCompiled(rt: Runtime, f: Filters, args: seq<Arg>, at: nat, row: Row)
    requires StandAt(args, at, FilterArgs(rt, f))
    ensures AllHold(FilterClauses(rt, at, f), args, row) <==> FiltersMatch(rt, f, row)
  {
    var a, b := StatusArgs(rt, f), TimeArgs(rt, f.startDate);
    PartsStand(args, at, a, b, TimeArgs(rt, f.endDate));
    AllHoldThree(StatusClauses(rt, f, at), FromClauses(rt, f, at + |a|), UntilClauses(rt, f, at + |a| + |b|),
                 args, row);
    StatusCompiled(rt, f, args, at, row);
    FromCompiled(rt, f, args, at + |a|, row);
    UntilCompiled(rt, f, args, at + |a| + |b|, row);
  }

  // ---------- The statement ----------

  /** The condition, the placeholders of LIMIT and OFFSET, and the argument list. */
  datatype Statement = Statement(clauses: seq<Clause>, limitAt: nat, offsetAt: nat, args: seq<Arg>)

  function Compiled(rt: Runtime, owner: int, f: Filters, page: int, limit: int): Statement {
    var filterArgs := FilterArgs(rt, f);
    Statement([OwnerIs(1)] + FilterClauses(rt, 2, f), 2 + |filterArgs|, 2 + |filterArgs| + 1,
              [Number(owner)] + filterArgs + [Number(limit), Number((page - 1) * limit)])
  }

  /** The placeholders in the order in which the statement mentions them. */
  function Placeholders(s: Statement): seq<nat> {
    seq(|s.clauses|, i requires 0 <= i < |s.clauses| => s.clauses[i].placeholder) + [s.limitAt, s.offsetAt]
  }

  /** The placeholders are exactly $1 to $n, one for each argument, in order. */
  lemma PlaceholdersMatchArguments(rt: Runtime, owner: int, f: Filters, page: int, limit: int)
    ensures var s := Compiled(rt, owner, f, page, limit);
            && |Placeholders(s)| == |s.args|
            && (forall i :: 0 <= i < |s.args| ==> Placeholders(s)[i] == i + 1)
            && s.args[s.limitAt - 1] == Number(limit) && s.args[s.offsetAt - 1] == Number((page - 1) * limit)
  {
    var s := Compiled(rt, owner, f, page, limit);
    forall i | 0 <= i < |s.args| ensures Placeholders(s)[i] == i + 1 {
      if 0 < i < |s.clauses| {
        assert s.clauses[i] == FilterClauses(rt, 2, f)[i - 1];
      }
    }
  }

  /** The compiled condition selects exactly the rows of the direct predicate. */
  lemma ConditionIsFilter(rt: Runtime, owner: int, f: Filters, page: int, limit: int, row: Row)
    ensures var s := Compiled(rt, owner, f, page, limit);
            AllHold(s.clauses, s.args, row) <==> Matches(rt, owner, f, row)
  {
    var s := Compiled(rt, owner, f, page, limit);
    AllHoldConcat([OwnerIs(1)], FilterClauses(rt, 2, f), s.args, row);
    AllHoldOne(OwnerIs(1), s.args, row);
    assert StandAt(s.args, 2, FilterArgs(rt, f));
    FiltersCompiled(rt, f, s.args, 2, row);
  }

  // ---------- Fetching a page ----------

  /** The rows of a snapshot, already in display order, that satisfy the condition. */
  function Satisfying(table: seq<Row>, clauses: seq<Clause>, args: seq<Arg>): seq<Row> {
    if table == [] then []
    else
      (if AllHold(clauses, args, table[0]) then [table[0]] else []) + Satisfying(table[1..], clauses, args)
  }

  function Selected(rt: Runtime, owner: int, f: Filters, table: seq<Row>): seq<Row> {
    if table == [] then []
    else (if Matches(rt, owner, f, table[0]) then [table[0]] else []) + Selected(rt, owner, f, table[1..])
  }

  /** Selecting keeps the order of the table and the number of times a row stands in it. */
  lemma {:induction false} SelectedConcat(rt: Runtime, owner: int, f: Filters, xs: seq<Row>, ys: seq<Row>)
    ensures Selected(rt, owner, f, xs + ys) == Selected(rt, owner, f, xs) + Selected(rt, owner, f, ys)
    decreases |xs|
  {
    if xs == [] {
      assert xs + ys == ys;
    } else {
      assert (xs + ys)[1..] == xs[1..] + ys;
      SelectedConcat(rt, owner, f, xs[1..], ys);
    }
  }

  lemma SelectedOne(rt: Runtime, owner: int, f: Filters, row: Row)
    ensures Selected(rt, owner, f, [row]) == if Matches(rt, owner, f, row) then [row] else []
  {
    assert [row][1..] == [];
  }

  function Min(a: int, b: int): int {
    if a <= b then a else b
  }

  /** LIMIT and OFFSET on a list of rows. */
  function Window(rows: seq<Row>, limit: nat, offset: nat): (window: seq<Row>)
    ensures |window| == if offset >= |rows| then 0 else if |rows| - offset < limit then |rows| - offset else limit
    ensures forall i :: 0 <= i < |window| ==> window[i] == rows[offset + i]
  {
    rows[Min(offset, |rows|)..Min(offset + limit, |rows|)]
  }

  /** A row as the database returns it, with the total count that the statement adds. */
  datatype Counted = Counted(row: Row, total: nat)

  function WithTotal(rows: seq<Row>, total: nat): (r: seq<Counted>)
    ensures |r| == |rows| && forall i :: 0 <= i < |rows| ==> r[i] == Counted(rows[i], total)
  {
    seq(|rows|, i requires 0 <= i < |rows| => Counted(rows[i], total))
  }

  function Executed(s: Statement, limit: nat, offset: nat, table: seq<Row>): seq<Counted> {
    var rows := Satisfying(table, s.clauses, s.args);
    WithTotal(Window(rows, limit, offset), |rows|)
  }

  datatype Page = Page(transactions: seq<Row>, total: nat, page: int, limit: int, hasMore: bool)

  method FetchRecent(rt: Runtime, owner: int, f: Filters, page: nat, limit: nat, table: seq<Row>) returns (result: Page)
    requires page >= 1 && limit >= 1
    ensures var rows := Selected(rt, owner, f, table);
            && result.transactions == Window(rows, limit, (page - 1) * limit)
            && result.total == (if result.transactions == [] then 0 else |rows|)
            && result.page == page && result.limit == limit
            && (result.hasMore <==> page * limit < |rows|)
  {
    var clauses, filterArgs := BuildFilterClauses(rt, 2, f);
    var argIdx := 2 + |filterArgs|;
    var offset := (page - 1) * limit;
    NoNegative(page - 1, limit);
    var statement := Statement([OwnerIs(1)] + clauses, argIdx, argIdx + 1,
                               [Number(owner)] + filterArgs + [Number(limit), Number(offset)]);
    SatisfyingIsSelected(rt, owner, f, page, limit, table);
    var returned := Executed(statement, limit, offset, table);
    ghost var rows := Selected(rt, owner, f, table);
    ghost var window := Window(rows, limit, offset);
    var total := 0;
    var transactions: seq<Row> := [];
    var i := 0;
    while i < |returned|
      invariant 0 <= i <= |returned|
      invariant transactions == window[..i]
      invariant total == if i == 0 then 0 else |rows|
    {
      transactions := transactions + [returned[i].row];
      total := returned[i].total;
      i := i + 1;
    }
    NextOffset(page, limit);
    result := Page(transactions, total, page, limit, page * limit < total);
  }

  lemma NoNegative(a: nat, b: nat)
    ensures a * b >= 0
  {
  }

  lemma NextOffset(page: int, limit: int)
    ensures page * limit == (page - 1) * limit + limit
  {
  }

  lemma {:induction false} SatisfyingIsSelected(rt: Runtime, owner: int, f: Filters, page: int, limit: int,
                                                table: seq<Row>)
    ensures var s := Compiled(rt, owner, f, page, limit);
            Satisfying(table, s.clauses, s.args) == Selected(rt, owner, f, table)
    decreases |table|
  {
    if table != [] {
      ConditionIsFilter(rt, owner, f, page, limit, table[0]);
      SatisfyingIsSelected(rt, owner, f, page, limit, table[1..]);
    }
  }

  // ---------- Walking all pages ----------

  /** What a client collects that starts at `page` and goes on while there is more. */
  function Walked(rows: seq<Row>, page: nat, limit: nat): seq<Row>
    requires page >= 1 && limit >= 1
    decreases |rows| - page * limit
  {
    NoNegative(page - 1, limit);
    NextOffset(page + 1, limit);
    var window := Window(rows, limit, (page - 1) * limit);
    if page * limit < |rows| then window + Walked(rows, page + 1, limit) else window
  }

  lemma {:induction false} WalkFrom(rows: seq<Row>, page: nat, limit: nat)
    requires page >= 1 && limit >= 1
    requires (page - 1) * limit <= |rows|
    ensures 0 <= (page - 1) * limit && Walked(rows, page, limit) == rows[(page - 1) * limit..]
    decreases |rows| - page * limit
  {
    NoNegative(page - 1, limit);
    NextOffset(page, limit);
    NextOffset(page + 1, limit);
    var offset := (page - 1) * limit;
    if page * limit < |rows| {
      WalkFrom(rows, page + 1, limit);
      assert rows[offset..] == rows[offset..offset + limit] + rows[offset + limit..];
    }
  }

  /** Walking the pages from 1 while there is more visits every selected row exactly once, in order. */
  lemma WalkVisitsAll(rows: seq<Row>, limit: nat)
    requires limit >= 1
    ensures Walked(rows, 1, limit) == rows
  {
    WalkFrom(rows, 1, limit);
  }

  lemma WindowExtends(rows: seq<Row>, limit: nat, offset: nat)
    requires offset <= |rows|
    ensures rows[..offset] + Window(rows, limit, offset) == rows[..Min(offset + limit, |rows|)]
  {
  }

  /** A client that fetches pages from 1 while there is more has every selected row exactly once, in order. */
  method FetchAll(rt: Runtime, owner: int, f: Filters, limit: nat, table: seq<Row>) returns (rows: seq<Row>)
    requires limit >= 1
    ensures rows == Selected(rt, owner, f, table)
  {
    ghost var all := Selected(rt, owner, f, table);
    var page: nat := 1;
    ghost var seen: nat := limit;
    var result := FetchRecent(rt, owner, f, page, limit, table);
    rows := result.transactions;
    WindowExtends(all, limit, 0);
    while result.hasMore
      invariant page >= 1 && seen == page * limit
      invariant result.hasMore <==> seen < |all|
      invariant rows == all[..Min(seen, |all|)]
      decreases |all| - seen
    {
      page := page + 1;
      NextOffset(page, limit);
      result := FetchRecent(rt, owner, f, page, limit, table);
      WindowExtends(all, limit, seen);
      rows := rows + result.transactions;
      seen := seen + limit;
    }
  }
}
