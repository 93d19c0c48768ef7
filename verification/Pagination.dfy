/**
 One offset page request: the SQL texts it renders and the argument lists it binds, and what the
 database's answers to them mean.
 */
module Pagination {
  import opened Wrappers
  import opened SqlText
  import opened AddressRows
  import opened SqlQuery
  import opened Sorting
  import opened SqlEval

  /** Go's int on the platforms the service runs on. */
  type Int = i: int | -0x8000_0000_0000_0000 <= i < 0x8000_0000_0000_0000

  /** Two's complement addition. */
  function Plus(a: Int, b: Int): Int {
    var sum := a + b;
    if sum >= 0x8000_0000_0000_0000 then sum - 0x1_0000_0000_0000_0000
    else if sum < -0x8000_0000_0000_0000 then sum + 0x1_0000_0000_0000_0000
    else sum
  }

  datatype Page = Page(
    columns: string,
    predicates: seq<string>,
    args: seq<Value>,
    orderCols: seq<string>,
    ascending: bool,
    first: Option<Int>,
    skip: Option<Int>)

  function Direction(p: Page): string {
    if p.ascending then "ASC" else "DESC"
  }

  function OrderParts(p: Page): seq<string> {
    seq(|p.orderCols|, i requires 0 <= i < |p.orderCols| => p.orderCols[i] + " " + Direction(p))
  }

  function OrderByText(p: Page): string {
    "ORDER" + " " + ("BY" + " " + Join(OrderParts(p), ", "))
  }

  function WhereClause(p: Page): string {
    if |p.predicates| == 0 then "" else " " + ("WHERE" + " " + Join(p.predicates, " AND "))
  }

  function TailText(p: Page, offset: nat, limit: string): string {
    "addressentity" + WhereClause(p) + " " +
    (OrderByText(p) + " " + ("OFFSET" + " " + (Placeholder(offset) + " " + ("LIMIT" + " " + limit))))
  }

  function SkipOf(p: Page): Int {
    match p.skip case None => 0 case Some(n) => n
  }

  function LimitText(p: Page): string {
    if p.first.None? then "ALL" else Placeholder(|p.args| + 2)
  }

  function NodesText(p: Page): string {
    "SELECT" + " " + (p.columns + " " + ("FROM" + " " + TailText(p, |p.args| + 1, LimitText(p))))
  }

  function NodesArgs(p: Page): seq<Value> {
    p.args + [IntValue(SkipOf(p))] + if p.first.None? then [] else [IntValue(p.first.value)]
  }

  function ExistsText(p: Page): string {
    "SELECT" + " " + ("EXISTS(SELECT" + " " + ("1" + " " + ("FROM" + " " + TailText(p, |p.args| + 1, "1)"))))
  }

  function CountText(p: Page): string {
    "SELECT" + " " + ("COUNT(id)" + " " + ("FROM" + " " + ("addressentity" + WhereClause(p))))
  }

  // ----- The code -----

  method OrderBy(p: Page) returns (text: string)
    ensures text == OrderByText(p)
  {
    var parts := new string[|p.orderCols|];
    var dir := Direction(p);
    for i := 0 to |p.orderCols|
      invariant forall j | 0 <= j < i :: parts[j] == p.orderCols[j] + " " + dir
    {
      parts[i] := p.orderCols[i] + " " + dir;
    }
    assert parts[..] == OrderParts(p);
    text := "ORDER" + " " + ("BY" + " " + Join(parts[..], ", "));
  }

  method NodesSQL(p: Page) returns (q: string, args: seq<Value>)
    ensures q == NodesText(p) && args == NodesArgs(p)
  {
    var skip: Int := 0;
    if p.skip.Some? {
      skip := p.skip.value;
    }
    args := p.args + [IntValue(skip)];
    var limit := "ALL";
    if p.first.Some? {
      args := args + [IntValue(p.first.value)];
      limit := Placeholder(|args|);
    }
    var order := OrderBy(p);
    var tail := "OFFSET" + " " + (Placeholder(|p.args| + 1) + " " + ("LIMIT" + " " + limit));
    q := "SELECT" + " " + (p.columns + " " + ("FROM" + " " + ("addressentity" + WhereClause(p) + " " + (order + " " + tail))));
  }

  /** `QueryRow(...).Scan(&n)` and `QueryRow(...).Scan(&exists)`. */
  function ScanNumber(answer: Result<Answer, SqlError>): Result<nat, SqlError> {
    match answer case Ok(Number(n)) => Ok(n) case Ok(_) => Err(WrongType) case Err(e) => Err(e)
  }

  function ScanTruth(answer: Result<Answer, SqlError>): Result<bool, SqlError> {
    match answer case Ok(Truth(b)) => Ok(b) case Ok(_) => Err(WrongType) case Err(e) => Err(e)
  }

  method TotalCount(p: Page, rows: seq<Address>, lost: bool) returns (r: Result<nat, SqlError>)
    ensures r == ScanNumber(Send(rows, CountText(p), p.args, lost))
  {
    var q := "SELECT" + " " + ("COUNT(id)" + " " + ("FROM" + " " + ("addressentity" + WhereClause(p))));
    return ScanNumber(Send(rows, q, p.args, lost));
  }

  function ExistsArgs(p: Page): seq<Value>
    requires p.first.Some?
  {
    p.args + [IntValue(Plus(p.first.value, SkipOf(p)))]
  }

  method HasNextPage(p: Page, rows: seq<Address>, lost: bool) returns (r: Result<bool, SqlError>)
    ensures r == if p.first.None? then Ok(false) else ScanTruth(Send(rows, ExistsText(p), ExistsArgs(p), lost))
  {
    if p.first.None? {
      return Ok(false);
    }
    var skip: Int := 0;
    if p.skip.Some? {
      skip := p.skip.value;
    }
    var offset := Plus(p.first.value, skip);
    var args := p.args + [IntValue(offset)];
    var order := OrderBy(p);
    var tail := "OFFSET" + " " + (Placeholder(|args|) + " " + ("LIMIT" + " " + "1)"));
    var q := "SELECT" + " " + ("EXISTS(SELECT" + " " + ("1" + " " + ("FROM" + " " +
             ("addressentity" + WhereClause(p) + " " + (order + " " + tail)))));
    return ScanTruth(Send(rows, q, args, lost));
  }

  // ----- What the fragments of a page stand for -----

  function PredicateText(p: Predicate): string {
    match p
    case Equals(c, n) => ColumnName(c) + " " + ("=" + " " + Placeholder(n))
    case IsNull(c) => ColumnName(c) + " " + ("IS" + " " + "NULL")
    case IsNotNull(c) => ColumnName(c) + " " + ("IS" + " " + ("NOT" + " " + "NULL"))
  }

  function ColumnNames(columns: seq<Column>): seq<string> {
    seq(|columns|, i requires 0 <= i < |columns| => ColumnName(columns[i]))
  }

  /** The predicates bind exactly these arguments. */
  predicate BindsAll(where: seq<Predicate>, args: seq<Value>) {
    && HighestInWhere(where) == |args|
    && (forall n | 1 <= n <= |args| :: UsedInWhere(where, n))
    && CheckPredicates(where, args).None?
  }

  /** The page was built from these columns, predicates and order items. */
  predicate Renders(p: Page, columns: seq<Column>, where: seq<Predicate>, order: seq<OrderItem>) {
    && |columns| > 0
    && p.columns == Join(ColumnNames(columns), ", ")
    && p.predicates == seq(|where|, i requires 0 <= i < |where| => PredicateText(where[i]))
    && p.orderCols == seq(|order|, i requires 0 <= i < |order| => ColumnName(order[i].column))
    && (forall item | item in order :: item.ascending == p.ascending)
  }

  /** It was; and its predicates use all the arguments it carries and no others, each at its column's type. */
  predicate Denotes(p: Page, columns: seq<Column>, where: seq<Predicate>, order: seq<OrderItem>) {
    Renders(p, columns, where, order) && Collated(order) && BindsAll(where, p.args)
  }

  // ----- Words of the rendered texts -----

  lemma PredicateTextWords(p: Predicate)
    ensures Split(PredicateText(p)) == PredicateWords(p)
  {
    ColumnRoundTrip(p.column);
    match p
    case Equals(_, n) =>
      LeadingWord(ColumnName(p.column), "=" + " " + Placeholder(n));
      LeadingWord("=", Placeholder(n));
      PlaceholderRoundTrip(n);
      SplitOneWord(Placeholder(n));
    case IsNull(_) =>
      LeadingWord(ColumnName(p.column), "IS" + " " + "NULL");
      LeadingWord("IS", "NULL");
      SplitOneWord("NULL");
    case IsNotNull(_) =>
      LeadingWord(ColumnName(p.column), "IS" + " " + ("NOT" + " " + "NULL"));
      LeadingWord("IS", "NOT" + " " + "NULL");
      LeadingWord("NOT", "NULL");
      SplitOneWord("NULL");
  }

  lemma {:induction false} ConjunctionTextWords(texts: seq<string>, where: seq<Predicate>)
    requires |where| > 0 && |texts| == |where| && forall i | 0 <= i < |where| :: texts[i] == PredicateText(where[i])
    ensures Split(Join(texts, " AND ")) == ConjunctionWords(where)
  {
    PredicateTextWords(where[0]);
    if |where| > 1 {
      var rest := Join(texts[1..], " AND ");
      ConjunctionTextWords(texts[1..], where[1..]);
      assert Join(texts, " AND ") == texts[0] + " " + ("AND" + " " + rest);
      SplitAtSpace(texts[0], "AND" + " " + rest);
      LeadingWord("AND", rest);
    }
  }

  lemma CommaWord(name: string, rest: string)
    requires ' ' !in name
    ensures Split(name + ", " + rest) == [name + ","] + Split(rest)
  {
    assert name + ", " + rest == (name + ",") + " " + rest;
    LeadingWord(name + ",", rest);
  }

  lemma {:induction false} ColumnsTextWords(names: seq<string>, columns: seq<Column>)
    requires |columns| > 0 && |names| == |columns| && forall i | 0 <= i < |columns| :: names[i] == ColumnName(columns[i])
    ensures Split(Join(names, ", ")) == ColumnWords(columns)
  {
    ColumnRoundTrip(columns[0]);
    if |columns| == 1 {
      SplitOneWord(names[0]);
    } else {
      ColumnsTextWords(names[1..], columns[1..]);
      CommaWord(names[0], Join(names[1..], ", "));
    }
  }

  lemma OrderItemWords(name: string, direction: string, rest: string)
    requires ' ' !in name && ' ' !in direction
    ensures Split(name + " " + direction) == [name, direction]
    ensures Split(name + " " + direction + ", " + rest) == [name, direction + ","] + Split(rest)
  {
    LeadingWord(name, direction);
    SplitOneWord(direction);
    assert name + " " + direction + ", " + rest == name + " " + ((direction + ",") + " " + rest);
    LeadingWord(name, (direction + ",") + " " + rest);
    LeadingWord(direction + ",", rest);
  }

  lemma {:induction false} OrderTextWords(parts: seq<string>, order: seq<OrderItem>)
    requires |order| > 0 && |parts| == |order|
    requires forall i | 0 <= i < |order| :: parts[i] == ColumnName(order[i].column) + " " + DirectionName(order[i].ascending)
    ensures Split(Join(parts, ", ")) == OrderWords(order)
  {
    var rest := Join(parts[1..], ", ");
    ColumnRoundTrip(order[0].column);
    OrderItemWords(ColumnName(order[0].column), DirectionName(order[0].ascending), rest);
    if |order| > 1 {
      OrderTextWords(parts[1..], order[1..]);
      assert Join(parts, ", ") == parts[0] + ", " + rest;
    }
  }

  lemma OrderByTextWords(p: Page, words: seq<string>)
    requires Split(Join(OrderParts(p), ", ")) == words
    ensures Split(OrderByText(p)) == ["ORDER", "BY"] + words
  {
    var list := Join(OrderParts(p), ", ");
    LeadingWord("ORDER", "BY" + " " + list);
    LeadingWord("BY", list);
  }

  lemma TableWords(p: Page, where: seq<Predicate>)
    requires |where| == |p.predicates| && forall i | 0 <= i < |where| :: p.predicates[i] == PredicateText(where[i])
    ensures Split("addressentity" + WhereClause(p)) == ["addressentity"] + WhereWords(where)
  {
    if |where| > 0 {
      ConjunctionTextWords(p.predicates, where);
    }
    TableThenWhere(p, "addressentity", ConjunctionWords(where));
  }

  lemma TableThenWhere(p: Page, table: string, words: seq<string>)
    requires ' ' !in table && (|p.predicates| > 0 ==> Split(Join(p.predicates, " AND ")) == words)
    ensures Split(table + WhereClause(p)) == [table] + if |p.predicates| == 0 then [] else ["WHERE"] + words
  {
    if |p.predicates| == 0 {
      assert table + WhereClause(p) == table;
      SplitOneWord(table);
    } else {
      var list := Join(p.predicates, " AND ");
      LeadingWord("WHERE", list);
      LeadingWord(table, "WHERE" + " " + list);
      assert table + (" " + ("WHERE" + " " + list)) == table + " " + ("WHERE" + " " + list);
    }
  }

  lemma LimitWords(n: nat, limit: string)
    requires ' ' !in limit
    ensures Split("OFFSET" + " " + (Placeholder(n) + " " + ("LIMIT" + " " + limit))) == ["OFFSET", Placeholder(n), "LIMIT", limit]
  {
    LeadingWord("OFFSET", Placeholder(n) + " " + ("LIMIT" + " " + limit));
    PlaceholderRoundTrip(n);
    LeadingWord(Placeholder(n), "LIMIT" + " " + limit);
    LeadingWord("LIMIT", limit);
    SplitOneWord(limit);
  }

  lemma ThreeParts(a: string, b: string, c: string)
    ensures Split(a + " " + (b + " " + c)) == Split(a) + (Split(b) + Split(c))
  {
    SplitAtSpace(a, b + " " + c);
    SplitAtSpace(b, c);
  }

  lemma TailWords(p: Page, where: seq<Predicate>, orderWords: seq<string>, n: nat, limit: string)
    requires |where| == |p.predicates| && forall i | 0 <= i < |where| :: p.predicates[i] == PredicateText(where[i])
    requires Split(Join(OrderParts(p), ", ")) == orderWords && ' ' !in limit
    ensures Split(TailText(p, n, limit)) ==
            ["addressentity"] + (WhereWords(where) + (["ORDER", "BY"] + (orderWords + ["OFFSET", Placeholder(n), "LIMIT", limit])))
  {
    TableWords(p, where);
    OrderByTextWords(p, orderWords);
    LimitWords(n, limit);
    ThreeParts("addressentity" + WhereClause(p), OrderByText(p), "OFFSET" + " " + (Placeholder(n) + " " + ("LIMIT" + " " + limit)));
    Regroup(["addressentity"], WhereWords(where), (["ORDER", "BY"] + orderWords) + ["OFFSET", Placeholder(n), "LIMIT", limit]);
    Regroup(["ORDER", "BY"], orderWords, ["OFFSET", Placeholder(n), "LIMIT", limit]);
  }

  lemma NodesWords(p: Page, tail: string, columns: seq<Column>)
    requires |columns| > 0 && p.columns == Join(ColumnNames(columns), ", ")
    ensures Split("SELECT" + " " + (p.columns + " " + ("FROM" + " " + tail))) ==
            ["SELECT"] + (ColumnWords(columns) + (["FROM"] + Split(tail)))
  {
    ColumnsTextWords(ColumnNames(columns), columns);
    LeadingWord("SELECT", p.columns + " " + ("FROM" + " " + tail));
    SplitAtSpace(p.columns, "FROM" + " " + tail);
    LeadingWord("FROM", tail);
  }

  lemma ExistsWords(tail: string)
    ensures Split("SELECT" + " " + ("EXISTS(SELECT" + " " + ("1" + " " + ("FROM" + " " + tail)))) ==
            ["SELECT", "EXISTS(SELECT", "1", "FROM"] + Split(tail)
  {
    LeadingWord("SELECT", "EXISTS(SELECT" + " " + ("1" + " " + ("FROM" + " " + tail)));
    LeadingWord("EXISTS(SELECT", "1" + " " + ("FROM" + " " + tail));
    LeadingWord("1", "FROM" + " " + tail);
    LeadingWord("FROM", tail);
  }

  lemma CountWords(tail: string)
    ensures Split("SELECT" + " " + ("COUNT(id)" + " " + ("FROM" + " " + tail))) ==
            ["SELECT", "COUNT(id)", "FROM"] + Split(tail)
  {
    LeadingWord("SELECT", "COUNT(id)" + " " + ("FROM" + " " + tail));
    LeadingWord("COUNT(id)", "FROM" + " " + tail);
    LeadingWord("FROM", tail);
  }

  lemma DenotedOrderWords(p: Page, order: seq<OrderItem>)
    requires |order| > 0 && |p.orderCols| == |order|
    requires forall i | 0 <= i < |order| :: p.orderCols[i] == ColumnName(order[i].column)
    requires forall i | 0 <= i < |order| :: order[i].ascending == p.ascending
    ensures Split(Join(OrderParts(p), ", ")) == OrderWords(order)
  {
    var parts := OrderParts(p);
    forall i | 0 <= i < |order|
      ensures parts[i] == ColumnName(order[i].column) + " " + DirectionName(order[i].ascending)
    {
      assert parts[i] == p.orderCols[i] + " " + Direction(p);
    }
    OrderTextWords(parts, order);
  }

  /** The statements a page denotes. */
  function NodesQuery(p: Page, columns: seq<Column>, where: seq<Predicate>, order: seq<OrderItem>): Query {
    SelectRows(columns, where, order, |p.args| + 1, if p.first.None? then All else UpTo(|p.args| + 2))
  }

  lemma NodesTextWords(p: Page, columns: seq<Column>, where: seq<Predicate>, order: seq<OrderItem>)
    requires Renders(p, columns, where, order) && |order| > 0
    ensures Split(NodesText(p)) == QueryWords(NodesQuery(p, columns, where, order))
  {
    var q := NodesQuery(p, columns, where, order);
    DenotedOrderWords(p, order);
    PlaceholderRoundTrip(|p.args| + 2);
    TailWords(p, where, OrderWords(order), |p.args| + 1, LimitText(p));
    NodesWords(p, TailText(p, |p.args| + 1, LimitText(p)), columns);
    var tail := WhereWords(where) + (["ORDER", "BY"] + (OrderWords(order) + ["OFFSET", Placeholder(q.offset), "LIMIT", LimitText(p)]));
    assert LimitText(p) == LimitWord(q.limit);
    Regroup(["FROM"], ["addressentity"], tail);
    assert ["FROM"] + ["addressentity"] == ["FROM", "addressentity"];
  }

  lemma Regroup(a: seq<string>, b: seq<string>, c: seq<string>)
    ensures a + (b + c) == (a + b) + c
  {
  }

  lemma NodesTextParses(p: Page, columns: seq<Column>, where: seq<Predicate>, order: seq<OrderItem>)
    requires Renders(p, columns, where, order) && |order| > 0
    ensures ParseQuery(Split(NodesText(p))) == Some(NodesQuery(p, columns, where, order))
  {
    NodesTextWords(p, columns, where, order);
    QueryRoundTrip(NodesQuery(p, columns, where, order));
  }

  lemma ExistsTextWords(p: Page, columns: seq<Column>, where: seq<Predicate>, order: seq<OrderItem>)
    requires Renders(p, columns, where, order) && |order| > 0
    ensures Split(ExistsText(p)) == QueryWords(SelectExists(where, order, |p.args| + 1))
  {
    DenotedOrderWords(p, order);
    TailWords(p, where, OrderWords(order), |p.args| + 1, "1)");
    ExistsWords(TailText(p, |p.args| + 1, "1)"));
    var tail := WhereWords(where) + (["ORDER", "BY"] + (OrderWords(order) + ["OFFSET", Placeholder(|p.args| + 1), "LIMIT", "1)"]));
    Regroup(["SELECT", "EXISTS(SELECT", "1", "FROM"], ["addressentity"], tail);
    assert ["SELECT", "EXISTS(SELECT", "1", "FROM"] + ["addressentity"] == ["SELECT", "EXISTS(SELECT", "1", "FROM", "addressentity"];
  }

  lemma ExistsTextParses(p: Page, columns: seq<Column>, where: seq<Predicate>, order: seq<OrderItem>)
    requires Renders(p, columns, where, order) && |order| > 0
    ensures ParseQuery(Split(ExistsText(p))) == Some(SelectExists(where, order, |p.args| + 1))
  {
    ExistsTextWords(p, columns, where, order);
    QueryRoundTrip(SelectExists(where, order, |p.args| + 1));
  }

  lemma CountTextWords(p: Page, where: seq<Predicate>)
    requires |where| == |p.predicates| && forall i | 0 <= i < |where| :: p.predicates[i] == PredicateText(where[i])
    ensures Split(CountText(p)) == QueryWords(SelectCount(where))
  {
    TableWords(p, where);
    CountWords("addressentity" + WhereClause(p));
    Regroup(["SELECT", "COUNT(id)", "FROM"], ["addressentity"], WhereWords(where));
    assert ["SELECT", "COUNT(id)", "FROM"] + ["addressentity"] == ["SELECT", "COUNT(id)", "FROM", "addressentity"];
  }

  lemma CountTextParses(p: Page, columns: seq<Column>, where: seq<Predicate>, order: seq<OrderItem>)
    requires Denotes(p, columns, where, order)
    ensures ParseQuery(Split(CountText(p))) == Some(SelectCount(where))
  {
    CountTextWords(p, where);
    QueryRoundTrip(SelectCount(where));
  }

  /** With no column to order by, neither the page body nor the probe is a statement. */
  lemma EmptyOrderIsRejected(p: Page, columns: seq<Column>, where: seq<Predicate>, rows: seq<Address>)
    requires Renders(p, columns, where, [])
    ensures Execute(rows, NodesText(p), NodesArgs(p)) == Err(SyntaxError)
    ensures p.first.Some? ==> Execute(rows, ExistsText(p), ExistsArgs(p)) == Err(SyntaxError)
  {
    assert OrderParts(p) == [];
    PlaceholderRoundTrip(|p.args| + 2);
    TailWords(p, where, [""], |p.args| + 1, LimitText(p));
    NodesWords(p, TailText(p, |p.args| + 1, LimitText(p)), columns);
    EmptyOrderDoesNotParse(columns, where, Placeholder(|p.args| + 1), LimitText(p));
    EmptyOrderProbe(p, columns, where);
  }

  lemma EmptyOrderProbe(p: Page, columns: seq<Column>, where: seq<Predicate>)
    requires Renders(p, columns, where, [])
    ensures ParseQuery(Split(ExistsText(p))).None?
  {
    assert OrderParts(p) == [];
    var offset := Placeholder(|p.args| + 1);
    var order := ["ORDER", "BY"] + ([""] + ["OFFSET", offset, "LIMIT", "1)"]);
    TailWords(p, where, [""], |p.args| + 1, "1)");
    ExistsWords(TailText(p, |p.args| + 1, "1)"));
    EmptyOrderTail(where, order);
    ExistsRegrouped(WhereWords(where) + order);
  }

  lemma ExistsRegrouped(tail: seq<string>)
    requires ParseTail(tail).None?
    ensures ParseQuery(["SELECT", "EXISTS(SELECT", "1", "FROM"] + (["addressentity"] + tail)).None?
  {
    ExistsStep(tail);
    Regroup(["SELECT", "EXISTS(SELECT", "1", "FROM"], ["addressentity"], tail);
    assert ["SELECT", "EXISTS(SELECT", "1", "FROM"] + ["addressentity"] == ["SELECT", "EXISTS(SELECT", "1", "FROM", "addressentity"];
  }

  lemma EmptyOrderDoesNotParse(columns: seq<Column>, where: seq<Predicate>, offset: string, limit: string)
    requires |columns| > 0
    ensures ParseQuery(["SELECT"] + (ColumnWords(columns) + (["FROM"] + (["addressentity"] + (WhereWords(where) +
              (["ORDER", "BY"] + ([""] + ["OFFSET", offset, "LIMIT", limit]))))))).None?
  {
    var tail := WhereWords(where) + (["ORDER", "BY"] + ([""] + ["OFFSET", offset, "LIMIT", limit]));
    EmptyOrderTail(where, ["ORDER", "BY"] + ([""] + ["OFFSET", offset, "LIMIT", limit]));
    RowsStepRegrouped(columns, tail);
  }

  lemma RowsStepRegrouped(columns: seq<Column>, tail: seq<string>)
    requires |columns| > 0
    ensures ParseQuery(["SELECT"] + (ColumnWords(columns) + (["FROM"] + (["addressentity"] + tail)))) == RowsOf(columns, ParseTail(tail))
  {
    RowsStep(columns, tail);
    Regroup(["FROM"], ["addressentity"], tail);
    assert ["FROM"] + ["addressentity"] == ["FROM", "addressentity"];
  }

  lemma EmptyOrderTail(where: seq<Predicate>, order: seq<string>)
    requires |order| == 7 && order[0] == "ORDER" && order[1] == "BY" && order[2] == ""
    ensures ParseTail(WhereWords(where) + order).None?
  {
    WhereRoundTrip(where, order);
    assert order[2..][0] == "";
    assert ParseColumn("").None?;
  }

  // ----- What the answers mean -----

  lemma {:induction false} ChecksKeep(where: seq<Predicate>, args: seq<Value>, more: seq<Value>)
    requires CheckPredicates(where, args).None?
    ensures CheckPredicates(where, args + more).None?
  {
    if where != [] {
      ChecksKeep(where[1..], args, more);
    }
  }

  lemma {:induction false} FilterAgrees(rows: seq<Address>, f: Address -> bool, g: Address -> bool)
    requires forall a :: f(a) == g(a)
    ensures Filter(rows, f) == Filter(rows, g)
  {
    if rows != [] {
      FilterAgrees(rows[1..], f, g);
    }
  }

  lemma MatchingKeeps(rows: seq<Address>, where: seq<Predicate>, args: seq<Value>, more: seq<Value>)
    requires CheckPredicates(where, args).None?
    ensures Matching(rows, where, args + more) == Matching(rows, where, args)
  {
    FilterAgrees(rows, a => KeepsAll(where, args + more, a), a => KeepsAll(where, args, a));
  }

  /** Rows from `skip` on, at most `first` of them. */
  function Window<T>(listing: seq<T>, skip: nat, first: Option<Int>): seq<T>
    requires first.Some? ==> first.value >= 0
  {
    match first case None => Drop(listing, skip) case Some(n) => Take(Drop(listing, skip), n)
  }

  lemma NodesAnswer(p: Page, columns: seq<Column>, where: seq<Predicate>, order: seq<OrderItem>, rows: seq<Address>)
    requires Collated(order) && BindsAll(where, p.args)
    ensures ExecuteQuery(rows, NodesQuery(p, columns, where, order), NodesArgs(p)) ==
            if SkipOf(p) < 0 then Err(NegativeOffset)
            else if p.first.Some? && p.first.value < 0 then Err(NegativeLimit)
            else Ok(Table(ProjectAll(Window(Sort(order, Matching(rows, where, p.args)), SkipOf(p), p.first), columns)))
  {
    var more := [IntValue(SkipOf(p))] + if p.first.None? then [] else [IntValue(p.first.value)];
    assert NodesArgs(p) == p.args + more;
    ChecksKeep(where, p.args, more);
    MatchingKeeps(rows, where, p.args, more);
  }

  /** The page body is filter, sort, drop, take; a negative bound is the database's error. */
  lemma NodesMeaning(p: Page, columns: seq<Column>, where: seq<Predicate>, order: seq<OrderItem>, rows: seq<Address>)
    requires Denotes(p, columns, where, order) && |order| > 0
    ensures Execute(rows, NodesText(p), NodesArgs(p)) ==
            if SkipOf(p) < 0 then Err(NegativeOffset)
            else if p.first.Some? && p.first.value < 0 then Err(NegativeLimit)
            else Ok(Table(ProjectAll(Window(Sort(order, Matching(rows, where, p.args)), SkipOf(p), p.first), columns)))
  {
    NodesTextParses(p, columns, where, order);
    NodesAnswer(p, columns, where, order, rows);
  }

  /** An argument that no predicate uses: the database refuses the page. */
  lemma UnusedArgumentIsRejected(p: Page, columns: seq<Column>, where: seq<Predicate>, order: seq<OrderItem>, rows: seq<Address>, n: nat)
    requires Renders(p, columns, where, order) && |order| > 0 && HighestInWhere(where) <= |p.args|
    requires 1 <= n <= |p.args| && !UsedInWhere(where, n)
    ensures Execute(rows, NodesText(p), NodesArgs(p)) == Err(UndeterminedType)
  {
    NodesTextParses(p, columns, where, order);
    assert !Used(NodesQuery(p, columns, where, order), n);
  }

  lemma ExistsAnswer(p: Page, where: seq<Predicate>, order: seq<OrderItem>, rows: seq<Address>)
    requires Collated(order) && BindsAll(where, p.args) && p.first.Some?
    ensures var offset := Plus(p.first.value, SkipOf(p));
            ExecuteQuery(rows, SelectExists(where, order, |p.args| + 1), ExistsArgs(p)) ==
            if offset < 0 then Err(NegativeOffset) else Ok(Truth(offset < |Matching(rows, where, p.args)|))
  {
    var more := [IntValue(Plus(p.first.value, SkipOf(p)))];
    ChecksKeep(where, p.args, more);
    MatchingKeeps(rows, where, p.args, more);
    SortKeepsSize(order, Matching(rows, where, p.args));
  }

  /** The probe asks for a row at first + skip, added with wrap-around. */
  lemma ExistsMeaning(p: Page, columns: seq<Column>, where: seq<Predicate>, order: seq<OrderItem>, rows: seq<Address>)
    requires Denotes(p, columns, where, order) && |order| > 0 && p.first.Some?
    ensures var offset := Plus(p.first.value, SkipOf(p));
            ScanTruth(Execute(rows, ExistsText(p), ExistsArgs(p))) ==
            if offset < 0 then Err(NegativeOffset) else Ok(offset < |Matching(rows, where, p.args)|)
  {
    ExistsTextParses(p, columns, where, order);
    ExistsAnswer(p, where, order, rows);
  }

  lemma SortKeepsSize(order: seq<OrderItem>, rows: seq<Address>)
    ensures |Sort(order, rows)| == |rows|
  {
    assert |Sort(order, rows)| == |multiset(Sort(order, rows))|;
  }

  lemma CountMeaning(p: Page, columns: seq<Column>, where: seq<Predicate>, order: seq<OrderItem>, rows: seq<Address>)
    requires Denotes(p, columns, where, order)
    ensures ScanNumber(Execute(rows, CountText(p), p.args)) == Ok(|Matching(rows, where, p.args)|)
  {
    CountTextParses(p, columns, where, order);
  }
}
