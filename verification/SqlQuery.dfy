/**
 The fragment of SQL the address listing renders: a statement as a tree, the words it is written
 with, and a parser for them. Reading back what was written gives the same statement.
 */
module SqlQuery {
  import opened Wrappers
  import opened SqlText
  import opened AddressRows

  datatype Predicate = Equals(column: Column, arg: nat) | IsNull(column: Column) | IsNotNull(column: Column)
  datatype OrderItem = OrderItem(column: Column, ascending: bool)
  datatype Limit = All | UpTo(arg: nat)

  datatype Query =
    | SelectRows(columns: seq<Column>, where: seq<Predicate>, order: seq<OrderItem>, offset: nat, limit: Limit)
    | SelectCount(where: seq<Predicate>)
    | SelectExists(where: seq<Predicate>, order: seq<OrderItem>, offset: nat)

  // ----- Writing -----

  function ColumnWords(columns: seq<Column>): seq<string> {
    if |columns| == 0 then [] else
      if |columns| == 1 then [ColumnName(columns[0])] else [ColumnName(columns[0]) + ","] + ColumnWords(columns[1..])
  }

  function PredicateWords(p: Predicate): seq<string> {
    match p
    case Equals(c, n) => [ColumnName(c), "=", Placeholder(n)]
    case IsNull(c) => [ColumnName(c), "IS", "NULL"]
    case IsNotNull(c) => [ColumnName(c), "IS", "NOT", "NULL"]
  }

  function ConjunctionWords(ps: seq<Predicate>): seq<string> {
    if |ps| == 0 then [] else
      if |ps| == 1 then PredicateWords(ps[0]) else PredicateWords(ps[0]) + ["AND"] + ConjunctionWords(ps[1..])
  }

  function WhereWords(ps: seq<Predicate>): seq<string> {
    if |ps| == 0 then [] else ["WHERE"] + ConjunctionWords(ps)
  }

  function DirectionName(ascending: bool): string {
    if ascending then "ASC" else "DESC"
  }

  function OrderWords(items: seq<OrderItem>): seq<string> {
    if |items| == 0 then [] else
      var item := items[0];
      if |items| == 1 then [ColumnName(item.column), DirectionName(item.ascending)]
      else [ColumnName(item.column), DirectionName(item.ascending) + ","] + OrderWords(items[1..])
  }

  function LimitWord(limit: Limit): string {
    match limit case All => "ALL" case UpTo(n) => Placeholder(n)
  }

  function QueryWords(q: Query): seq<string> {
    match q
    case SelectRows(columns, where, order, offset, limit) =>
      ["SELECT"] + (ColumnWords(columns) + (["FROM", "addressentity"] + (WhereWords(where) +
      (["ORDER", "BY"] + (OrderWords(order) + ["OFFSET", Placeholder(offset), "LIMIT", LimitWord(limit)])))))
    case SelectCount(where) =>
      ["SELECT", "COUNT(id)", "FROM", "addressentity"] + WhereWords(where)
    case SelectExists(where, order, offset) =>
      ["SELECT", "EXISTS(SELECT", "1", "FROM", "addressentity"] + (WhereWords(where) +
      (["ORDER", "BY"] + (OrderWords(order) + ["OFFSET", Placeholder(offset), "LIMIT", "1)"])))
  }

  // ----- Reading -----

  function ParseColumn(word: string): Option<Column> {
    if word == "id" then Some(IdColumn)
    else if word == "firstname" then Some(FirstName)
    else if word == "lastname" then Some(LastName)
    else if word == "street1" then Some(Street1)
    else if word == "street2" then Some(Street2)
    else if word == "city" then Some(City)
    else if word == "postalcode" then Some(PostalCode)
    else if word == "country" then Some(Country)
    else if word == "companyname" then Some(CompanyName)
    else if word == "userid" then Some(UserId)
    else if word == "archivedat" then Some(ArchivedAt)
    else if word == "version" then Some(Version)
    else None
  }

  predicate EndsWithComma(word: string) {
    |word| > 0 && word[|word| - 1] == ','
  }

  function ParseColumns(words: seq<string>): (r: Option<(seq<Column>, seq<string>)>)
    decreases |words|
  {
    if |words| == 0 then None else
      if EndsWithComma(words[0]) then
        match ParseColumn(words[0][..|words[0]| - 1])
        case None => None
        case Some(c) => (match ParseColumns(words[1..]) case None => None case Some(more) => Some(([c] + more.0, more.1)))
      else
        match ParseColumn(words[0]) case None => None case Some(c) => Some(([c], words[1..]))
  }

  function ParsePredicate(words: seq<string>): (r: Option<(Predicate, seq<string>)>)
    ensures r.Some? ==> |r.value.1| < |words|
  {
    if |words| < 3 then None else
      match ParseColumn(words[0])
      case None => None
      case Some(c) =>
        if words[1] == "=" then
          match ParsePlaceholder(words[2]) case None => None case Some(n) => Some((Equals(c, n), words[3..]))
        else if words[1] != "IS" then None
        else if words[2] == "NULL" then Some((IsNull(c), words[3..]))
        else if words[2] == "NOT" && |words| > 3 && words[3] == "NULL" then Some((IsNotNull(c), words[4..]))
        else None
  }

  function ParseConjunction(words: seq<string>): Option<(seq<Predicate>, seq<string>)>
    decreases |words|
  {
    match ParsePredicate(words)
    case None => None
    case Some((p, rest)) =>
      if |rest| > 0 && rest[0] == "AND" then
        match ParseConjunction(rest[1..]) case None => None case Some(more) => Some(([p] + more.0, more.1))
      else Some(([p], rest))
  }

  function ParseWhere(words: seq<string>): Option<(seq<Predicate>, seq<string>)> {
    if |words| > 0 && words[0] == "WHERE" then ParseConjunction(words[1..]) else Some(([], words))
  }

  function ParseOrder(words: seq<string>): Option<(seq<OrderItem>, seq<string>)>
    decreases |words|
  {
    if |words| < 2 then None else
      match ParseColumn(words[0])
      case None => None
      case Some(c) =>
        if words[1] == "ASC" then Some(([OrderItem(c, true)], words[2..]))
        else if words[1] == "DESC" then Some(([OrderItem(c, false)], words[2..]))
        else if words[1] == "ASC," || words[1] == "DESC," then
          match ParseOrder(words[2..])
          case None => None
          case Some(more) => Some(([OrderItem(c, words[1] == "ASC,")] + more.0, more.1))
        else None
  }

  /** Reads the common tail: WHERE, ORDER BY, OFFSET and LIMIT; the limit is left as a word. */
  function ParseTail(words: seq<string>): Option<(seq<Predicate>, seq<OrderItem>, nat, string)> {
    match ParseWhere(words)
    case None => None
    case Some((where, rest)) =>
      if |rest| < 2 || rest[0] != "ORDER" || rest[1] != "BY" then None else
        match ParseOrder(rest[2..])
        case None => None
        case Some((order, tail)) =>
          if |tail| == 4 && tail[0] == "OFFSET" && tail[2] == "LIMIT" then
            match ParsePlaceholder(tail[1]) case None => None case Some(n) => Some((where, order, n, tail[3]))
          else None
  }

  function ParseQuery(words: seq<string>): Option<Query> {
    if |words| < 4 || words[0] != "SELECT" then None
    else if words[1] == "COUNT(id)" then
      if words[2] != "FROM" || words[3] != "addressentity" then None else
        match ParseWhere(words[4..])
        case None => None
        case Some((where, rest)) => if rest == [] then Some(SelectCount(where)) else None
    else if words[1] == "EXISTS(SELECT" then
      if |words| < 5 || words[2] != "1" || words[3] != "FROM" || words[4] != "addressentity" then None else
        match ParseTail(words[5..])
        case None => None
        case Some((where, order, n, limit)) => if limit == "1)" then Some(SelectExists(where, order, n)) else None
    else ParseRows(words[1..])
  }

  function ParseRows(words: seq<string>): Option<Query> {
    match ParseColumns(words)
    case None => None
    case Some((columns, rest)) =>
      if |rest| < 2 || rest[0] != "FROM" || rest[1] != "addressentity" then None else RowsOf(columns, ParseTail(rest[2..]))
  }

  function RowsOf(columns: seq<Column>, tail: Option<(seq<Predicate>, seq<OrderItem>, nat, string)>): Option<Query> {
    match tail
    case None => None
    case Some((where, order, n, limit)) =>
      if limit == "ALL" then Some(SelectRows(columns, where, order, n, All)) else
        match ParsePlaceholder(limit)
        case None => None
        case Some(m) => Some(SelectRows(columns, where, order, n, UpTo(m)))
  }

  // ----- Reading back what was written -----

  lemma ColumnRoundTrip(c: Column)
    ensures ParseColumn(ColumnName(c)) == Some(c) && !EndsWithComma(ColumnName(c)) && ' ' !in ColumnName(c)
  {
  }

  lemma ColumnsStep(word: string, c: Column, rest: seq<string>)
    requires EndsWithComma(word) && ParseColumn(word[..|word| - 1]) == Some(c) && ParseColumns(rest).Some?
    ensures ParseColumns([word] + rest) == Some(([c] + ParseColumns(rest).value.0, ParseColumns(rest).value.1))
  {
    assert ([word] + rest)[1..] == rest;
  }

  lemma {:induction false} ColumnsRoundTrip(columns: seq<Column>, rest: seq<string>)
    requires |columns| > 0
    ensures ParseColumns(ColumnWords(columns) + rest) == Some((columns, rest))
  {
    var name := ColumnName(columns[0]);
    ColumnRoundTrip(columns[0]);
    assert columns == [columns[0]] + columns[1..];
    if |columns| == 1 {
      assert columns == [columns[0]];
      assert ColumnWords(columns) + rest == [name] + rest && ([name] + rest)[1..] == rest;
    } else {
      ColumnsRoundTrip(columns[1..], rest);
      assert (name + ",")[..|name + ","| - 1] == name;
      ColumnsStep(name + ",", columns[0], ColumnWords(columns[1..]) + rest);
      assert ColumnWords(columns) + rest == [name + ","] + (ColumnWords(columns[1..]) + rest);
    }
  }

  lemma PredicateRoundTrip(p: Predicate, rest: seq<string>)
    ensures ParsePredicate(PredicateWords(p) + rest) == Some((p, rest))
  {
    ColumnRoundTrip(p.column);
    var words := PredicateWords(p) + rest;
    match p
    case Equals(_, n) => PlaceholderRoundTrip(n); assert words[3..] == rest;
    case IsNull(_) => assert words[3..] == rest;
    case IsNotNull(_) => assert words[4..] == rest;
  }

  lemma ConjunctionStep(words: seq<string>, p: Predicate, rest: seq<string>)
    requires ParsePredicate(words) == Some((p, ["AND"] + rest)) && ParseConjunction(rest).Some?
    ensures ParseConjunction(words) == Some(([p] + ParseConjunction(rest).value.0, ParseConjunction(rest).value.1))
  {
    assert (["AND"] + rest)[1..] == rest;
  }

  lemma Assoc(a: seq<string>, b: seq<string>, c: seq<string>, d: seq<string>)
    ensures a + b + c + d == a + (b + (c + d))
  {
  }

  lemma ConjunctionSplits(ps: seq<Predicate>, rest: seq<string>)
    requires |ps| > 1
    ensures ConjunctionWords(ps) + rest == PredicateWords(ps[0]) + (["AND"] + (ConjunctionWords(ps[1..]) + rest))
  {
    Assoc(PredicateWords(ps[0]), ["AND"], ConjunctionWords(ps[1..]), rest);
  }

  lemma {:induction false} ConjunctionRoundTrip(ps: seq<Predicate>, rest: seq<string>)
    requires |ps| > 0 && !(|rest| > 0 && rest[0] == "AND")
    ensures ParseConjunction(ConjunctionWords(ps) + rest) == Some((ps, rest))
  {
    if |ps| == 1 {
      PredicateRoundTrip(ps[0], rest);
      assert ps == [ps[0]];
    } else {
      var more := ConjunctionWords(ps[1..]) + rest;
      PredicateRoundTrip(ps[0], ["AND"] + more);
      ConjunctionRoundTrip(ps[1..], rest);
      ConjunctionSplits(ps, rest);
      ConjunctionStep(ConjunctionWords(ps) + rest, ps[0], more);
      assert ps == [ps[0]] + ps[1..];
    }
  }

  lemma WhereStep(words: seq<string>, ps: seq<Predicate>, rest: seq<string>)
    requires ParseConjunction(words) == Some((ps, rest))
    ensures ParseWhere(["WHERE"] + words) == Some((ps, rest))
  {
    assert (["WHERE"] + words)[1..] == words;
  }

  lemma NoWhereStep(rest: seq<string>)
    requires |rest| > 0 ==> rest[0] != "WHERE"
    ensures ParseWhere(WhereWords([]) + rest) == Some(([], rest))
  {
    assert WhereWords([]) + rest == rest;
  }

  lemma WhereRoundTrip(ps: seq<Predicate>, rest: seq<string>)
    requires |rest| > 0 ==> rest[0] != "AND" && rest[0] != "WHERE"
    ensures ParseWhere(WhereWords(ps) + rest) == Some((ps, rest))
  {
    if ps == [] {
      NoWhereStep(rest);
    } else {
      var words := ConjunctionWords(ps) + rest;
      ConjunctionRoundTrip(ps, rest);
      WhereStep(words, ps, rest);
      WherePrefix(ps, rest);
    }
  }

  lemma WherePrefix(ps: seq<Predicate>, rest: seq<string>)
    requires ps != []
    ensures WhereWords(ps) + rest == ["WHERE"] + (ConjunctionWords(ps) + rest)
  {
  }

  lemma OrderStep(word: string, item: OrderItem, rest: seq<string>)
    requires ParseColumn(word) == Some(item.column) && ParseOrder(rest).Some?
    ensures ParseOrder([word, DirectionName(item.ascending) + ","] + rest) ==
            Some(([item] + ParseOrder(rest).value.0, ParseOrder(rest).value.1))
  {
    var words := [word, DirectionName(item.ascending) + ","] + rest;
    assert words[2..] == rest;
    assert words[1] == if item.ascending then "ASC," else "DESC,";
  }

  lemma {:induction false} OrderRoundTrip(items: seq<OrderItem>, rest: seq<string>)
    requires |items| > 0
    ensures ParseOrder(OrderWords(items) + rest) == Some((items, rest))
  {
    var name, direction := ColumnName(items[0].column), DirectionName(items[0].ascending);
    ColumnRoundTrip(items[0].column);
    assert items == [items[0]] + items[1..];
    if |items| == 1 {
      assert items == [items[0]];
      assert OrderWords(items) + rest == [name, direction] + rest && ([name, direction] + rest)[2..] == rest;
    } else {
      OrderRoundTrip(items[1..], rest);
      OrderStep(name, items[0], OrderWords(items[1..]) + rest);
      assert OrderWords(items) + rest == [name, direction + ","] + (OrderWords(items[1..]) + rest);
    }
  }

  lemma TailStep(words: seq<string>, where: seq<Predicate>, rest: seq<string>, order: seq<OrderItem>, tail: seq<string>,
                 offset: nat, limit: string)
    requires ParseWhere(words) == Some((where, ["ORDER", "BY"] + rest)) && ParseOrder(rest) == Some((order, tail))
    requires |tail| == 4 && tail[0] == "OFFSET" && tail[2] == "LIMIT" && tail[3] == limit
    requires ParsePlaceholder(tail[1]) == Some(offset)
    ensures ParseTail(words) == Some((where, order, offset, limit))
  {
    assert (["ORDER", "BY"] + rest)[2..] == rest;
  }

  lemma TailRoundTrip(where: seq<Predicate>, order: seq<OrderItem>, offset: nat, limit: string)
    requires |order| > 0
    ensures ParseTail(WhereWords(where) + (["ORDER", "BY"] + (OrderWords(order) + ["OFFSET", Placeholder(offset), "LIMIT", limit])))
            == Some((where, order, offset, limit))
  {
    var tail := ["OFFSET", Placeholder(offset), "LIMIT", limit];
    PlaceholderRoundTrip(offset);
    OrderRoundTrip(order, tail);
    WhereThenOrder(where, OrderWords(order) + tail);
    TailStep(WhereWords(where) + (["ORDER", "BY"] + (OrderWords(order) + tail)), where, OrderWords(order) + tail, order, tail, offset, limit);
  }

  lemma WhereThenOrder(where: seq<Predicate>, rest: seq<string>)
    ensures ParseWhere(WhereWords(where) + (["ORDER", "BY"] + rest)) == Some((where, ["ORDER", "BY"] + rest))
  {
    var order := "ORDER";
    assert order[0] == 'O';
    WhereRoundTrip(where, ["ORDER", "BY"] + rest);
  }

  lemma RowsRead(words: seq<string>, columns: seq<Column>, rest: seq<string>, tail: seq<string>)
    requires |words| > 2 && words[0] != "COUNT(id)" && words[0] != "EXISTS(SELECT"
    requires ParseColumns(words) == Some((columns, rest))
    requires |rest| >= 2 && rest[0] == "FROM" && rest[1] == "addressentity" && rest[2..] == tail
    ensures ParseQuery(["SELECT"] + words) == RowsOf(columns, ParseTail(tail))
  {
    assert (["SELECT"] + words)[1..] == words;
    assert ParseRows(words) == RowsOf(columns, ParseTail(tail));
  }

  /** What follows the projection is read on its own. */
  lemma RowsStep(columns: seq<Column>, tail: seq<string>)
    requires |columns| > 0
    ensures ParseQuery(["SELECT"] + (ColumnWords(columns) + (["FROM", "addressentity"] + tail))) == RowsOf(columns, ParseTail(tail))
  {
    var rest := ["FROM", "addressentity"] + tail;
    var words := ColumnWords(columns) + rest;
    FirstColumnWord(columns);
    assert words[0] == ColumnWords(columns)[0];
    ColumnsRoundTrip(columns, rest);
    RowsRead(words, columns, rest, tail);
  }

  lemma RowsRoundTrip(q: Query)
    requires q.SelectRows? && |q.columns| > 0 && |q.order| > 0
    ensures ParseQuery(QueryWords(q)) == Some(q)
  {
    var tail := WhereWords(q.where) +
      (["ORDER", "BY"] + (OrderWords(q.order) + ["OFFSET", Placeholder(q.offset), "LIMIT", LimitWord(q.limit)]));
    RowsStep(q.columns, tail);
    TailRoundTrip(q.where, q.order, q.offset, LimitWord(q.limit));
    LimitRead(q);
  }

  lemma LimitRead(q: Query)
    requires q.SelectRows?
    ensures RowsOf(q.columns, Some((q.where, q.order, q.offset, LimitWord(q.limit)))) == Some(q)
  {
    match q.limit {
      case All =>
      case UpTo(n) => PlaceholderRoundTrip(n); assert Placeholder(n)[0] == '$';
    }
  }

  lemma FirstColumnWord(columns: seq<Column>)
    requires |columns| > 0
    ensures |ColumnWords(columns)| > 0
    ensures ColumnWords(columns)[0] != "COUNT(id)" && ColumnWords(columns)[0] != "EXISTS(SELECT"
  {
    var word := ColumnWords(columns)[0];
    NotAKeyword(columns[0]);
    if |columns| > 1 {
      assert word == ColumnName(columns[0]) + ",";
      assert word[|word| - 1] == ',';
    }
  }

  lemma NotAKeyword(c: Column)
    ensures ColumnName(c) != "COUNT(id)" && ColumnName(c) != "EXISTS(SELECT"
  {
  }

  lemma ExistsStep(tail: seq<string>)
    ensures ParseTail(tail).None? ==> ParseQuery(["SELECT", "EXISTS(SELECT", "1", "FROM", "addressentity"] + tail).None?
  {
    assert (["SELECT", "EXISTS(SELECT", "1", "FROM", "addressentity"] + tail)[5..] == tail;
  }

  /** Every statement with something to project and to order by reads back as itself. */
  lemma QueryRoundTrip(q: Query)
    requires q.SelectRows? ==> |q.columns| > 0
    requires !q.SelectCount? ==> |q.order| > 0
    ensures ParseQuery(QueryWords(q)) == Some(q)
  {
    match q
    case SelectRows(_, _, _, _, _) =>
      RowsRoundTrip(q);
    case SelectCount(where) =>
      WhereRoundTrip(where, []);
      assert WhereWords(where) + [] == WhereWords(where);
      assert QueryWords(q)[4..] == WhereWords(where);
    case SelectExists(where, order, offset) =>
      TailRoundTrip(where, order, offset, "1)");
      assert QueryWords(q)[5..] == WhereWords(where) + (["ORDER", "BY"] + (OrderWords(order) + ["OFFSET", Placeholder(offset), "LIMIT", "1)"]));
  }
}
