/** `ListUserAddresses`: a page of a user's addresses, and what walking the pages gives. */
module AddressListing {
  import opened Wrappers
  import opened SqlText
  import opened AddressRows
  import opened SqlQuery
  import opened Sorting
  import opened SqlEval
  import opened Pagination

  /** The tri-state isArchived filter. */
  datatype ArchivedFilter = ArchivedFilter(isSet: bool, value: bool)

  /** `archivedFilter`: an absent filter and an absent field both mean no filter. */
  function ArchivedFilterOf(input: Option<Option<bool>>): ArchivedFilter {
    match input case Some(Some(value)) => ArchivedFilter(true, value) case _ => ArchivedFilter(false, false)
  }

  datatype Connection = Connection(nodes: seq<Address>, totalCount: nat, hasNextPage: bool)

  predicate Selected(owner: Uuid, filter: ArchivedFilter, a: Address) {
    a.userId == Some(owner) && (filter.isSet ==> filter.value == a.archivedAt.Some?)
  }

  function Order(ascending: bool): seq<OrderItem> {
    [OrderItem(IdColumn, ascending)]
  }

  function Owned(rows: seq<Address>, owner: Uuid, filter: ArchivedFilter): seq<Address> {
    Filter(rows, a => Selected(owner, filter, a))
  }

  /** The whole list of which a page is a window. */
  function Listing(rows: seq<Address>, owner: Uuid, filter: ArchivedFilter, ascending: bool): seq<Address> {
    Sort(Order(ascending), Owned(rows, owner, filter))
  }

  function From(skip: Option<Int>): Int {
    match skip case None => 0 case Some(n) => n
  }

  /** A page of a listing, or the error of the first of the three queries that fails. */
  function PageOf(listing: seq<Address>, first: Option<Int>, skip: Option<Int>): Result<Connection, SqlError> {
    if From(skip) < 0 then Err(NegativeOffset)
    else if first.Some? && first.value < 0 then Err(NegativeLimit)
    else if first.Some? && Plus(first.value, From(skip)) < 0 then Err(NegativeOffset)
    else Ok(Connection(
      Window(listing, From(skip), first),
      |listing|,
      first.Some? && Plus(first.value, From(skip)) < |listing|))
  }

  /** Which of the three queries lose the database. */
  datatype Outages = Outages(count: bool, nodes: bool, next: bool)

  /** The answer to a listing request; the probe is not sent for an unbounded page. */
  function ListAnswer(listing: seq<Address>, first: Option<Int>, skip: Option<Int>, lost: Outages): Result<Connection, SqlError> {
    if lost.count || lost.nodes then Err(ConnectionLost)
    else if From(skip) < 0 then Err(NegativeOffset)
    else if first.Some? && first.value < 0 then Err(NegativeLimit)
    else if first.Some? && lost.next then Err(ConnectionLost)
    else PageOf(listing, first, skip)
  }

  // ----- The code -----

  /** The rows a table scans to: all of them in order, or an error if one does not scan. */
  predicate Scans(table: seq<seq<Value>>, r: Result<seq<Address>, SqlError>) {
    match r
    case Ok(rows) => |rows| == |table| && forall i | 0 <= i < |table| :: ScanAddress(table[i]) == Some(rows[i])
    case Err(_) => exists i :: 0 <= i < |table| && ScanAddress(table[i]).None?
  }

  /** `scanAddresses`. */
  method ScanAddresses(table: seq<seq<Value>>) returns (r: Result<seq<Address>, SqlError>)
    ensures Scans(table, r)
  {
    var out := [];
    for i := 0 to |table|
      invariant |out| == i && forall j | 0 <= j < i :: ScanAddress(table[j]) == Some(out[j])
    {
      match ScanAddress(table[i]) {
        case None => return Err(WrongType);
        case Some(a) => out := out + [a];
      }
    }
    return Ok(out);
  }

  /** The predicates the listing asks for, as statements about rows. */
  function Conditions(filter: ArchivedFilter): seq<Predicate> {
    [Equals(UserId, 1)] +
    if !filter.isSet then [] else if filter.value then [IsNotNull(ArchivedAt)] else [IsNull(ArchivedAt)]
  }

  function ConditionTexts(filter: ArchivedFilter): seq<string> {
    ["userid = $1"] +
    if !filter.isSet then [] else if filter.value then ["archivedat IS NOT NULL"] else ["archivedat IS NULL"]
  }

  /** The page the listing runs its three queries with. */
  function ListPage(owner: Uuid, filter: ArchivedFilter, first: Option<Int>, skip: Option<Int>, ascending: bool): Page {
    Page(Join(ColumnNames(ADDRESS_COLUMNS), ", "), ConditionTexts(filter), [UuidValue(owner)], ["id"], ascending, first, skip)
  }

  method ListUserAddresses(rows: seq<Address>, owner: Uuid, filter: ArchivedFilter,
                           first: Option<Int>, skip: Option<Int>, ascending: bool, lost: Outages)
    returns (r: Result<Connection, SqlError>)
    ensures r == ListAnswer(Listing(rows, owner, filter, ascending), first, skip, lost)
  {
    var predicates, args := ["userid = $1"], [UuidValue(owner)];
    if filter.isSet {
      if filter.value {
        predicates := predicates + ["archivedat IS NOT NULL"];
      } else {
        predicates := predicates + ["archivedat IS NULL"];
      }
    }
    var p := Page(Join(ColumnNames(ADDRESS_COLUMNS), ", "), predicates, args, ["id"], ascending, first, skip);
    assert p == ListPage(owner, filter, first, skip, ascending);
    r := ThreeQueries(rows, owner, filter, p, lost);
  }

  /** Count, page body, probe: the first error ends the request. */
  method ThreeQueries(rows: seq<Address>, ghost owner: Uuid, ghost filter: ArchivedFilter, p: Page, lost: Outages)
    returns (r: Result<Connection, SqlError>)
    requires p == ListPage(owner, filter, p.first, p.skip, p.ascending)
    ensures r == ListAnswer(Listing(rows, owner, filter, p.ascending), p.first, p.skip, lost)
  {
    var total := TotalCount(p, rows, lost.count);
    ListCount(rows, owner, filter, p.first, p.skip, p.ascending);
    if total.Err? {
      return Err(total.error);
    }
    var nodes := QueryNodes(rows, owner, filter, p, lost.nodes);
    if nodes.Err? {
      return Err(nodes.error);
    }
    var next := HasNextPage(p, rows, lost.next);
    ListNext(rows, owner, filter, p.first, p.skip, p.ascending);
    if next.Err? {
      return Err(next.error);
    }
    return Ok(Connection(nodes.value, total.value, next.value));
  }

  /** Runs the page body and scans its rows. */
  method QueryNodes(rows: seq<Address>, ghost owner: Uuid, ghost filter: ArchivedFilter, p: Page, lost: bool)
    returns (r: Result<seq<Address>, SqlError>)
    requires p == ListPage(owner, filter, p.first, p.skip, p.ascending)
    ensures r == if lost then Err(ConnectionLost)
                 else if From(p.skip) < 0 then Err(NegativeOffset)
                 else if p.first.Some? && p.first.value < 0 then Err(NegativeLimit)
                 else Ok(Window(Listing(rows, owner, filter, p.ascending), From(p.skip), p.first))
  {
    var q, args := NodesSQL(p);
    var answer := Send(rows, q, args, lost);
    ListNodes(rows, owner, filter, p.first, p.skip, p.ascending);
    if answer.Err? {
      return Err(answer.error);
    }
    r := ScanAddresses(answer.value.rows);
    ScanReadsTable(Window(Listing(rows, owner, filter, p.ascending), From(p.skip), p.first), r);
  }

  datatype Direction = Asc | Desc
  datatype AddressesError = Unauthorized | Database(error: SqlError)

  /** `addressOrder`: id is the only column, and only DESC reverses it. */
  function Ascending(orderBy: Option<Option<Direction>>): bool {
    orderBy != Some(Some(Desc))
  }

  // ----- What the resolver of User.addresses must answer -----

  /** The user's rows in the state asked for; without a value in the filter, archived and active ones. */
  ghost function Wanted(rows: seq<Address>, user: Uuid, filter: Option<Option<bool>>): set<Address> {
    set a | a in rows && a.userId == Some(user) &&
            (filter == Some(Some(true)) ==> a.archivedAt.Some?) && (filter == Some(Some(false)) ==> a.archivedAt.None?)
  }

  /** Those with a smaller id; with a greater id only if DESC is asked for. */
  ghost function Ahead(wanted: set<Address>, orderBy: Option<Option<Direction>>, a: Address): set<Address> {
    set b | b in wanted && if orderBy == Some(Some(Desc)) then a.id < b.id else b.id < a.id
  }

  /** Node i is the wanted row that has skip + i wanted rows ahead of it. */
  ghost predicate Shows(wanted: set<Address>, first: Option<Int>, orderBy: Option<Option<Direction>>, skip: Option<Int>, c: Connection) {
    var skipped := if skip.Some? then skip.value else 0;
    && c.totalCount == |wanted|
    && (forall i | 0 <= i < |c.nodes| :: c.nodes[i] in wanted && |Ahead(wanted, orderBy, c.nodes[i])| == skipped + i)
    && (first.None? ==> |c.nodes| == if skipped < |wanted| then |wanted| - skipped else 0)
    && (first.Some? ==> |c.nodes| <= first.value && (|c.nodes| < first.value ==> skipped + |c.nodes| >= |wanted|))
    && (c.hasNextPage <==> skipped + |c.nodes| < |wanted|)
  }

  ghost predicate IdsUp(nodes: seq<Address>) {
    forall i, j | 0 <= i < j < |nodes| :: nodes[i].id < nodes[j].id
  }

  ghost predicate IdsDown(nodes: seq<Address>) {
    forall i, j | 0 <= i < j < |nodes| :: nodes[j].id < nodes[i].id
  }

  /** The resolver of `User.addresses`: permission, then the page of what the arguments ask for. */
  method Addresses(rows: seq<Address>, user: Uuid, allowed: bool, filter: Option<Option<bool>>, first: Option<Int>,
                   orderBy: Option<Option<Direction>>, skip: Option<Int>, lost: Outages)
    returns (r: Result<Connection, AddressesError>)
    ensures !allowed ==> r == Err(Unauthorized)
    ensures allowed ==>
              var answer := ListAnswer(Listing(rows, user, ArchivedFilterOf(filter), Ascending(orderBy)), first, skip, lost);
              r == match answer case Ok(c) => Ok(c) case Err(e) => Err(Database(e))
    ensures r.Ok? <==> && allowed && !lost.count && !lost.nodes && (first.Some? ==> !lost.next)
                       && (skip.Some? ==> skip.value >= 0)
                       && (first.Some? ==> first.value >= 0 && first.value + (if skip.Some? then skip.value else 0) < 0x8000_0000_0000_0000)
    ensures r.Ok? ==> forall a | a in r.value.nodes :: a in rows && a.userId == Some(user)
    ensures r.Ok? && filter == Some(Some(true)) ==> forall a | a in r.value.nodes :: a.archivedAt.Some?
    ensures r.Ok? && filter == Some(Some(false)) ==> forall a | a in r.value.nodes :: a.archivedAt.None?
    ensures r.Ok? && DistinctIds(rows) ==> Shows(Wanted(rows, user, filter), first, orderBy, skip, r.value)
    ensures r.Ok? && DistinctIds(rows) && (orderBy == None || orderBy == Some(None) || orderBy == Some(Some(Asc))) ==>
              IdsUp(r.value.nodes)
    ensures r.Ok? && DistinctIds(rows) && orderBy == Some(Some(Desc)) ==> IdsDown(r.value.nodes)
    ensures r.Ok? && DistinctIds(rows) && (filter == None || filter == Some(None)) ==>
              r.value.totalCount == |set a | a in rows && a.userId == Some(user)|
  {
    if !allowed {
      return Err(Unauthorized);
    }
    var conn := ListUserAddresses(rows, user, ArchivedFilterOf(filter), first, skip, Ascending(orderBy), lost);
    if conn.Err? {
      return Err(Database(conn.error));
    }
    NodesSelected(rows, user, filter, first, orderBy, skip, conn.value);
    if DistinctIds(rows) {
      PageShows(rows, user, filter, first, orderBy, skip, conn.value);
    }
    return Ok(conn.value);
  }

  lemma NodesSelected(rows: seq<Address>, user: Uuid, filter: Option<Option<bool>>, first: Option<Int>,
                      orderBy: Option<Option<Direction>>, skip: Option<Int>, c: Connection)
    requires PageOf(Listing(rows, user, ArchivedFilterOf(filter), Ascending(orderBy)), first, skip) == Ok(c)
    ensures forall a | a in c.nodes ::
              && a in rows && a.userId == Some(user)
              && (filter == Some(Some(true)) ==> a.archivedAt.Some?)
              && (filter == Some(Some(false)) ==> a.archivedAt.None?)
  {
    var listing := Listing(rows, user, ArchivedFilterOf(filter), Ascending(orderBy));
    NextPageMeansMoreRows(listing, first, skip);
    forall a | a in c.nodes ensures a in rows && Selected(user, ArchivedFilterOf(filter), a) {
      ListingSelects(rows, user, ArchivedFilterOf(filter), Ascending(orderBy), a);
    }
  }

  /** The ids of a page run in the order asked for, and its nodes are those their ranks say. */
  lemma PageShows(rows: seq<Address>, user: Uuid, filter: Option<Option<bool>>, first: Option<Int>,
                  orderBy: Option<Option<Direction>>, skip: Option<Int>, c: Connection)
    requires DistinctIds(rows)
    requires PageOf(Listing(rows, user, ArchivedFilterOf(filter), Ascending(orderBy)), first, skip) == Ok(c)
    ensures Shows(Wanted(rows, user, filter), first, orderBy, skip, c)
    ensures if orderBy == Some(Some(Desc)) then IdsDown(c.nodes) else IdsUp(c.nodes)
    ensures filter == None || filter == Some(None) ==> c.totalCount == |set a | a in rows && a.userId == Some(user)|
  {
    var listing := Listing(rows, user, ArchivedFilterOf(filter), Ascending(orderBy));
    ListingRuns(rows, user, filter, orderBy);
    ListingHasWanted(rows, user, filter, Ascending(orderBy));
    PageIs(listing, first, skip, c);
    OrderOfPart(listing, orderBy, From(skip), c.nodes);
    PageOfSorted(listing, Wanted(rows, user, filter), first, orderBy, skip, c);
    if filter == None || filter == Some(None) {
      AllWanted(rows, user, filter);
    }
  }

  lemma ListingRuns(rows: seq<Address>, user: Uuid, filter: Option<Option<bool>>, orderBy: Option<Option<Direction>>)
    requires DistinctIds(rows)
    ensures var listing := Listing(rows, user, ArchivedFilterOf(filter), Ascending(orderBy));
            if orderBy == Some(Some(Desc)) then IdsDown(listing) else IdsUp(listing)
  {
    ListingIsSorted(rows, user, ArchivedFilterOf(filter), Ascending(orderBy));
  }

  lemma AllWanted(rows: seq<Address>, user: Uuid, filter: Option<Option<bool>>)
    requires filter == None || filter == Some(None)
    ensures Wanted(rows, user, filter) == set a | a in rows && a.userId == Some(user)
  {
  }

  /** A contiguous part of the listing, from skip on. */
  ghost predicate IsPart(listing: seq<Address>, skip: nat, nodes: seq<Address>) {
    forall i | 0 <= i < |nodes| :: skip + i < |listing| && nodes[i] == listing[skip + i]
  }

  /** What a page is, as far as its size, its place and its flag go. */
  ghost predicate IsPage(listing: seq<Address>, first: Option<Int>, skip: Option<Int>, c: Connection) {
    && (skip.Some? ==> skip.value >= 0) && (first.Some? ==> first.value >= 0)
    && c.totalCount == |listing|
    && IsPart(listing, From(skip), c.nodes)
    && (first.None? ==> |c.nodes| == if From(skip) < |listing| then |listing| - From(skip) else 0)
    && (first.Some? ==> |c.nodes| <= first.value && (|c.nodes| < first.value ==> From(skip) + |c.nodes| >= |listing|))
    && (c.hasNextPage <==> From(skip) + |c.nodes| < |listing|)
  }

  lemma PageIs(listing: seq<Address>, first: Option<Int>, skip: Option<Int>, c: Connection)
    requires PageOf(listing, first, skip) == Ok(c)
    ensures IsPage(listing, first, skip, c)
  {
    NextPageMeansMoreRows(listing, first, skip);
    WindowOf(listing, From(skip), first);
  }

  lemma PageOfSorted(listing: seq<Address>, wanted: set<Address>, first: Option<Int>, orderBy: Option<Option<Direction>>,
                     skip: Option<Int>, c: Connection)
    requires forall a :: a in wanted <==> a in listing
    requires if orderBy == Some(Some(Desc)) then IdsDown(listing) else IdsUp(listing)
    requires IsPage(listing, first, skip, c)
    ensures Shows(wanted, first, orderBy, skip, c)
  {
    AsManyAs(listing, wanted);
    RanksOfPart(listing, wanted, orderBy, From(skip), c.nodes);
  }

  lemma PartAt(listing: seq<Address>, skip: nat, nodes: seq<Address>, i: nat)
    requires IsPart(listing, skip, nodes) && i < |nodes|
    ensures skip + i < |listing| && nodes[i] == listing[skip + i]
  {
  }

  lemma OrderOfPart(listing: seq<Address>, orderBy: Option<Option<Direction>>, skip: nat, nodes: seq<Address>)
    requires if orderBy == Some(Some(Desc)) then IdsDown(listing) else IdsUp(listing)
    requires IsPart(listing, skip, nodes)
    ensures if orderBy == Some(Some(Desc)) then IdsDown(nodes) else IdsUp(nodes)
  {
    forall i, j | 0 <= i < j < |nodes|
      ensures if orderBy == Some(Some(Desc)) then nodes[j].id < nodes[i].id else nodes[i].id < nodes[j].id
    {
      PartAt(listing, skip, nodes, i);
      PartAt(listing, skip, nodes, j);
    }
  }

  lemma RanksOfPart(listing: seq<Address>, wanted: set<Address>, orderBy: Option<Option<Direction>>, skip: nat, nodes: seq<Address>)
    requires forall a :: a in wanted <==> a in listing
    requires if orderBy == Some(Some(Desc)) then IdsDown(listing) else IdsUp(listing)
    requires IsPart(listing, skip, nodes)
    ensures forall i | 0 <= i < |nodes| :: nodes[i] in wanted && |Ahead(wanted, orderBy, nodes[i])| == skip + i
  {
    forall i | 0 <= i < |nodes| ensures nodes[i] in wanted && |Ahead(wanted, orderBy, nodes[i])| == skip + i {
      PartAt(listing, skip, nodes, i);
      RankIs(listing, wanted, orderBy, skip + i);
    }
  }

  lemma RankIs(listing: seq<Address>, wanted: set<Address>, orderBy: Option<Option<Direction>>, p: nat)
    requires p < |listing| && forall a :: a in wanted <==> a in listing
    requires if orderBy == Some(Some(Desc)) then IdsDown(listing) else IdsUp(listing)
    ensures |Ahead(wanted, orderBy, listing[p])| == p
  {
    forall b | b in Ahead(wanted, orderBy, listing[p]) ensures b in listing[..p] {
      var q :| 0 <= q < |listing| && listing[q] == b;
    }
    AsManyAs(listing[..p], Ahead(wanted, orderBy, listing[p]));
  }

  lemma {:induction false} AsManyAs(listing: seq<Address>, all: set<Address>)
    requires DistinctIds(listing) && forall a :: a in all <==> a in listing
    ensures |all| == |listing|
  {
    if listing == [] {
      assert all == {};
    } else {
      var last := listing[|listing| - 1];
      AsManyAs(listing[..|listing| - 1], all - {last});
    }
  }

  lemma ListingHasWanted(rows: seq<Address>, user: Uuid, filter: Option<Option<bool>>, ascending: bool)
    requires DistinctIds(rows)
    ensures forall a :: a in Wanted(rows, user, filter) <==> a in Listing(rows, user, ArchivedFilterOf(filter), ascending)
  {
    var listing := Listing(rows, user, ArchivedFilterOf(filter), ascending);
    forall a ensures a in Wanted(rows, user, filter) <==> a in listing {
      if a in listing {
        ListingSelects(rows, user, ArchivedFilterOf(filter), ascending, a);
      } else if a in rows {
        ListingHasEach(rows, user, ArchivedFilterOf(filter), ascending);
        assert a !in multiset(listing);
      }
    }
  }

  lemma ListingSelects(rows: seq<Address>, owner: Uuid, filter: ArchivedFilter, ascending: bool, a: Address)
    requires a in Listing(rows, owner, filter, ascending)
    ensures a in rows && Selected(owner, filter, a)
  {
    assert a in multiset(Listing(rows, owner, filter, ascending));
    assert a in multiset(Owned(rows, owner, filter));
    FilterCount(rows, b => Selected(owner, filter, b), a);
    assert a in multiset(rows);
  }

  // ----- Why it computes that -----

  lemma ConditionTextsDenote(filter: ArchivedFilter)
    ensures ConditionTexts(filter) ==
            seq(|Conditions(filter)|, i requires 0 <= i < |Conditions(filter)| => PredicateText(Conditions(filter)[i]))
  {
    assert Placeholder(1) == "$1" by {
      assert FormatNat(1) == ['1'];
    }
    assert PredicateText(Equals(UserId, 1)) == "userid = $1";
    assert PredicateText(IsNotNull(ArchivedAt)) == "archivedat IS NOT NULL";
    assert PredicateText(IsNull(ArchivedAt)) == "archivedat IS NULL";
  }

  lemma ListPageDenotes(owner: Uuid, filter: ArchivedFilter, first: Option<Int>, skip: Option<Int>, ascending: bool)
    ensures Denotes(ListPage(owner, filter, first, skip, ascending), ADDRESS_COLUMNS, Conditions(filter), Order(ascending))
  {
    ConditionTextsDenote(filter);
    ConditionsBind(owner, filter);
    assert ColumnName(Order(ascending)[0].column) == "id";
  }

  lemma ConditionsBind(owner: Uuid, filter: ArchivedFilter)
    ensures HighestInWhere(Conditions(filter)) == 1 && CheckPredicates(Conditions(filter), [UuidValue(owner)]).None?
  {
    var args := [UuidValue(owner)];
    var rest := if !filter.isSet then [] else if filter.value then [IsNotNull(ArchivedAt)] else [IsNull(ArchivedAt)];
    assert Conditions(filter)[1..] == rest;
    if filter.isSet {
      assert rest[1..] == [];
    }
    assert HighestInWhere(rest) == 0 && CheckPredicates(rest, args).None?;
  }

  lemma ConditionsSelect(rows: seq<Address>, owner: Uuid, filter: ArchivedFilter)
    ensures Matching(rows, Conditions(filter), [UuidValue(owner)]) == Owned(rows, owner, filter)
  {
    var where, args := Conditions(filter), [UuidValue(owner)];
    forall a ensures KeepsAll(where, args, a) == Selected(owner, filter, a) {
      assert where[0] == Equals(UserId, 1);
      if filter.isSet {
        assert where == [where[0], where[1]];
        assert where[1] == if filter.value then IsNotNull(ArchivedAt) else IsNull(ArchivedAt);
        assert KeepsAll(where, args, a) == (Keeps(where[0], args, a) && Keeps(where[1], args, a));
      } else {
        assert where == [where[0]];
        assert KeepsAll(where, args, a) == Keeps(where[0], args, a);
      }
    }
    FilterAgrees(rows, a => KeepsAll(where, args, a), a => Selected(owner, filter, a));
  }

  lemma ListCount(rows: seq<Address>, owner: Uuid, filter: ArchivedFilter, first: Option<Int>, skip: Option<Int>, ascending: bool)
    ensures var p := ListPage(owner, filter, first, skip, ascending);
            ScanNumber(Execute(rows, CountText(p), p.args)) == Ok(|Listing(rows, owner, filter, ascending)|)
  {
    ListPageDenotes(owner, filter, first, skip, ascending);
    ConditionsSelect(rows, owner, filter);
    SortKeepsSize(Order(ascending), Owned(rows, owner, filter));
    CountMeaning(ListPage(owner, filter, first, skip, ascending), ADDRESS_COLUMNS, Conditions(filter), Order(ascending), rows);
  }

  lemma ListNodes(rows: seq<Address>, owner: Uuid, filter: ArchivedFilter, first: Option<Int>, skip: Option<Int>, ascending: bool)
    ensures var p := ListPage(owner, filter, first, skip, ascending);
            Execute(rows, NodesText(p), NodesArgs(p)) ==
            if From(skip) < 0 then Err(NegativeOffset)
            else if first.Some? && first.value < 0 then Err(NegativeLimit)
            else Ok(Table(ProjectAll(Window(Listing(rows, owner, filter, ascending), From(skip), first), ADDRESS_COLUMNS)))
  {
    ListPageDenotes(owner, filter, first, skip, ascending);
    ConditionsSelect(rows, owner, filter);
    NodesMeaning(ListPage(owner, filter, first, skip, ascending), ADDRESS_COLUMNS, Conditions(filter), Order(ascending), rows);
  }

  lemma ListNext(rows: seq<Address>, owner: Uuid, filter: ArchivedFilter, first: Option<Int>, skip: Option<Int>, ascending: bool)
    ensures var p := ListPage(owner, filter, first, skip, ascending);
            var offset := if first.Some? then Plus(first.value, From(skip)) else 0;
            first.Some? ==>
              ScanTruth(Execute(rows, ExistsText(p), ExistsArgs(p))) ==
              if offset < 0 then Err(NegativeOffset) else Ok(offset < |Listing(rows, owner, filter, ascending)|)
  {
    ListPageDenotes(owner, filter, first, skip, ascending);
    ConditionsSelect(rows, owner, filter);
    SortKeepsSize(Order(ascending), Owned(rows, owner, filter));
    if first.Some? {
      ExistsMeaning(ListPage(owner, filter, first, skip, ascending), ADDRESS_COLUMNS, Conditions(filter), Order(ascending), rows);
    }
  }

  lemma ScanReadsTable(rows: seq<Address>, r: Result<seq<Address>, SqlError>)
    requires Scans(ProjectAll(rows, ADDRESS_COLUMNS), r)
    ensures r == Ok(rows)
  {
    var table := ProjectAll(rows, ADDRESS_COLUMNS);
    forall i | 0 <= i < |rows| ensures ScanAddress(table[i]) == Some(rows[i]) {
      ScanReadsProjection(rows[i]);
    }
    if r.Ok? {
      assert r.value == rows;
    }
  }

  // ----- What a page says about the whole -----

  /**
   A request succeeds exactly when neither bound is negative and their sum fits the machine
   integer: the page body alone would succeed without the last condition.
   */
  lemma ListingSucceeds(listing: seq<Address>, first: Option<Int>, skip: Option<Int>)
    ensures PageOf(listing, first, skip).Ok? <==>
            From(skip) >= 0 && (first.Some? ==> first.value >= 0 && first.value + From(skip) < 0x8000_0000_0000_0000)
  {
  }

  /** One row after the largest offset: a request with no negative bound that fails. */
  lemma SumOverflows(listing: seq<Address>)
    ensures PageOf(listing, Some(1), Some(0x7FFF_FFFF_FFFF_FFFF)) == Err(NegativeOffset)
    ensures PageOf(listing, None, Some(0x7FFF_FFFF_FFFF_FFFF)).Ok?
  {
  }

  /** There is a next page exactly when rows are left after this one; an unbounded page takes all. */
  lemma NextPageMeansMoreRows(listing: seq<Address>, first: Option<Int>, skip: Option<Int>)
    requires PageOf(listing, first, skip).Ok?
    ensures var c := PageOf(listing, first, skip).value;
            && c.totalCount == |listing|
            && (c.hasNextPage <==> From(skip) + |c.nodes| < c.totalCount)
            && (first.None? ==> !c.hasNextPage && c.nodes == Drop(listing, From(skip)))
            && forall i | 0 <= i < |c.nodes| :: c.nodes[i] == listing[From(skip) + i]
  {
    WindowOf(listing, From(skip), first);
  }

  lemma WindowOf<T>(listing: seq<T>, skip: nat, first: Option<Int>)
    requires first.Some? ==> first.value >= 0
    ensures var w := Window(listing, skip, first);
            && (first.None? ==> |w| == if skip < |listing| then |listing| - skip else 0)
            && (first.Some? ==> |w| == if skip + first.value < |listing| then first.value
                                       else if skip < |listing| then |listing| - skip else 0)
            && forall i | 0 <= i < |w| :: w[i] == listing[skip + i]
  {
  }

  // ----- Walking the pages -----

  /** The pages a client was shown, and the error that ended its walk, if one did. */
  datatype Walked = Walked(pages: seq<Connection>, error: Option<SqlError>)

  /** A client that adds `first` to `skip` for as long as there is a next page. */
  function Walk(listing: seq<Address>, first: Int, skip: Int): Walked
    requires first >= 1 && skip >= 0
    decreases if skip < |listing| then |listing| - skip else 0
  {
    match PageOf(listing, Some(first), Some(skip))
    case Err(e) => Walked([], Some(e))
    case Ok(page) =>
      if !page.hasNextPage then Walked([page], None) else
        var rest := Walk(listing, first, skip + first);
        Walked([page] + rest.pages, rest.error)
  }

  function Nodes(pages: seq<Connection>): seq<Address> {
    if pages == [] then [] else pages[0].nodes + Nodes(pages[1..])
  }

  /** How many pages n rows take; no rows take one. */
  function Pages(n: nat, first: nat): (k: nat)
    requires first >= 1
    ensures k >= 1
  {
    if n <= first then 1 else 1 + Pages(n - first, first)
  }

  /** Where the last of those pages ends. */
  function FarEnd(n: nat, first: nat): (end: nat)
    requires first >= 1
    ensures end >= first
  {
    if n <= first then first else first + FarEnd(n - first, first)
  }

  lemma {:induction false} FarEndIs(n: nat, first: nat)
    requires first >= 1
    ensures FarEnd(n, first) == Pages(n, first) * first
  {
    if n > first {
      FarEndIs(n - first, first);
      OnePageOn(Pages(n - first, first), first);
    }
  }

  lemma OnePageOn(k: nat, first: nat)
    ensures (1 + k) * first == first + k * first
  {
  }

  /** Pages is max(1, ceil(n / first)). */
  lemma {:induction false} PagesIsCeiling(n: nat, first: nat)
    requires first >= 1
    ensures n <= Pages(n, first) * first
    ensures Pages(n, first) > 1 ==> (Pages(n, first) - 1) * first < n
  {
    if n > first {
      PagesIsCeiling(n - first, first);
      OnePageOn(Pages(n - first, first), first);
      OnePageOn(Pages(n - first, first) - 1, first);
    }
  }

  lemma PageFacts(listing: seq<Address>, first: Int, skip: Int)
    requires first >= 1 && skip >= 0 && (skip == 0 || skip < |listing|)
    ensures PageOf(listing, Some(first), Some(skip)).Ok? <==> skip + first < 0x8000_0000_0000_0000
    ensures skip + first < 0x8000_0000_0000_0000 ==>
              var page := PageOf(listing, Some(first), Some(skip)).value;
              && page.hasNextPage == (skip + first < |listing|)
              && page.nodes == if skip + first < |listing| then listing[skip..skip + first] else listing[skip..]
    ensures skip + first >= 0x8000_0000_0000_0000 ==> PageOf(listing, Some(first), Some(skip)) == Err(NegativeOffset)
  {
  }

  lemma SliceSplits<T>(s: seq<T>, i: nat, j: nat)
    requires i <= j <= |s|
    ensures s[i..] == s[i..j] + s[j..]
  {
  }

  /** What a walk of this listing from here comes to. */
  ghost predicate WalksTo(listing: seq<Address>, first: Int, skip: Int, w: Walked)
    requires first >= 1 && 0 <= skip && (skip == 0 || skip < |listing|)
  {
    && (w.error.None? <==> skip + FarEnd(|listing| - skip, first) < 0x8000_0000_0000_0000)
    && (w.error.None? ==> |w.pages| == Pages(|listing| - skip, first) && Nodes(w.pages) == listing[skip..])
    && (w.error.Some? ==> w.error == Some(NegativeOffset) && Nodes(w.pages) <= listing[skip..])
  }

  lemma FailingPage(listing: seq<Address>, first: Int, skip: Int)
    requires first >= 1 && skip >= 0 && (skip == 0 || skip < |listing|) && skip + first >= 0x8000_0000_0000_0000
    ensures WalksTo(listing, first, skip, Walk(listing, first, skip))
  {
    PageFacts(listing, first, skip);
    assert Walk(listing, first, skip) == Walked([], Some(NegativeOffset));
    assert FarEnd(|listing| - skip, first) >= first;
  }

  lemma LastPage(listing: seq<Address>, first: Int, skip: Int)
    requires first >= 1 && skip >= 0 && (skip == 0 || skip < |listing|)
    requires |listing| <= skip + first < 0x8000_0000_0000_0000
    ensures WalksTo(listing, first, skip, Walk(listing, first, skip))
  {
    PageFacts(listing, first, skip);
    var page := PageOf(listing, Some(first), Some(skip)).value;
    assert Walk(listing, first, skip) == Walked([page], None);
    assert Nodes([page]) == page.nodes;
  }

  /**
   A walk comes to its end exactly when the far end of the last page is still a machine integer;
   then it has shown everything, page by page. If not, what it has shown is the start of it.
   */
  lemma {:induction false} WalkIs(listing: seq<Address>, first: Int, skip: Int)
    requires first >= 1 && skip >= 0 && (skip == 0 || skip < |listing|)
    ensures WalksTo(listing, first, skip, Walk(listing, first, skip))
    decreases |listing| - skip
  {
    if skip + first >= 0x8000_0000_0000_0000 {
      FailingPage(listing, first, skip);
    } else if |listing| <= skip + first {
      LastPage(listing, first, skip);
    } else {
      WalkIs(listing, first, skip + first);
      InnerPage(listing, first, skip);
    }
  }

  lemma InnerPage(listing: seq<Address>, first: Int, skip: Int)
    requires first >= 1 && 0 <= skip && skip + first < |listing| && skip + first < 0x8000_0000_0000_0000
    requires WalksTo(listing, first, skip + first, Walk(listing, first, skip + first))
    ensures WalksTo(listing, first, skip, Walk(listing, first, skip))
  {
    WalkStep(listing, first, skip);
    WalkOn(listing, first, skip, Walk(listing, first, skip), Walk(listing, first, skip + first));
  }

  lemma WalkOn(listing: seq<Address>, first: Int, skip: Int, w: Walked, rest: Walked)
    requires first >= 1 && 0 <= skip && skip + first < |listing| && skip + first < 0x8000_0000_0000_0000
    requires WalksTo(listing, first, skip + first, rest)
    requires w.error == rest.error && |w.pages| == 1 + |rest.pages|
    requires Nodes(w.pages) == listing[skip..skip + first] + Nodes(rest.pages)
    ensures WalksTo(listing, first, skip, w)
  {
    SliceSplits(listing, skip, skip + first);
  }

  lemma WalkStep(listing: seq<Address>, first: Int, skip: Int)
    requires first >= 1 && 0 <= skip && skip + first < |listing| && skip + first < 0x8000_0000_0000_0000
    ensures var w, rest := Walk(listing, first, skip), Walk(listing, first, skip + first);
            && w.error == rest.error && |w.pages| == 1 + |rest.pages|
            && Nodes(w.pages) == listing[skip..skip + first] + Nodes(rest.pages)
  {
    PageFacts(listing, first, skip);
    var w, rest := Walk(listing, first, skip), Walk(listing, first, skip + first);
    assert w.pages[1..] == rest.pages;
  }

  /** No walk over up to 2^62 rows fails. */
  lemma SmallTablesWalk(n: nat, first: Int)
    requires first >= 1 && n <= 0x4000_0000_0000_0000
    ensures Pages(n, first) * first < 0x8000_0000_0000_0000
  {
    PagesIsCeiling(n, first);
    OnePageOn(Pages(n, first) - 1, first);
  }

  /**
   Walking a user's addresses shows every selected row exactly once, in id order, on
   max(1, ceil(total / first)) pages; it fails exactly when that many pages reach past the largest
   machine integer.
   */
  lemma WalkShowsEverything(rows: seq<Address>, owner: Uuid, filter: ArchivedFilter, ascending: bool, first: Int)
    requires first >= 1 && DistinctIds(rows)
    ensures var listing := Listing(rows, owner, filter, ascending);
            var w := Walk(listing, first, 0);
            && (w.error.None? <==> Pages(|listing|, first) * first < 0x8000_0000_0000_0000)
            && (w.error.None? ==>
                  && |w.pages| == Pages(|listing|, first)
                  && Nodes(w.pages) == listing
                  && forall a | a in rows :: multiset(Nodes(w.pages))[a] == if Selected(owner, filter, a) then 1 else 0)
  {
    var listing := Listing(rows, owner, filter, ascending);
    WalkIs(listing, first, 0);
    FarEndIs(|listing|, first);
    assert listing[0..] == listing;
    ListingHasEach(rows, owner, filter, ascending);
  }

  lemma ListingHasEach(rows: seq<Address>, owner: Uuid, filter: ArchivedFilter, ascending: bool)
    requires DistinctIds(rows)
    ensures forall a | a in rows ::
              multiset(Listing(rows, owner, filter, ascending))[a] == if Selected(owner, filter, a) then 1 else 0
  {
    forall a | a in rows
      ensures multiset(Listing(rows, owner, filter, ascending))[a] == if Selected(owner, filter, a) then 1 else 0
    {
      FilterCount(rows, a => Selected(owner, filter, a), a);
      DistinctOnce(rows, a);
    }
  }

  /** The order the pages come in. */
  lemma ListingIsSorted(rows: seq<Address>, owner: Uuid, filter: ArchivedFilter, ascending: bool)
    requires DistinctIds(rows)
    ensures var s := Listing(rows, owner, filter, ascending);
            forall i, j | 0 <= i < j < |s| :: if ascending then s[i].id < s[j].id else s[j].id < s[i].id
  {
    var owned := Owned(rows, owner, filter);
    assert DistinctIds(owned) by {
      FilterKeepsDistinct(rows, a => Selected(owner, filter, a));
    }
    ListingInOrder(owned, ascending);
    assert Listing(rows, owner, filter, ascending) == Sort(Order(ascending), owned);
  }

  lemma ListingInOrder(rows: seq<Address>, ascending: bool)
    requires DistinctIds(rows)
    ensures var s := Sort(Order(ascending), rows);
            forall i, j | 0 <= i < j < |s| :: if ascending then s[i].id < s[j].id else s[j].id < s[i].id
  {
    var s := Sort(Order(ascending), rows);
    assert Order(ascending)[0].column.IdColumn?;
    SortSorts(Order(ascending), rows);
    forall i, j | 0 <= i < j < |s| ensures if ascending then s[i].id < s[j].id else s[j].id < s[i].id {
      assert Less(Order(ascending), s[i], s[j]);
      IdOrder(ascending, s[i], s[j]);
    }
  }

  lemma {:induction false} DistinctOnce(rows: seq<Address>, a: Address)
    requires DistinctIds(rows) && a in rows
    ensures multiset(rows)[a] == 1
  {
    assert rows == [rows[0]] + rows[1..];
    if a in rows[1..] {
      DistinctOnce(rows[1..], a);
    }
  }

  /** Walking in the other direction fails on the same tables, or shows the same rows backwards. */
  lemma DescendingWalkIsReversed(rows: seq<Address>, owner: Uuid, filter: ArchivedFilter, first: Int)
    requires first >= 1 && DistinctIds(rows)
    ensures var up := Walk(Listing(rows, owner, filter, true), first, 0);
            var down := Walk(Listing(rows, owner, filter, false), first, 0);
            && (up.error.None? <==> down.error.None?)
            && (up.error.None? ==> Nodes(down.pages) == Reverse(Nodes(up.pages)) && |down.pages| == |up.pages|)
  {
    var up, down := Listing(rows, owner, filter, true), Listing(rows, owner, filter, false);
    OneReversesTheOther(rows, owner, filter);
    WalkIs(up, first, 0);
    WalkIs(down, first, 0);
    assert up[0..] == up && down[0..] == down;
  }

  lemma OneReversesTheOther(rows: seq<Address>, owner: Uuid, filter: ArchivedFilter)
    requires DistinctIds(rows)
    ensures Listing(rows, owner, filter, false) == Reverse(Listing(rows, owner, filter, true))
    ensures |Listing(rows, owner, filter, false)| == |Listing(rows, owner, filter, true)|
  {
    var owned := Owned(rows, owner, filter);
    SortKeepsSize(Order(true), owned);
    SortKeepsSize(Order(false), owned);
    FilterKeepsDistinct(rows, a => Selected(owner, filter, a));
    DescendingIsReversed(owned);
  }

  // ----- The tri-state filter -----

  predicate IsArchived(a: Address) { a.archivedAt.Some? }
  predicate IsActive(a: Address) { a.archivedAt.None? }

  const UNFILTERED := ArchivedFilter(false, false)
  const ARCHIVED := ArchivedFilter(true, true)
  const ACTIVE := ArchivedFilter(true, false)

  /**
   In either direction the unfiltered listing is an order-preserving merge of the archived and the
   active one: picking out either kind of row gives that listing, and the two share no row.
   */
  lemma ArchivedFilterPartitions(rows: seq<Address>, owner: Uuid, ascending: bool)
    requires DistinctIds(rows)
    ensures var all := Listing(rows, owner, UNFILTERED, ascending);
            var archived := Listing(rows, owner, ARCHIVED, ascending);
            var active := Listing(rows, owner, ACTIVE, ascending);
            && Filter(all, IsArchived) == archived
            && Filter(all, IsActive) == active
            && |all| == |archived| + |active|
            && multiset(archived) !! multiset(active)
  {
    FilteredListing(rows, owner, ARCHIVED, ascending, IsArchived);
    FilteredListing(rows, owner, ACTIVE, ascending, IsActive);
    var all := Listing(rows, owner, UNFILTERED, ascending);
    FilterSplits(all, IsArchived, IsActive);
    FiltersDisjoint(all);
  }

  lemma FiltersDisjoint(all: seq<Address>)
    ensures multiset(Filter(all, IsArchived)) !! multiset(Filter(all, IsActive))
  {
    forall a ensures a !in multiset(Filter(all, IsArchived)) || a !in multiset(Filter(all, IsActive)) {
    }
  }

  lemma FilteredListing(rows: seq<Address>, owner: Uuid, filter: ArchivedFilter, ascending: bool, f: Address -> bool)
    requires DistinctIds(rows) && filter.isSet && forall a :: f(a) == (filter.value == a.archivedAt.Some?)
    ensures Filter(Listing(rows, owner, UNFILTERED, ascending), f) == Listing(rows, owner, filter, ascending)
  {
    var all: Address -> bool := a => Selected(owner, UNFILTERED, a);
    var some: Address -> bool := a => Selected(owner, filter, a);
    FilterKeepsDistinct(rows, all);
    assert Order(ascending)[0].column.IdColumn?;
    FilterAgrees(rows, all, a => Selected(owner, UNFILTERED, a));
    FilterAgrees(rows, some, a => Selected(owner, filter, a));
    FilterOfSort(Order(ascending), Filter(rows, all), f);
    FilterTwice(rows, all, f, some);
  }

  lemma {:induction false} FilterSplits(rows: seq<Address>, f: Address -> bool, g: Address -> bool)
    requires forall a :: f(a) <==> !g(a)
    ensures |rows| == |Filter(rows, f)| + |Filter(rows, g)|
  {
    if rows != [] {
      FilterSplits(rows[1..], f, g);
    }
  }
}
