/** Filtering and sorting rows, and why a listing in id order is determined by its contents. */
module Sorting {
  import opened AddressRows
  import opened SqlQuery

  function Filter(rows: seq<Address>, f: Address -> bool): (r: seq<Address>)
    ensures forall a | a in r :: a in rows && f(a)
    ensures forall a | a in rows && f(a) :: a in r
    ensures |r| <= |rows|
  {
    if rows == [] then [] else
      (if f(rows[0]) then [rows[0]] else []) + Filter(rows[1..], f)
  }

  /** The columns the service orders by never hold NULL. */
  function OrderKey(a: Address, c: Column): int {
    match c case IdColumn => a.id case _ => a.version
  }

  predicate Less(order: seq<OrderItem>, a: Address, b: Address) {
    if order == [] then false else
      var item := order[0];
      var x, y := OrderKey(a, item.column), OrderKey(b, item.column);
      if x == y then Less(order[1..], a, b) else if item.ascending then x < y else y < x
  }

  function Insert(order: seq<OrderItem>, a: Address, rows: seq<Address>): (r: seq<Address>)
    ensures multiset(r) == multiset(rows) + multiset{a}
  {
    if rows == [] || !Less(order, rows[0], a) then [a] + rows else
      assert rows == [rows[0]] + rows[1..];
      [rows[0]] + Insert(order, a, rows[1..])
  }

  /** ORDER BY. */
  function Sort(order: seq<OrderItem>, rows: seq<Address>): (r: seq<Address>)
    ensures multiset(r) == multiset(rows)
  {
    if rows == [] then [] else
      assert rows == [rows[0]] + rows[1..];
      Insert(order, rows[0], Sort(order, rows[1..]))
  }

  predicate DistinctIds(rows: seq<Address>) {
    forall i, j | 0 <= i < j < |rows| :: rows[i].id != rows[j].id
  }

  predicate StrictlySorted(order: seq<OrderItem>, rows: seq<Address>) {
    forall i, j | 0 <= i < j < |rows| :: Less(order, rows[i], rows[j])
  }

  /** An order that has the id among its columns. */
  predicate TotalOrder(order: seq<OrderItem>) {
    exists k :: 0 <= k < |order| && order[k].column.IdColumn?
  }

  // ----- The order is strict and, with the id among its columns, total -----

  lemma {:induction false} LessIsTransitive(order: seq<OrderItem>, a: Address, b: Address, c: Address)
    requires Less(order, a, b) && Less(order, b, c)
    ensures Less(order, a, c)
  {
    var x, y, z := OrderKey(a, order[0].column), OrderKey(b, order[0].column), OrderKey(c, order[0].column);
    if x == y && y == z {
      LessIsTransitive(order[1..], a, b, c);
    }
  }

  lemma {:induction false} LessIsAsymmetric(order: seq<OrderItem>, a: Address, b: Address)
    ensures !(Less(order, a, b) && Less(order, b, a))
  {
    if order != [] {
      LessIsAsymmetric(order[1..], a, b);
    }
  }

  lemma {:induction false} LessIsTotal(order: seq<OrderItem>, a: Address, b: Address)
    requires TotalOrder(order) && a.id != b.id
    ensures Less(order, a, b) || Less(order, b, a)
  {
    if !order[0].column.IdColumn? {
      var k :| 0 <= k < |order| && order[k].column.IdColumn?;
      assert order[1..][k - 1].column.IdColumn?;
      LessIsTotal(order[1..], a, b);
    }
  }

  // ----- Sorting sorts -----

  lemma {:induction false} InsertKeepsSorted(order: seq<OrderItem>, a: Address, rows: seq<Address>)
    requires TotalOrder(order) && StrictlySorted(order, rows) && forall b | b in rows :: b.id != a.id
    ensures StrictlySorted(order, Insert(order, a, rows))
  {
    if rows != [] {
      if Less(order, rows[0], a) {
        InsertKeepsSorted(order, a, rows[1..]);
        var r := Insert(order, a, rows[1..]);
        forall b | b in r ensures Less(order, rows[0], b) {
          assert b in multiset(r);
        }
      } else {
        LessIsTotal(order, a, rows[0]);
        forall j | 0 < j < |rows| ensures Less(order, a, rows[j]) {
          LessIsTransitive(order, a, rows[0], rows[j]);
        }
      }
    }
  }

  lemma {:induction false} SortSorts(order: seq<OrderItem>, rows: seq<Address>)
    requires TotalOrder(order) && DistinctIds(rows)
    ensures StrictlySorted(order, Sort(order, rows))
  {
    if rows != [] {
      var rest := Sort(order, rows[1..]);
      SortSorts(order, rows[1..]);
      forall b | b in rest ensures b.id != rows[0].id {
        assert b in multiset(rows[1..]);
      }
      InsertKeepsSorted(order, rows[0], rest);
    }
  }

  lemma HeadComesFirst(order: seq<OrderItem>, s: seq<Address>, a: Address)
    requires StrictlySorted(order, s) && a in multiset(s)
    ensures a == s[0] || Less(order, s[0], a)
  {
    var i :| 0 <= i < |s| && s[i] == a;
  }

  lemma TailsAgree(s: seq<Address>, t: seq<Address>)
    requires |s| > 0 && |t| > 0 && s[0] == t[0] && multiset(s) == multiset(t)
    ensures multiset(s[1..]) == multiset(t[1..])
  {
    assert s == [s[0]] + s[1..] && t == [s[0]] + t[1..];
    assert multiset(s[1..]) == multiset(s) - multiset{s[0]};
  }

  lemma HeadsAgree(order: seq<OrderItem>, s: seq<Address>, t: seq<Address>)
    requires StrictlySorted(order, s) && StrictlySorted(order, t) && multiset(s) == multiset(t) && |s| > 0 && |t| > 0
    ensures s[0] == t[0]
  {
    assert s[0] in multiset(s) && t[0] in multiset(t);
    HeadComesFirst(order, s, t[0]);
    HeadComesFirst(order, t, s[0]);
    LessIsAsymmetric(order, s[0], t[0]);
  }

  /** Two strictly sorted sequences with the same rows are the same sequence. */
  lemma {:induction false} SortedIsUnique(order: seq<OrderItem>, s: seq<Address>, t: seq<Address>)
    requires StrictlySorted(order, s) && StrictlySorted(order, t) && multiset(s) == multiset(t)
    ensures s == t
    decreases |s|
  {
    assert |s| == |multiset(s)| == |t|;
    if |s| > 0 {
      HeadsAgree(order, s, t);
      TailsAgree(s, t);
      SortedIsUnique(order, s[1..], t[1..]);
      assert s == [s[0]] + s[1..] && t == [t[0]] + t[1..];
    }
  }

  // ----- What filtering does -----

  lemma {:induction false} FilterCount(rows: seq<Address>, f: Address -> bool, a: Address)
    ensures multiset(Filter(rows, f))[a] == if f(a) then multiset(rows)[a] else 0
  {
    if rows != [] {
      FilterCount(rows[1..], f, a);
      assert rows == [rows[0]] + rows[1..];
    }
  }

  lemma FilterOfPermutation(rows: seq<Address>, rows': seq<Address>, f: Address -> bool)
    requires multiset(rows) == multiset(rows')
    ensures multiset(Filter(rows, f)) == multiset(Filter(rows', f))
  {
    forall a ensures multiset(Filter(rows, f))[a] == multiset(Filter(rows', f))[a] {
      FilterCount(rows, f, a);
      FilterCount(rows', f, a);
    }
  }

  lemma {:induction false} FilterKeepsSorted(order: seq<OrderItem>, rows: seq<Address>, f: Address -> bool)
    requires StrictlySorted(order, rows)
    ensures StrictlySorted(order, Filter(rows, f))
  {
    if rows != [] {
      FilterKeepsSorted(order, rows[1..], f);
      forall b | b in Filter(rows[1..], f) ensures Less(order, rows[0], b) {
        var j :| 0 <= j < |rows[1..]| && rows[1..][j] == b;
        assert Less(order, rows[0], rows[j + 1]);
      }
    }
  }

  lemma {:induction false} FilterKeepsDistinct(rows: seq<Address>, f: Address -> bool)
    requires DistinctIds(rows)
    ensures DistinctIds(Filter(rows, f))
  {
    if rows != [] {
      FilterKeepsDistinct(rows[1..], f);
      forall b | b in Filter(rows[1..], f) ensures rows[0].id != b.id {
        var j :| 0 <= j < |rows[1..]| && rows[1..][j] == b;
        assert rows[0].id != rows[j + 1].id;
      }
    }
  }

  lemma {:induction false} FilterTwice(rows: seq<Address>, f: Address -> bool, g: Address -> bool, h: Address -> bool)
    requires forall a :: h(a) <==> f(a) && g(a)
    ensures Filter(Filter(rows, f), g) == Filter(rows, h)
  {
    if rows != [] {
      FilterTwice(rows[1..], f, g, h);
      var tail := Filter(rows[1..], f);
      if f(rows[0]) {
        assert Filter(rows, f) == [rows[0]] + tail && ([rows[0]] + tail)[1..] == tail;
      } else {
        assert Filter(rows, f) == tail;
      }
    }
  }

  /** Filtering a sorted listing is sorting the filtered rows. */
  lemma FilterOfSort(order: seq<OrderItem>, rows: seq<Address>, f: Address -> bool)
    requires TotalOrder(order) && DistinctIds(rows)
    ensures Filter(Sort(order, rows), f) == Sort(order, Filter(rows, f))
  {
    SortSorts(order, rows);
    FilterKeepsSorted(order, Sort(order, rows), f);
    FilterKeepsDistinct(rows, f);
    SortSorts(order, Filter(rows, f));
    FilterOfPermutation(Sort(order, rows), rows, f);
    SortedIsUnique(order, Filter(Sort(order, rows), f), Sort(order, Filter(rows, f)));
  }

  // ----- The opposite direction -----

  function Reverse(rows: seq<Address>): (r: seq<Address>)
    ensures |r| == |rows|
    ensures forall i | 0 <= i < |rows| :: r[i] == rows[|rows| - 1 - i]
    ensures multiset(r) == multiset(rows)
  {
    if rows == [] then [] else
      assert rows == [rows[0]] + rows[1..];
      Reverse(rows[1..]) + [rows[0]]
  }

  const ASCENDING_IDS := [OrderItem(IdColumn, true)]
  const DESCENDING_IDS := [OrderItem(IdColumn, false)]

  lemma IdOrder(ascending: bool, a: Address, b: Address)
    ensures Less([OrderItem(IdColumn, ascending)], a, b) <==> if ascending then a.id < b.id else b.id < a.id
  {
    assert [OrderItem(IdColumn, ascending)][1..] == [];
  }

  lemma ReverseFlipsOrder(up: seq<Address>)
    requires StrictlySorted(ASCENDING_IDS, up)
    ensures StrictlySorted(DESCENDING_IDS, Reverse(up))
  {
    var down := Reverse(up);
    forall i, j | 0 <= i < j < |down| ensures Less(DESCENDING_IDS, down[i], down[j]) {
      var k, l := |up| - 1 - j, |up| - 1 - i;
      assert Less(ASCENDING_IDS, up[k], up[l]);
      IdOrder(true, up[k], up[l]);
      IdOrder(false, down[i], down[j]);
    }
  }

  /** The descending listing is the ascending one read backwards. */
  lemma DescendingIsReversed(rows: seq<Address>)
    requires DistinctIds(rows)
    ensures Sort(DESCENDING_IDS, rows) == Reverse(Sort(ASCENDING_IDS, rows))
  {
    assert ASCENDING_IDS[0].column.IdColumn? && DESCENDING_IDS[0].column.IdColumn?;
    SortSorts(ASCENDING_IDS, rows);
    SortSorts(DESCENDING_IDS, rows);
    ReverseFlipsOrder(Sort(ASCENDING_IDS, rows));
    SortedIsUnique(DESCENDING_IDS, Sort(DESCENDING_IDS, rows), Reverse(Sort(ASCENDING_IDS, rows)));
  }
}
