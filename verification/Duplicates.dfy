/** The duplicate finder behind category creation, and what makes its answer the only right one. */
module Duplicates {

  predicate Distinct(values: seq<string>) {
    forall i, j | 0 <= i < j < |values| :: values[i] != values[j]
  }

  /** Where a value first occurs. */
  function First(values: seq<string>, v: string): (i: nat)
    requires v in values
    ensures i < |values| && values[i] == v && forall j | 0 <= j < i :: values[j] != v
  {
    if values[0] == v then 0 else 1 + First(values[1..], v)
  }

  /** The values with more than one occurrence, each once, in the order they first occur in. */
  ghost predicate AreDuplicates(values: seq<string>, dups: seq<string>) {
    && (forall v :: v in dups <==> multiset(values)[v] >= 2)
    && InFirstOrder(values, dups)
  }

  predicate InFirstOrder(values: seq<string>, some: seq<string>) {
    && (forall v | v in some :: v in values)
    && forall i, j | 0 <= i < j < |some| :: First(values, some[i]) < First(values, some[j])
  }

  lemma FirstOfPrefix(values: seq<string>, n: nat, v: string)
    requires n <= |values| && v in values[..n]
    ensures First(values, v) == First(values[..n], v) < n
  {
    var i, k := First(values[..n], v), First(values, v);
    assert values[i] == v && values[..n][i] == v;
    assert k < n ==> values[..n][k] == v;
  }

  lemma OrderOfPrefix(values: seq<string>, n: nat, some: seq<string>)
    requires n <= |values| && InFirstOrder(values[..n], some)
    ensures InFirstOrder(values, some)
  {
    forall v | v in some ensures v in values && First(values, v) == First(values[..n], v) {
      FirstOfPrefix(values, n, v);
    }
  }

  lemma PrefixMembers(values: seq<string>, i: nat, v: string)
    requires i < |values|
    ensures v in values[..i + 1] <==> v in values[..i] || v == values[i]
  {
    assert values[..i + 1] == values[..i] + [values[i]];
  }

  lemma FirstOfNew(values: seq<string>, i: nat)
    requires i < |values| && values[i] !in values[..i]
    ensures values[i] in values && First(values, values[i]) == i
  {
    assert values[..i] <= values;
    assert forall j | 0 <= j < i :: values[j] == values[..i][j];
  }

  /** One more value: it joins the order exactly when it is new. */
  lemma OrderGrows(values: seq<string>, i: nat, order: seq<string>)
    requires i < |values| && InFirstOrder(values[..i], order) && forall v :: v in order <==> v in values[..i]
    ensures var order' := if values[i] in values[..i] then order else order + [values[i]];
            InFirstOrder(values[..i + 1], order') && forall v :: v in order' <==> v in values[..i + 1]
  {
    var longer := values[..i + 1];
    assert longer[..i] == values[..i];
    OrderOfPrefix(longer, i, order);
    forall v ensures v in longer <==> v in values[..i] || v == values[i] {
      PrefixMembers(values, i, v);
    }
    if values[i] !in values[..i] {
      FirstOfNew(longer, i);
      NewcomerLast(longer, i, order);
    }
  }

  lemma NewcomerLast(values: seq<string>, i: nat, order: seq<string>)
    requires i < |values| && values[i] in values && First(values, values[i]) == i
    requires InFirstOrder(values, order) && forall v | v in order :: v in values[..i]
    ensures InFirstOrder(values, order + [values[i]])
  {
    forall v | v in order ensures First(values, v) < i {
      FirstOfPrefix(values, i, v);
    }
  }

  lemma CountGrows(values: seq<string>, i: nat, v: string)
    requires i < |values|
    ensures multiset(values[..i + 1])[v] == multiset(values[..i])[v] + if v == values[i] then 1 else 0
  {
    assert values[..i + 1] == values[..i] + [values[i]];
  }

  /** A Go map read: a missing key counts as zero. */
  function Count(counts: map<string, nat>, v: string): nat {
    if v in counts then counts[v] else 0
  }

  ghost predicate Counts(counts: map<string, nat>, values: seq<string>) {
    forall v :: Count(counts, v) == multiset(values)[v]
  }

  lemma CountsGrow(counts: map<string, nat>, values: seq<string>, i: nat)
    requires i < |values| && Counts(counts, values[..i])
    ensures Counts(counts[values[i] := Count(counts, values[i]) + 1], values[..i + 1])
    ensures Count(counts, values[i]) == 0 <==> values[i] !in values[..i]
  {
    var counts' := counts[values[i] := Count(counts, values[i]) + 1];
    forall v ensures Count(counts', v) == multiset(values[..i + 1])[v] {
      CountGrows(values, i, v);
      assert Count(counts, v) == multiset(values[..i])[v];
    }
    assert values[i] in values[..i] <==> values[i] in multiset(values[..i]);
  }

  method CountStrings(values: seq<string>) returns (counts: map<string, nat>, order: seq<string>)
    ensures Counts(counts, values)
    ensures InFirstOrder(values, order) && forall v :: v in order <==> v in values
  {
    counts, order := map[], [];
    for i := 0 to |values|
      invariant Counts(counts, values[..i])
      invariant InFirstOrder(values[..i], order) && forall v :: v in order <==> v in values[..i]
    {
      CountsGrow(counts, values, i);
      OrderGrows(values, i, order);
      if Count(counts, values[i]) == 0 {
        order := order + [values[i]];
      }
      counts := counts[values[i] := Count(counts, values[i]) + 1];
    }
    assert values[..|values|] == values;
  }

  /** One more candidate: the order kept so far is a selection of the candidates before it. */
  lemma SelectionGrows(values: seq<string>, order: seq<string>, j: nat, some: seq<string>)
    requires j < |order| && InFirstOrder(values, order) && InFirstOrder(values, some)
    requires forall v | v in some :: v in order[..j]
    ensures InFirstOrder(values, some + [order[j]])
  {
    forall i | 0 <= i < |some| ensures First(values, some[i]) < First(values, order[j]) {
      assert some[i] in order[..j];
      var k :| 0 <= k < j && order[..j][k] == some[i];
      assert order[k] == some[i];
    }
  }

  /** `duplicateStrings`. */
  method DuplicateStrings(values: seq<string>) returns (dups: seq<string>)
    ensures AreDuplicates(values, dups)
    ensures dups == [] <==> Distinct(values)
  {
    var counts, order := CountStrings(values);
    dups := [];
    for j := 0 to |order|
      invariant forall v :: v in dups <==> v in order[..j] && multiset(values)[v] >= 2
      invariant InFirstOrder(values, dups)
    {
      var v := order[j];
      assert order[..j + 1] == order[..j] + [v];
      if Count(counts, v) > 1 {
        SelectionGrows(values, order, j, dups);
        dups := dups + [v];
      }
    }
    forall v ensures v in dups <==> multiset(values)[v] >= 2 {
      assert v in values <==> v in multiset(values);
    }
    EmptyMeansDistinct(values, dups);
  }

  lemma TwiceMeansTwoPlaces(values: seq<string>, i: nat, j: nat)
    requires i < j < |values| && values[i] == values[j]
    ensures multiset(values)[values[i]] >= 2
  {
    assert values == values[..j] + values[j..];
    assert values[..j][i] == values[i] && values[j..][0] == values[j];
    assert values[i] in multiset(values[..j]) && values[i] in multiset(values[j..]);
  }

  lemma {:induction false} DistinctCountsOnce(values: seq<string>, v: string)
    requires Distinct(values)
    ensures multiset(values)[v] <= 1
  {
    if values != [] {
      DistinctCountsOnce(values[1..], v);
      assert values == [values[0]] + values[1..];
      if v == values[0] {
        assert v !in values[1..];
        assert v !in multiset(values[1..]);
      }
    }
  }

  /** Nothing is reported exactly when no two places hold the same value. */
  lemma EmptyMeansDistinct(values: seq<string>, dups: seq<string>)
    requires AreDuplicates(values, dups)
    ensures dups == [] <==> Distinct(values)
  {
    if Distinct(values) {
      if dups != [] {
        DistinctCountsOnce(values, dups[0]);
      }
    } else {
      var i, j :| 0 <= i < j < |values| && values[i] == values[j];
      TwiceMeansTwoPlaces(values, i, j);
    }
  }

  /** The answer is the only one: the same values in the same order. */
  lemma {:induction false} OrderIsUnique(values: seq<string>, s: seq<string>, t: seq<string>)
    requires InFirstOrder(values, s) && InFirstOrder(values, t) && forall v :: v in s <==> v in t
    ensures s == t
  {
    assert t != [] ==> t[0] in s;
    if s != [] {
      assert s[0] in t && t[0] in s;
      var i :| 0 <= i < |s| && s[i] == t[0];
      var j :| 0 <= j < |t| && t[j] == s[0];
      assert s[0] == t[0];
      forall v ensures v in s[1..] <==> v in t[1..] {
        TailMembers(values, s, v);
        TailMembers(values, t, v);
      }
      OrderIsUnique(values, s[1..], t[1..]);
    }
  }

  lemma TailMembers(values: seq<string>, s: seq<string>, v: string)
    requires s != [] && InFirstOrder(values, s)
    ensures v in s[1..] <==> v in s && v != s[0]
  {
    if v in s[1..] {
      var k :| 0 <= k < |s| - 1 && s[1..][k] == v;
      assert s[k + 1] == v;
    }
  }

  lemma DuplicatesAreUnique(values: seq<string>, s: seq<string>, t: seq<string>)
    requires AreDuplicates(values, s) && AreDuplicates(values, t)
    ensures s == t
  {
    OrderIsUnique(values, s, t);
  }
}
