/** Sums over sequences, and what changing one entry does to them. */
module Sums {
  ghost function Sum(v: seq<nat>): nat {
    if |v| == 0 then 0 else Sum(v[..|v| - 1]) + v[|v| - 1]
  }

  lemma {:induction false} SumUpdate(v: seq<nat>, i: nat, x: nat)
    requires i < |v|
    ensures Sum(v[i := x]) + v[i] == Sum(v) + x
  {
    var n := |v| - 1;
    if i == n {
      assert v[i := x][..n] == v[..n];
    } else {
      SumUpdate(v[..n], i, x);
      assert v[i := x][..n] == v[..n][i := x];
    }
  }

  lemma {:induction false} SumZero(v: seq<nat>)
    ensures Sum(v) == 0 <==> forall i | 0 <= i < |v| :: v[i] == 0
  {
    if |v| > 0 {
      SumZero(v[..|v| - 1]);
    }
  }

  ghost function Union<E>(v: seq<multiset<E>>): multiset<E> {
    if |v| == 0 then multiset{} else Union(v[..|v| - 1]) + v[|v| - 1]
  }

  lemma {:induction false} UnionUpdate<E>(v: seq<multiset<E>>, i: nat, x: multiset<E>)
    requires i < |v|
    ensures Union(v[i := x]) + v[i] == Union(v) + x
  {
    var n := |v| - 1;
    if i == n {
      assert v[i := x][..n] == v[..n];
    } else {
      UnionUpdate(v[..n], i, x);
      assert v[i := x][..n] == v[..n][i := x];
      assert Union(v[i := x]) + v[i] == (Union(v[..n][i := x]) + v[..n][i]) + v[n];
    }
  }

  lemma {:induction false} UnionSize<E>(v: seq<multiset<E>>, k: seq<nat>)
    requires |v| == |k|
    requires forall i | 0 <= i < |v| :: |v[i]| == k[i]
    ensures |Union(v)| == Sum(k)
  {
    if |v| > 0 {
      UnionSize(v[..|v| - 1], k[..|v| - 1]);
    }
  }
}
