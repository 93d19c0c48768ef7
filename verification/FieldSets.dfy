/** The field set an object marshaller fills: values written in place, invalids counted, fields delayed. */
module FieldSets {
  import opened Sums
  import opened Schema
  import opened Completion
  import opened Deferral

  class FieldSet {
    const values: array<Response>
    var invalids: nat
    var delayed: set<nat>          // handed to Concurrently, not yet run
    ghost const want: seq<Completion>
    ghost const weights: seq<nat>  // groups each field registers
    ghost var settled: set<nat>
    ghost var counted: seq<nat>

    ghost predicate Valid()
      reads this, values
    {
      && values.Length == |want| == |weights| == |counted|
      && settled !! delayed
      && (forall k | k in settled || k in delayed :: k < |want|)
      && (forall k | k in settled :: values[k] == Written(want[k]))
      && invalids == |Raised()|
      && forall k | 0 <= k < |want| :: counted[k] == if k in settled then weights[k] else 0
    }

    /** The loop has come to field i: every field before it is settled or delayed, no other is. */
    ghost predicate Reached(i: nat)
      reads this
    {
      forall k: nat :: k < i <==> k in settled || k in delayed
    }

    ghost function Raised(): set<nat>
      requires forall k | k in settled :: k < |want|
      reads this
    {
      set k | k in settled && want[k].Raise?
    }

    constructor (n: nat, ghost cs: seq<Completion>, ghost ws: seq<nat>)
      requires |cs| == |ws| == n
      ensures Valid() && fresh(values) && want == cs && weights == ws
      ensures settled == {} && delayed == {} && Sum(counted) == 0
    {
      values := new Response[n](_ => Null);
      invalids, delayed := 0, {};
      want, weights, settled, counted := cs, ws, {}, seq(n, _ => 0);
      new;
      Zeros(n);
      assert Raised() == {};
    }

    static lemma {:induction false} Zeros(n: nat)
      ensures Sum(seq(n, _ => 0)) == 0
    {
      if n > 0 {
        Zeros(n - 1);
        assert seq(n, _ => 0)[..n - 1] == seq(n - 1, _ => 0);
      }
    }

    /** `out.Concurrently(i, …)`. */
    method Concurrently(k: nat)
      requires Valid() && k < |want| && k !in settled && k !in delayed
      modifies this`delayed
      ensures Valid() && delayed == old(delayed) + {k}
    {
      delayed := delayed + {k};
    }

    /** A value that is never null: the type name, or the placeholder of a deferred field. */
    method Set(k: nat, v: Response)
      requires Valid() && k < |want| && k !in settled && k !in delayed && want[k].Done? && v == Written(want[k])
      modifies this`settled, this`counted, values
      ensures Valid() && settled == old(settled) + {k}
      ensures Sum(counted) == old(Sum(counted)) + weights[k]
    {
      values[k] := v;
      Settle(k);
      assert Raised() == old(Raised());
    }

    /** A field of non-null type: a null is counted. */
    method SetRequired(k: nat, v: Response)
      requires Valid() && k < |want| && k !in settled && v == Written(want[k]) && (v.Null? <==> want[k].Raise?)
      modifies this, values
      ensures Valid() && settled == old(settled) + {k} && delayed == old(delayed) - {k}
      ensures Sum(counted) == old(Sum(counted)) + weights[k]
    {
      values[k] := v;
      if v.Null? {
        invalids := invalids + 1;
      }
      delayed := delayed - {k};
      Settle(k);
      assert Raised() == if want[k].Raise? then old(Raised()) + {k} else old(Raised());
    }

    /** A field of nullable type: only a null marked as an error would be counted, and there is none. */
    method SetOptional(k: nat, v: Response)
      requires Valid() && k < |want| && k !in settled && k !in delayed && want[k].Done? && v == Written(want[k]) && !v.RequiredNull?
      modifies this, values
      ensures Valid() && settled == old(settled) + {k} && delayed == old(delayed)
      ensures Sum(counted) == old(Sum(counted)) + weights[k]
    {
      values[k] := v;
      if v.RequiredNull? {
        assert false;
      }
      Settle(k);
      assert Raised() == old(Raised());
    }

    ghost method Settle(k: nat)
      requires k < |weights| == |counted| && counted[k] == 0
      modifies this`settled, this`counted
      ensures settled == old(settled) + {k} && counted == old(counted)[k := weights[k]]
      ensures Sum(counted) == old(Sum(counted)) + weights[k]
    {
      SumUpdate(counted, k, weights[k]);
      settled, counted := settled + {k}, counted[k := weights[k]];
    }

    /** When all fields are in: the count is positive exactly when the object raises. */
    lemma Summary(o: ObjectType)
      requires Valid() && forall k | 0 <= k < |want| :: k in settled
      ensures invalids > 0 <==> Gather(want).None?
      ensures Gather(want).Some? ==> Object(o, values[..]) == Erase(Object(o, Gather(want).value))
      ensures Sum(counted) == Sum(weights)
    {
      assert counted == weights;
      if k :| 0 <= k < |want| && want[k].Raise? {
        assert k in Raised();
      } else {
        assert Raised() == {};
        var all := Gather(want).value;
        assert Erase(Object(o, all)).fields == values[..];
      }
    }
  }

  /** `deferredFieldSet` and `deferLabelToView`: the fields put off, and each label's share of them. */
  class DeferredSet {
    var fields: seq<nat>
    var views: map<string, seq<nat>>

    constructor ()
      ensures fields == [] && views == map[]
    {
      fields, views := [], map[];
    }

    /** A view holds the deferred fields under its label, by their place among the deferred. */
    ghost predicate Valid(sel: seq<Field>)
      reads this
    {
      && (forall j | 0 <= j < |fields| :: fields[j] < |sel|)
      && (forall l, j: nat :: l in views && j in views[l] <==> j < |fields| && l in sel[fields[j]].labels)
      && (forall l | l in views :: views[l] != [])
    }

    method Add(i: nat, labels: seq<string>, ghost sel: seq<Field>)
      requires Valid(sel) && i < |sel| && labels == sel[i].labels
      modifies this
      ensures Valid(sel) && fields == old(fields) + [i]
      ensures views.Keys == old(views).Keys + LabelSet(sel[i])
    {
      fields := fields + [i];
      var at := |fields| - 1;
      for n := 0 to |labels|
        invariant fields == old(fields) + [i]
        invariant forall l, j: nat :: l in views && j in views[l] <==>
                    (l in old(views) && j in old(views)[l]) || (j == at && l in labels[..n])
        invariant forall l | l in views :: views[l] != []
        invariant views.Keys == old(views).Keys + set l | l in labels[..n]
      {
        var l := labels[n];
        assert labels[..n + 1] == labels[..n] + [l];
        views := views[l := (if l in views then views[l] else []) + [at]];
      }
      assert labels[..|labels|] == labels;
    }
  }

  /** The counter of deferred groups shared by everything running for one operation. */
  class ExecutionContext {
    var deferred: nat

    constructor ()
      ensures deferred == 0
    {
      deferred := 0;
    }
  }
}
