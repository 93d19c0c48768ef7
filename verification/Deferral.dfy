/** The deferred groups that completing a value registers. */
module Deferral {
  import opened Sums
  import opened Schema
  import opened Completion

  function LabelSet(f: Field): set<string> {
    set l | l in f.labels
  }

  /** One group for each label that some deferred field of the object is under. */
  function Labels(o: ObjectType, sel: seq<Field>): set<string> {
    LabelsTo(o, sel, |sel|)
  }

  function LabelsTo(o: ObjectType, sel: seq<Field>, n: nat): set<string>
    requires n <= |sel|
    decreases n
  {
    if n == 0 then {} else LabelsTo(o, sel, n - 1) + if Deferred(o, sel[n - 1]) then LabelSet(sel[n - 1]) else {}
  }

  lemma LabelsStay(o: ObjectType, sel: seq<Field>, n: nat)
    requires n < |sel|
    ensures LabelsTo(o, sel, n + 1) == LabelsTo(o, sel, n) + if Deferred(o, sel[n]) then LabelSet(sel[n]) else {}
    ensures !Deferred(o, sel[n]) ==> LabelsTo(o, sel, n + 1) == LabelsTo(o, sel, n)
  {
  }

  lemma {:induction false} LabelsAre(o: ObjectType, sel: seq<Field>, n: nat, l: string)
    requires n <= |sel|
    ensures l in LabelsTo(o, sel, n) <==> exists k :: 0 <= k < n && Deferred(o, sel[k]) && l in sel[k].labels
    decreases n
  {
    if n > 0 {
      LabelsAre(o, sel, n - 1, l);
    }
  }

  lemma {:induction false} NoneDeferred(o: ObjectType, sel: seq<Field>, n: nat)
    requires n <= |sel| && forall k | 0 <= k < n :: !Deferred(o, sel[k])
    ensures LabelsTo(o, sel, n) == {}
    decreases n
  {
    if n > 0 {
      NoneDeferred(o, sel, n - 1);
    }
  }

  /** How many groups completing registers: an object registers its own only if it is not null. */
  ghost function Registers(t: Type, sel: seq<Field>, out: Outcome): nat
    requires Fits(t, sel, out)
    decreases out, 1, t
  {
    if out.Failed? || out.Nil? then 0
    else if t.NonNull? then Registers(t.of, sel, out)
    else if t.Composite? then
      Sum(RegistersFields(t.o, sel, out)) + if Complete(t, sel, out).Done? then |Labels(t.o, sel)| else 0
    else if t.ListOf? then Sum(RegistersItems(t.of, sel, out))
    else 0
  }

  ghost function RegistersFields(o: ObjectType, sel: seq<Field>, out: Outcome): (ns: seq<nat>)
    requires out.Obj? && Fits(Composite(o), sel, out)
    ensures |ns| == |sel|
    decreases out, 0
  {
    seq(|sel|, k requires 0 <= k < |sel| => RegistersField(o, sel[k], out.fields[k]))
  }

  ghost function RegistersItems(of: Type, sel: seq<Field>, out: Outcome): (ns: seq<nat>)
    requires out.Items? && Fits(ListOf(of), sel, out)
    ensures |ns| == |out.items|
    decreases out, 0
  {
    seq(|out.items|, k requires 0 <= k < |out.items| => Registers(of, sel, out.items[k]))
  }

  ghost function RegistersField(o: ObjectType, f: Field, out: Outcome): nat
    requires FitsField(o, f, out)
    decreases out, 2
  {
    if f.name.Typename? || Deferred(o, f) then 0 else Registers(FieldType(o, f.name).value, f.sub, out)
  }

  // ----- Groups and nulls -----

  lemma NoLabels(o: ObjectType, sel: seq<Field>)
    requires DeferFree(Composite(o), sel)
    ensures Labels(o, sel) == {}
  {
    forall k | 0 <= k < |sel| ensures !Deferred(o, sel[k]) {
      assert DeferFreeField(o, sel[k]);
    }
    NoneDeferred(o, sel, |sel|);
  }

  /** Without @defer nothing is registered. */
  lemma {:induction false} DeferFreeRegistersNothing(t: Type, sel: seq<Field>, out: Outcome)
    requires Fits(t, sel, out) && DeferFree(t, sel)
    ensures Registers(t, sel, out) == 0
    decreases out, 1, t
  {
    if out.Failed? || out.Nil? {
    } else if t.NonNull? {
      DeferFreeRegistersNothing(t.of, sel, out);
    } else if t.Composite? {
      NoLabels(t.o, sel);
      FieldsRegisterNothing(t.o, sel, out);
    } else if t.ListOf? {
      forall k | 0 <= k < |out.items| ensures Registers(t.of, sel, out.items[k]) == 0 {
        DeferFreeRegistersNothing(t.of, sel, out.items[k]);
      }
      SumZero(RegistersItems(t.of, sel, out));
    }
  }

  lemma {:induction false} FieldsRegisterNothing(o: ObjectType, sel: seq<Field>, out: Outcome)
    requires out.Obj? && Fits(Composite(o), sel, out) && DeferFree(Composite(o), sel)
    ensures Sum(RegistersFields(o, sel, out)) == 0
    decreases out, 0
  {
    forall k | 0 <= k < |sel| ensures RegistersField(o, sel[k], out.fields[k]) == 0 {
      assert DeferFreeField(o, sel[k]) && FitsField(o, sel[k], out.fields[k]);
      if !sel[k].name.Typename? {
        DeferFreeRegistersNothing(FieldType(o, sel[k].name).value, sel[k].sub, out.fields[k]);
      }
    }
    SumZero(RegistersFields(o, sel, out));
  }

  /** `nodes { id user @defer { id } }` on two addresses, of which the second has no id. */
  function OrphanSelection(): seq<Field> {
    [Field(Id, [], []), Field(UserField, [Field(Id, [], [])], [""])]
  }

  function OrphanItem(id: Outcome): Outcome {
    Obj(UserAddress, [id, Obj(User, [Leaf(2)])])
  }

  lemma OrphanFits(id: Outcome)
    requires id == Leaf(1) || id == Failed
    ensures Fits(Composite(UserAddress), OrphanSelection(), OrphanItem(id))
  {
    var sel, out := OrphanSelection(), OrphanItem(id);
    var user := out.fields[1];
    assert FitsField(User, Field(Id, [], []), user.fields[0]);
    assert Fits(Composite(User), sel[1].sub, user);
    assert FitsField(UserAddress, sel[1], user);
    assert FitsField(UserAddress, sel[0], id);
  }

  lemma OrphanLabels()
    ensures |Labels(UserAddress, OrphanSelection())| == 1
  {
    var sel := OrphanSelection();
    assert !Deferred(UserAddress, sel[0]);
    assert Deferred(UserAddress, sel[1]) && "" in sel[1].labels;
    assert LabelsTo(UserAddress, sel, 1) == {};
    assert LabelSet(sel[1]) == {""};
  }

  lemma OrphanFields(id: Outcome)
    requires id == Leaf(1) || id == Failed
    requires Fits(Composite(UserAddress), OrphanSelection(), OrphanItem(id))
    ensures CompleteFields(UserAddress, OrphanSelection(), OrphanItem(id))[0].Raise? <==> id.Failed?
    ensures CompleteFields(UserAddress, OrphanSelection(), OrphanItem(id))[1].Done?
    ensures Sum(RegistersFields(UserAddress, OrphanSelection(), OrphanItem(id))) == 0
  {
    var sel, out := OrphanSelection(), OrphanItem(id);
    assert Deferred(UserAddress, sel[1]);
    assert CompleteFields(UserAddress, sel, out)[1] == CompleteField(UserAddress, sel[1], out.fields[1]);
    assert CompleteFields(UserAddress, sel, out)[0] == CompleteField(UserAddress, sel[0], out.fields[0]);
    SumZero(RegistersFields(UserAddress, sel, out));
  }

  lemma OrphanItemCompletes(id: Outcome)
    requires id == Leaf(1) || id == Failed
    ensures var t := NonNull(Composite(UserAddress));
            && Fits(t, OrphanSelection(), OrphanItem(id))
            && (Complete(t, OrphanSelection(), OrphanItem(id)).Raise? <==> id.Failed?)
            && Registers(t, OrphanSelection(), OrphanItem(id)) == if id.Failed? then 0 else 1
  {
    OrphanFits(id);
    OrphanFields(id);
    OrphanLabels();
  }

  /** A list of two, of which the second raises. */
  lemma PairRaises(of: Type, sel: seq<Field>, a: Outcome, b: Outcome)
    requires Fits(of, sel, a) && Fits(of, sel, b) && IsValue(a) && IsValue(b) && of.NonNull? && Complete(of, sel, b).Raise?
    ensures Fits(ListOf(of), sel, Items([a, b]))
    ensures Complete(ListOf(of), sel, Items([a, b])).Raise?
    ensures Registers(ListOf(of), sel, Items([a, b])) == Registers(of, sel, a) + Registers(of, sel, b)
  {
    var out := Items([a, b]);
    assert Fits(ListOf(of), sel, out);
    assert CompleteItems(of, sel, out)[1] == Catch(of, sel, b);
    assert RegistersItems(of, sel, out) == [Registers(of, sel, a), Registers(of, sel, b)];
    SumOfTwo(Registers(of, sel, a), Registers(of, sel, b));
  }

  lemma SumOfTwo(m: nat, n: nat)
    ensures Sum([m, n]) == m + n
  {
    assert [m, n][..1] == [m];
    assert Sum([m]) == m;
  }

  /**
   A registered group can outlive the object it belongs to: when a later sibling nulls the list,
   the list is null in the response and the group is still counted.
   */
  lemma GroupsOutliveTheirObjects()
    ensures var t, out := ListOf(NonNull(Composite(UserAddress))), Items([OrphanItem(Leaf(1)), OrphanItem(Failed)]);
            && Fits(t, OrphanSelection(), out)
            && Complete(t, OrphanSelection(), out).Raise?
            && Registers(t, OrphanSelection(), out) == 1
  {
    OrphanItemCompletes(Leaf(1));
    OrphanItemCompletes(Failed);
    PairRaises(NonNull(Composite(UserAddress)), OrphanSelection(), OrphanItem(Leaf(1)), OrphanItem(Failed));
  }
}
