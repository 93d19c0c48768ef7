/**
 When a deferred group can outlive its object: a value completes and registers, and something beside
 it raises afterwards. Which selections allow this can be told from the selection alone.
 */
module OrphanGroups {
  import opened Sums
  import opened Schema
  import opened Completion
  import opened CompletionLaws
  import opened Deferral

  /** A field that is completed with the object and may raise. */
  predicate Raisable(o: ObjectType, f: Field) {
    !f.name.Typename? && !Deferred(o, f) && FieldType(o, f.name).Some? && FieldType(o, f.name).value.NonNull?
  }

  /** A field that is completed with the object and may register groups. */
  ghost predicate Registering(o: ObjectType, f: Field) {
    !f.name.Typename? && !Deferred(o, f) && FieldType(o, f.name).Some? && !DeferFree(FieldType(o, f.name).value, f.sub)
  }

  /** A value of the type can raise on account of a field in it. */
  ghost predicate CanRaise(t: Type, sel: seq<Field>) {
    match t
    case NonNull(of) => CanRaise(of, sel)
    case ListOf(of) => of.NonNull? && CanRaise(of, sel)
    case Composite(o) => exists j :: 0 <= j < |sel| && Raisable(o, sel[j])
    case Scalar => false
  }

  /** Something registers and something else beside it, or further down, may still raise. */
  ghost predicate Orphans(t: Type, sel: seq<Field>) {
    OrphansIn(t, Field(Typename, sel, []))
  }

  /** The same, of the selections of a field. */
  ghost predicate OrphansIn(t: Type, f: Field)
    decreases f, t
  {
    match t
    case NonNull(of) => OrphansIn(of, f)
    case ListOf(of) => of.NonNull? && CanRaise(of, f.sub) && !DeferFree(of, f.sub)
    case Composite(o) =>
      || (exists j, k :: 0 <= j < |f.sub| && 0 <= k < |f.sub| && j != k && Raisable(o, f.sub[j]) && Registering(o, f.sub[k]))
      || (exists k :: 0 <= k < |f.sub| && Raisable(o, f.sub[k]) && OrphansIn(FieldType(o, f.sub[k].name).value, f.sub[k]))
    case Scalar => false
  }

  // ----- Otherwise no value that raises has registered anything -----

  lemma RaiseMeansRequired(o: ObjectType, f: Field, out: Outcome)
    requires FitsField(o, f, out) && CompleteField(o, f, out).Raise?
    ensures Raisable(o, f) && Complete(FieldType(o, f.name).value, f.sub, out).Raise?
  {
    assert Catch(FieldType(o, f.name).value, f.sub, out).Raise?;
  }

  lemma {:induction false} RaisedRegistersNothing(t: Type, f: Field, out: Outcome)
    requires Fits(t, f.sub, out) && Complete(t, f.sub, out).Raise? && !OrphansIn(t, f)
    ensures Registers(t, f.sub, out) == 0
    decreases out, 1, t
  {
    if out.Failed? || out.Nil? {
    } else if t.NonNull? {
      RaisedRegistersNothing(t.of, f, out);
    } else if t.Composite? {
      forall k | 0 <= k < |f.sub| ensures RegistersFields(t.o, f.sub, out)[k] == 0 {
        FieldRegistersNothing(t.o, f, out, k);
      }
      SumZero(RegistersFields(t.o, f.sub, out));
    } else if t.ListOf? {
      ListRegistersNothing(t.of, f.sub, out);
    }
  }

  lemma RaisingField(o: ObjectType, sel: seq<Field>, out: Outcome) returns (j: nat)
    requires out.Obj? && Fits(Composite(o), sel, out) && Complete(Composite(o), sel, out).Raise?
    ensures j < |sel| && CompleteFields(o, sel, out)[j].Raise? && Raisable(o, sel[j])
  {
    j :| 0 <= j < |sel| && CompleteFields(o, sel, out)[j].Raise?;
    assert FitsField(o, sel[j], out.fields[j]);
    RaiseMeansRequired(o, sel[j], out.fields[j]);
  }

  lemma {:induction false} FieldRegistersNothing(o: ObjectType, f: Field, out: Outcome, k: nat)
    requires out.Obj? && Fits(Composite(o), f.sub, out) && Complete(Composite(o), f.sub, out).Raise?
    requires !OrphansIn(Composite(o), f) && k < |f.sub|
    ensures RegistersFields(o, f.sub, out)[k] == 0
    decreases out, 0
  {
    var g := f.sub[k];
    assert FitsField(o, g, out.fields[k]);
    if !g.name.Typename? && !Deferred(o, g) {
      var t := FieldType(o, g.name).value;
      if CompleteFields(o, f.sub, out)[k].Raise? {
        RaiseMeansRequired(o, g, out.fields[k]);
        RaisedRegistersNothing(t, g, out.fields[k]);
      } else {
        var j := RaisingField(o, f.sub, out);
        assert !Registering(o, g);
        DeferFreeRegistersNothing(t, g.sub, out.fields[k]);
      }
    }
  }

  lemma ValueIsNotNull(t: Type, sel: seq<Field>, out: Outcome)
    requires Fits(t, sel, out) && IsValue(out)
    ensures Complete(t, sel, out) != Done(Null)
  {
  }

  lemma {:induction false} RaisingValue(t: Type, sel: seq<Field>, out: Outcome)
    requires Fits(t, sel, out) && IsValue(out) && Complete(t, sel, out).Raise?
    ensures CanRaise(t, sel)
    decreases out, t
  {
    if t.NonNull? {
      ValueIsNotNull(t.of, sel, out);
      RaisingValue(t.of, sel, out);
    } else if t.Composite? {
      var j := RaisingField(t.o, sel, out);
    } else if t.ListOf? {
      var j :| 0 <= j < |out.items| && CompleteItems(t.of, sel, out)[j].Raise?;
      assert Catch(t.of, sel, out.items[j]).Raise?;
      RaisingValue(t.of, sel, out.items[j]);
    }
  }

  lemma ListRegistersNothing(of: Type, sel: seq<Field>, out: Outcome)
    requires out.Items? && Fits(ListOf(of), sel, out) && Complete(ListOf(of), sel, out).Raise?
    requires of.NonNull? && CanRaise(of, sel) ==> DeferFree(of, sel)
    ensures Registers(ListOf(of), sel, out) == 0
  {
    var j :| 0 <= j < |out.items| && CompleteItems(of, sel, out)[j].Raise?;
    assert Catch(of, sel, out.items[j]).Raise?;
    RaisingValue(of, sel, out.items[j]);
    forall k | 0 <= k < |out.items| ensures Registers(of, sel, out.items[k]) == 0 {
      DeferFreeRegistersNothing(of, sel, out.items[k]);
    }
    SumZero(RegistersItems(of, sel, out));
  }

  // ----- Otherwise some value does -----

  /** A sample of the field registers something if its selections defer something. */
  ghost predicate Counts(o: ObjectType, f: Field, out: Outcome) {
    Shows(o, f, out) && (Registering(o, f) ==> RegistersField(o, f, out) > 0)
  }

  lemma {:induction false} WrapRegisters(t: Type, sel: seq<Field>, fields: seq<Outcome>)
    requires Core(t).Some? ==> |fields| == |sel| && forall k | 0 <= k < |sel| :: Counts(Core(t).value, sel[k], fields[k])
    ensures Fits(t, sel, Wrap(t, fields)) && Complete(t, sel, Wrap(t, fields)).Done?
    ensures !DeferFree(t, sel) ==> Registers(t, sel, Wrap(t, fields)) > 0
    decreases t
  {
    WrapCompletes(t, sel, fields);
    match t
    case NonNull(of) => WrapRegisters(of, sel, fields);
    case ListOf(of) =>
      WrapRegisters(of, sel, fields);
      OneItemRegisters(of, sel, Wrap(of, fields));
    case Composite(o) => ObjectRegisters(o, sel, fields);
    case Scalar =>
  }

  lemma OneItemRegisters(of: Type, sel: seq<Field>, item: Outcome)
    requires Fits(of, sel, item) && Fits(ListOf(of), sel, Items([item]))
    ensures Registers(ListOf(of), sel, Items([item])) == Registers(of, sel, item)
  {
    assert RegistersItems(of, sel, Items([item])) == [Registers(of, sel, item)];
    assert Sum([Registers(of, sel, item)]) == Registers(of, sel, item);
  }

  lemma ObjectRegisters(o: ObjectType, sel: seq<Field>, fields: seq<Outcome>)
    requires |fields| == |sel| && forall k | 0 <= k < |sel| :: Counts(o, sel[k], fields[k])
    requires Fits(Composite(o), sel, Obj(o, fields)) && Complete(Composite(o), sel, Obj(o, fields)).Done?
    ensures !DeferFree(Composite(o), sel) ==> Registers(Composite(o), sel, Obj(o, fields)) > 0
  {
    if !DeferFree(Composite(o), sel) {
      var k :| 0 <= k < |sel| && !DeferFreeField(o, sel[k]);
      assert Counts(o, sel[k], fields[k]);
      if Deferred(o, sel[k]) {
        HasLabels(o, sel, k);
      } else {
        assert Registering(o, sel[k]);
        SumZero(RegistersFields(o, sel, Obj(o, fields)));
        assert RegistersFields(o, sel, Obj(o, fields))[k] > 0;
      }
    }
  }

  lemma HasLabels(o: ObjectType, sel: seq<Field>, k: nat)
    requires k < |sel| && Deferred(o, sel[k])
    ensures |Labels(o, sel)| > 0
  {
    LabelsAre(o, sel, |sel|, sel[k].labels[0]);
    assert sel[k].labels[0] in Labels(o, sel);
  }

  lemma {:induction false} SampleCounts(o: ObjectType, f: Field)
    requires KnownDeep(o, f)
    ensures Counts(o, f, SampleField(o, f))
    decreases f
  {
    SampleShows(o, f);
    if !f.name.Typename? {
      var t := FieldType(o, f.name).value;
      if Core(t).Some? {
        forall k | 0 <= k < |f.sub| ensures Counts(Core(t).value, f.sub[k], SampleField(Core(t).value, f.sub[k])) {
          SampleCounts(Core(t).value, f.sub[k]);
        }
        WrapRegisters(t, f.sub, seq(|f.sub|, k requires 0 <= k < |f.sub| => SampleField(Core(t).value, f.sub[k])));
      }
    }
  }

  lemma SampleOf(t: Type, sel: seq<Field>)
    requires KnownAll(t, sel)
    ensures Fits(t, sel, Sample(t, sel)) && Complete(t, sel, Sample(t, sel)).Done? && IsValue(Sample(t, sel))
    ensures !DeferFree(t, sel) ==> Registers(t, sel, Sample(t, sel)) > 0
  {
    if Core(t).Some? {
      forall k | 0 <= k < |sel| ensures Counts(Core(t).value, sel[k], SampleField(Core(t).value, sel[k])) {
        SampleCounts(Core(t).value, sel[k]);
      }
      WrapRegisters(t, sel, seq(|sel|, k requires 0 <= k < |sel| => SampleField(Core(t).value, sel[k])));
      WrapCompletes(t, sel, seq(|sel|, k requires 0 <= k < |sel| => SampleField(Core(t).value, sel[k])));
    } else {
      WrapRegisters(t, sel, []);
      WrapCompletes(t, sel, []);
    }
  }

  lemma {:induction false} FailedRaises(t: Type, sel: seq<Field>)
    ensures Fits(t, sel, Failed) && Complete(t, sel, Failed).Raise? && Registers(t, sel, Failed) == 0
    decreases t
  {
    if t.NonNull? {
      FailedRaises(t.of, sel);
    }
  }

  /** Resolvers that all succeed but for the j-th field. */
  ghost function SamplesBut(o: ObjectType, sel: seq<Field>, j: nat, out: Outcome): Outcome
    requires KnownAll(Composite(o), sel) && j < |sel|
  {
    Obj(o, seq(|sel|, k requires 0 <= k < |sel| => if k == j then out else SampleField(o, sel[k])))
  }

  lemma SamplesButOne(o: ObjectType, sel: seq<Field>, j: nat, out: Outcome, k: nat)
    requires KnownAll(Composite(o), sel) && j < |sel| && k < |sel|
    requires FitsField(o, sel[j], out) && CompleteField(o, sel[j], out).Raise?
    requires if k == j then RegistersField(o, sel[k], out) > 0 else Registering(o, sel[k])
    ensures var obj := SamplesBut(o, sel, j, out);
            Fits(Composite(o), sel, obj) && Complete(Composite(o), sel, obj).Raise? && Registers(Composite(o), sel, obj) > 0
  {
    var obj := SamplesBut(o, sel, j, out);
    SampleCounts(o, sel[k]);
    forall i | 0 <= i < |sel| ensures FitsField(o, sel[i], obj.fields[i]) {
      if i != j {
        SampleShows(o, sel[i]);
      }
    }
    assert Fits(Composite(o), sel, obj);
    assert CompleteFields(o, sel, obj)[j].Raise?;
    SumZero(RegistersFields(o, sel, obj));
    assert RegistersFields(o, sel, obj)[k] > 0;
  }

  /** A value that raises because one field fails. */
  lemma {:induction false} Raising(t: Type, sel: seq<Field>) returns (out: Outcome)
    requires KnownAll(t, sel) && CanRaise(t, sel)
    ensures Fits(t, sel, out) && IsValue(out) && Complete(t, sel, out).Raise?
    decreases t
  {
    match t
    case NonNull(of) => out := Raising(of, sel);
    case ListOf(of) =>
      var item := Raising(of, sel);
      PairRaises(of, sel, item, item);
      out := Items([item, item]);
    case Composite(o) =>
      var j :| 0 <= j < |sel| && Raisable(o, sel[j]);
      FailedFieldRaises(o, sel, j);
      out := SamplesBut(o, sel, j, Failed);
  }

  lemma FailedFieldRaises(o: ObjectType, sel: seq<Field>, j: nat)
    requires KnownAll(Composite(o), sel) && j < |sel| && Raisable(o, sel[j])
    ensures var obj := SamplesBut(o, sel, j, Failed);
            Fits(Composite(o), sel, obj) && Complete(Composite(o), sel, obj).Raise?
  {
    var obj := SamplesBut(o, sel, j, Failed);
    FailedRaises(FieldType(o, sel[j].name).value, sel[j].sub);
    forall i | 0 <= i < |sel| ensures FitsField(o, sel[i], obj.fields[i]) {
      if i != j {
        SampleShows(o, sel[i]);
      }
    }
    assert Fits(Composite(o), sel, obj);
    assert CompleteFields(o, sel, obj)[j].Raise?;
  }

  lemma {:induction false} Orphaned(t: Type, f: Field) returns (out: Outcome)
    requires KnownAll(t, f.sub) && OrphansIn(t, f)
    ensures Fits(t, f.sub, out) && Complete(t, f.sub, out).Raise? && Registers(t, f.sub, out) > 0
    decreases f, t
  {
    match t
    case NonNull(of) => out := Orphaned(of, f);
    case ListOf(of) =>
      SampleOf(of, f.sub);
      var raising := Raising(of, f.sub);
      PairRaises(of, f.sub, Sample(of, f.sub), raising);
      out := Items([Sample(of, f.sub), raising]);
    case Composite(o) =>
      if j, k :| 0 <= j < |f.sub| && 0 <= k < |f.sub| && j != k && Raisable(o, f.sub[j]) && Registering(o, f.sub[k]) {
        out := FailedBeside(o, f.sub, j, k);
      } else {
        var k :| 0 <= k < |f.sub| && Raisable(o, f.sub[k]) && OrphansIn(FieldType(o, f.sub[k].name).value, f.sub[k]);
        assert KnownDeep(o, f.sub[k]);
        var inner := Orphaned(FieldType(o, f.sub[k].name).value, f.sub[k]);
        out := OrphanedBelow(o, f.sub, k, inner);
      }
  }

  lemma FailedBeside(o: ObjectType, sel: seq<Field>, j: nat, k: nat) returns (out: Outcome)
    requires KnownAll(Composite(o), sel) && j < |sel| && k < |sel| && j != k && Raisable(o, sel[j]) && Registering(o, sel[k])
    ensures Fits(Composite(o), sel, out) && Complete(Composite(o), sel, out).Raise? && Registers(Composite(o), sel, out) > 0
  {
    FailedRaises(FieldType(o, sel[j].name).value, sel[j].sub);
    SamplesButOne(o, sel, j, Failed, k);
    out := SamplesBut(o, sel, j, Failed);
  }

  lemma OrphanedBelow(o: ObjectType, sel: seq<Field>, k: nat, inner: Outcome) returns (out: Outcome)
    requires KnownAll(Composite(o), sel) && k < |sel| && Raisable(o, sel[k])
    requires var t := FieldType(o, sel[k].name).value;
             Fits(t, sel[k].sub, inner) && Complete(t, sel[k].sub, inner).Raise? && Registers(t, sel[k].sub, inner) > 0
    ensures Fits(Composite(o), sel, out) && Complete(Composite(o), sel, out).Raise? && Registers(Composite(o), sel, out) > 0
  {
    SamplesButOne(o, sel, k, inner, k);
    out := SamplesBut(o, sel, k, inner);
  }

  /**
   A value that is null in the response has registered no group, whatever the resolvers do, exactly
   when nothing in the selection can raise beside something that registers.
   */
  lemma NoOrphansExactly(t: Type, sel: seq<Field>)
    requires KnownAll(t, sel)
    ensures (forall out | Fits(t, sel, out) && Complete(t, sel, out).Raise? :: Registers(t, sel, out) == 0) <==> !Orphans(t, sel)
  {
    var f := Field(Typename, sel, []);
    if Orphans(t, sel) {
      var out := Orphaned(t, f);
      assert Fits(t, sel, out) && Complete(t, sel, out).Raise? && Registers(t, sel, out) > 0;
    } else {
      forall out | Fits(t, sel, out) && Complete(t, sel, out).Raise? ensures Registers(t, sel, out) == 0 {
        RaisedRegistersNothing(t, f, out);
      }
    }
  }

  /** `nodes { user @defer { id } }`: with nothing else selected no element can raise. */
  lemma DeferredUserAlone()
    ensures !Orphans(ListOf(NonNull(Composite(UserAddress))), [Field(UserField, [Field(Id, [], [])], [""])])
  {
    assert Deferred(UserAddress, Field(UserField, [Field(Id, [], [])], [""]));
  }
}
