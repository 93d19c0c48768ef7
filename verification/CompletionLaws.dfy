/** When the written response respects the schema's non-null positions. */
module CompletionLaws {
  import opened Schema
  import opened Completion

  // ----- Without @defer every response conforms -----

  lemma {:induction false} CompletedConforms(t: Type, sel: seq<Field>, out: Outcome)
    requires Fits(t, sel, out) && DeferFree(t, sel)
    ensures Complete(t, sel, out).Done? ==> Conforms(t, sel, Erase(Complete(t, sel, out).response))
    decreases out, 1, t
  {
    if out.Failed? {
    } else if t.NonNull? {
      CompletedConforms(t.of, sel, out);
    } else if out.Nil? {
    } else if t.Composite? {
      FieldsConform(t.o, sel, out);
    } else if t.ListOf? {
      ItemsConform(t.of, sel, out);
    }
  }

  lemma {:induction false} CaughtConforms(t: Type, sel: seq<Field>, out: Outcome)
    requires Fits(t, sel, out) && DeferFree(t, sel)
    ensures Catch(t, sel, out).Done? ==> Conforms(t, sel, Written(Catch(t, sel, out)))
    decreases out, 2
  {
    CompletedConforms(t, sel, out);
  }

  lemma {:induction false} FieldsConform(o: ObjectType, sel: seq<Field>, out: Outcome)
    requires out.Obj? && Fits(Composite(o), sel, out) && DeferFree(Composite(o), sel)
    ensures forall k | 0 <= k < |sel| && CompleteFields(o, sel, out)[k].Done? ::
              ConformsField(o, sel[k], Erase(CompleteFields(o, sel, out)[k].response))
    decreases out, 0
  {
    forall k | 0 <= k < |sel| && CompleteFields(o, sel, out)[k].Done?
      ensures ConformsField(o, sel[k], Erase(CompleteFields(o, sel, out)[k].response))
    {
      assert DeferFreeField(o, sel[k]) && FitsField(o, sel[k], out.fields[k]);
      if !sel[k].name.Typename? {
        CaughtConforms(FieldType(o, sel[k].name).value, sel[k].sub, out.fields[k]);
      }
    }
  }

  lemma {:induction false} ItemsConform(of: Type, sel: seq<Field>, out: Outcome)
    requires out.Items? && Fits(ListOf(of), sel, out) && DeferFree(of, sel)
    ensures forall k | 0 <= k < |out.items| && CompleteItems(of, sel, out)[k].Done? ::
              Conforms(of, sel, Erase(CompleteItems(of, sel, out)[k].response))
    decreases out, 0
  {
    forall k | 0 <= k < |out.items|
      ensures Catch(of, sel, out.items[k]).Done? ==> Conforms(of, sel, Written(Catch(of, sel, out.items[k])))
    {
      CaughtConforms(of, sel, out.items[k]);
    }
  }

  // ----- With @defer some response does not -----

  /** Validated selections: every field exists where it is selected. */
  ghost predicate KnownAll(t: Type, sel: seq<Field>) {
    Core(t).Some? ==> forall k | 0 <= k < |sel| :: KnownDeep(Core(t).value, sel[k])
  }

  ghost predicate KnownDeep(o: ObjectType, f: Field)
    decreases f
  {
    && Known(o, f)
    && (FieldType(o, f.name).Some? && Core(FieldType(o, f.name).value).Some? ==>
          forall k | 0 <= k < |f.sub| :: KnownDeep(Core(FieldType(o, f.name).value).value, f.sub[k]))
  }

  /** A value of the type, around one object with these fields; lists have one element. */
  ghost function Wrap(t: Type, fields: seq<Outcome>): Outcome {
    match t
    case NonNull(of) => Wrap(of, fields)
    case ListOf(of) => Items([Wrap(of, fields)])
    case Composite(o) => Obj(o, fields)
    case Scalar => Leaf(0)
  }

  /** Resolvers that all succeed. */
  ghost function SampleField(o: ObjectType, f: Field): Outcome
    requires KnownDeep(o, f)
    decreases f
  {
    if f.name.Typename? then Nil
    else
      var t := FieldType(o, f.name).value;
      Wrap(t, if Core(t).None? then []
              else seq(|f.sub|, k requires 0 <= k < |f.sub| => SampleField(Core(t).value, f.sub[k])))
  }

  ghost function Sample(t: Type, sel: seq<Field>): Outcome
    requires KnownAll(t, sel)
  {
    Wrap(t, if Core(t).None? then []
            else seq(|sel|, k requires 0 <= k < |sel| => SampleField(Core(t).value, sel[k])))
  }

  /** What a sample of one field shows. */
  ghost predicate Shows(o: ObjectType, f: Field, out: Outcome) {
    && FitsField(o, f, out) && CompleteField(o, f, out).Done?
    && (ConformsField(o, f, Erase(CompleteField(o, f, out).response)) ==> DeferFreeField(o, f))
  }

  lemma {:induction false} WrapCompletes(t: Type, sel: seq<Field>, fields: seq<Outcome>)
    requires Core(t).Some? ==> |fields| == |sel| && forall k | 0 <= k < |sel| :: Shows(Core(t).value, sel[k], fields[k])
    ensures var out := Wrap(t, fields);
            && Fits(t, sel, out) && IsValue(out)
            && Complete(t, sel, out).Done? && !Complete(t, sel, out).response.Null?
            && (Conforms(t, sel, Erase(Complete(t, sel, out).response)) ==> DeferFree(t, sel))
    decreases t
  {
    match t
    case NonNull(of) => WrapCompletes(of, sel, fields);
    case ListOf(of) =>
      WrapCompletes(of, sel, fields);
      OneItem(of, sel, Wrap(of, fields));
    case Composite(o) => WrapObject(o, sel, fields);
    case Scalar =>
  }

  lemma OneItem(of: Type, sel: seq<Field>, item: Outcome)
    requires Fits(of, sel, item) && IsValue(item) && Complete(of, sel, item).Done?
    ensures Fits(ListOf(of), sel, Items([item]))
    ensures Complete(ListOf(of), sel, Items([item])) == Done(List([Complete(of, sel, item).response]))
    ensures Conforms(ListOf(of), sel, Erase(List([Complete(of, sel, item).response]))) ==>
              Conforms(of, sel, Erase(Complete(of, sel, item).response))
  {
    var out, r := Items([item]), Complete(of, sel, item).response;
    assert Fits(ListOf(of), sel, out);
    assert CompleteItems(of, sel, out) == [Done(r)];
    assert Gather([Done(r)]).value == [r];
    OneErased(of, sel, r);
  }

  lemma OneErased(of: Type, sel: seq<Field>, r: Response)
    ensures Conforms(ListOf(of), sel, Erase(List([r]))) ==> Conforms(of, sel, Erase(r))
  {
    assert Erase(List([r])).items[0] == Erase(r);
  }

  lemma WrapObject(o: ObjectType, sel: seq<Field>, fields: seq<Outcome>)
    requires |fields| == |sel| && forall k | 0 <= k < |sel| :: Shows(o, sel[k], fields[k])
    ensures var out, t := Obj(o, fields), Composite(o);
            && Fits(t, sel, out) && Complete(t, sel, out).Done? && Complete(t, sel, out).response.Object?
            && (Conforms(t, sel, Erase(Complete(t, sel, out).response)) ==> DeferFree(t, sel))
  {
    var out, t := Obj(o, fields), Composite(o);
    assert Fits(t, sel, out);
    var cs := CompleteFields(o, sel, out);
    assert forall k | 0 <= k < |sel| :: Shows(o, sel[k], fields[k]) && cs[k] == CompleteField(o, sel[k], fields[k]);
    var r := Erase(Complete(t, sel, out).response);
    if Conforms(t, sel, r) {
      forall k | 0 <= k < |sel| ensures DeferFreeField(o, sel[k]) {
        assert ConformsField(o, sel[k], r.fields[k]);
        assert r.fields[k] == Erase(cs[k].response);
      }
    }
  }

  lemma {:induction false} SampleShows(o: ObjectType, f: Field)
    requires KnownDeep(o, f)
    ensures Shows(o, f, SampleField(o, f))
    decreases f
  {
    if !f.name.Typename? {
      var t := FieldType(o, f.name).value;
      if Core(t).Some? {
        forall k | 0 <= k < |f.sub| ensures Shows(Core(t).value, f.sub[k], SampleField(Core(t).value, f.sub[k])) {
          SampleShows(Core(t).value, f.sub[k]);
        }
        WrapCompletes(t, f.sub, seq(|f.sub|, k requires 0 <= k < |f.sub| => SampleField(Core(t).value, f.sub[k])));
      } else {
        WrapCompletes(t, f.sub, []);
      }
      FieldShows(o, f, SampleField(o, f));
    }
  }

  /** A deferred field is written as null where the schema has none. */
  lemma FieldShows(o: ObjectType, f: Field, out: Outcome)
    requires Known(o, f) && !f.name.Typename?
    requires var t := FieldType(o, f.name).value;
             && Fits(t, f.sub, out) && Complete(t, f.sub, out).Done?
             && (Conforms(t, f.sub, Erase(Complete(t, f.sub, out).response)) ==> DeferFree(t, f.sub))
    ensures Shows(o, f, out)
  {
    var t := FieldType(o, f.name).value;
    if Deferred(o, f) {
      assert t.NonNull?;
      assert Erase(Absent) == Null;
    } else {
      assert CompleteField(o, f, out) == Complete(t, f.sub, out);
    }
  }

  /**
   The initial response has no null at a non-null position, whatever the resolvers do, exactly when
   the operation defers none of the fields that can be.
   */
  lemma NonNullUnlessDeferred(t: Type, sel: seq<Field>)
    requires KnownAll(t, sel)
    ensures (forall out | Fits(t, sel, out) && Catch(t, sel, out).Done? :: Conforms(t, sel, Written(Catch(t, sel, out)))) <==>
            DeferFree(t, sel)
  {
    if DeferFree(t, sel) {
      forall out | Fits(t, sel, out) && Catch(t, sel, out).Done? ensures Conforms(t, sel, Written(Catch(t, sel, out))) {
        CaughtConforms(t, sel, out);
      }
    } else {
      var o := Core(t).value;
      forall k | 0 <= k < |sel| ensures Shows(o, sel[k], SampleField(o, sel[k])) {
        SampleShows(o, sel[k]);
      }
      WrapCompletes(t, sel, seq(|sel|, k requires 0 <= k < |sel| => SampleField(o, sel[k])));
      var out := Sample(t, sel);
      assert Fits(t, sel, out) && Catch(t, sel, out).Done? && !Conforms(t, sel, Written(Catch(t, sel, out)));
    }
  }

  /** `{ addresses @defer { totalCount } }` on a user, with resolvers that all succeed. */
  lemma DeferredAddressesAreNull()
    ensures var sel := [Field(Addresses, [Field(TotalCount, [], [])], [""])];
            var out := Obj(User, [Obj(UserAddressConnection, [Leaf(0)])]);
            && KnownAll(Composite(User), sel) && Fits(Composite(User), sel, out)
            && Written(Catch(Composite(User), sel, out)) == Object(User, [Null])
            && !Conforms(Composite(User), sel, Object(User, [Null]))
  {
    var count := Field(TotalCount, [], []);
    var addresses := Field(Addresses, [count], [""]);
    var connection := Obj(UserAddressConnection, [Leaf(0)]);
    assert FitsField(UserAddressConnection, count, Leaf(0)) && KnownDeep(UserAddressConnection, count);
    assert Fits(Composite(UserAddressConnection), [count], connection);
    OneDeferredField(User, addresses, connection);
    ConformsInside(User, addresses, Null);
  }

  lemma ConformsInside(o: ObjectType, f: Field, r: Response)
    ensures Conforms(Composite(o), [f], Object(o, [r])) ==> ConformsField(o, f, r)
  {
    assert [f][0] == f && Object(o, [r]).fields[0] == r;
  }

  lemma OneDeferredField(o: ObjectType, f: Field, out: Outcome)
    requires FitsField(o, f, out) && Deferred(o, f)
    ensures Fits(Composite(o), [f], Obj(o, [out]))
    ensures Written(Catch(Composite(o), [f], Obj(o, [out]))) == Object(o, [Null])
  {
    assert Fits(Composite(o), [f], Obj(o, [out]));
    assert CompleteFields(o, [f], Obj(o, [out])) == [Done(Absent)];
    assert Gather([Done(Absent)]).value == [Absent];
    assert Erase(Object(o, [Absent])).fields == [Null];
  }
}
