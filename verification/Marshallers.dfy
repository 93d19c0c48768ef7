/**
 The object marshallers: a loop over the selected fields, a switch on the name, a count of the nulls
 that may not be, and the delayed fields run in whatever order. Each writes what the specification
 completes to, and registers the deferred groups it should.
 */
module Marshallers {
  import opened Wrappers
  import opened Sums
  import opened Schema
  import opened Completion
  import opened ResponseRelation
  import opened Deferral
  import opened FieldSets

  // ----- What a field of each kind must come to -----

  ghost predicate At(o: ObjectType, sel: seq<Field>, obj: Outcome, i: nat) {
    obj.Obj? && Fits(Composite(o), sel, obj) && i < |sel|
  }

  lemma TypenameField(o: ObjectType, sel: seq<Field>, obj: Outcome, i: nat)
    requires At(o, sel, obj, i) && sel[i].name.Typename?
    ensures CompleteFields(o, sel, obj)[i] == Done(TypenameValue(o)) && RegistersFields(o, sel, obj)[i] == 0
  {
  }

  lemma DeferredField(o: ObjectType, sel: seq<Field>, obj: Outcome, i: nat)
    requires At(o, sel, obj, i) && Deferred(o, sel[i])
    ensures CompleteFields(o, sel, obj)[i] == Done(Absent) && RegistersFields(o, sel, obj)[i] == 0
  {
  }

  lemma PlainField(o: ObjectType, sel: seq<Field>, obj: Outcome, i: nat, t: Type)
    requires At(o, sel, obj, i) && FieldType(o, sel[i].name) == Some(t) && !Deferred(o, sel[i]) && !sel[i].name.Typename?
    ensures Fits(t, sel[i].sub, obj.fields[i])
    ensures CompleteFields(o, sel, obj)[i] == Catch(t, sel[i].sub, obj.fields[i])
    ensures RegistersFields(o, sel, obj)[i] == Registers(t, sel[i].sub, obj.fields[i])
  {
    assert FitsField(o, sel[i], obj.fields[i]);
  }

  /** `graphql.ResolveField` on a leaf: an error or nil shows as null, the rest is marshalled. */
  function LeafField(out: Outcome): Response {
    if out.Leaf? then ScalarValue(out.value) else Null
  }

  lemma RequiredLeaf(o: ObjectType, sel: seq<Field>, obj: Outcome, i: nat)
    requires At(o, sel, obj, i) && FieldType(o, sel[i].name) == Some(NonNull(Scalar))
    ensures var c := CompleteFields(o, sel, obj)[i];
            Written(c) == LeafField(obj.fields[i]) && (Written(c).Null? <==> c.Raise?)
    ensures RegistersFields(o, sel, obj)[i] == 0
  {
    PlainField(o, sel, obj, i, NonNull(Scalar));
    assert Complete(Scalar, sel[i].sub, obj.fields[i]).Done? ==> obj.fields[i].Nil? || obj.fields[i].Leaf?;
  }

  lemma KnownField(o: ObjectType, sel: seq<Field>, obj: Outcome, i: nat)
    requires At(o, sel, obj, i)
    ensures Known(o, sel[i])
  {
    assert FitsField(o, sel[i], obj.fields[i]);
  }

  lemma OptionalLeaf(o: ObjectType, sel: seq<Field>, obj: Outcome, i: nat)
    requires At(o, sel, obj, i) && FieldType(o, sel[i].name) == Some(Scalar)
    ensures var c := CompleteFields(o, sel, obj)[i];
            c.Done? && Written(c) == LeafField(obj.fields[i])
    ensures RegistersFields(o, sel, obj)[i] == 0
  {
    PlainField(o, sel, obj, i, Scalar);
  }

  /** The object is null when some field raised; only otherwise are its groups registered. */
  lemma ObjectIs(o: ObjectType, sel: seq<Field>, obj: Outcome)
    requires obj.Obj? && Fits(Composite(o), sel, obj)
    ensures var all := Gather(CompleteFields(o, sel, obj));
            && Complete(Composite(o), sel, obj) == (if all.None? then Raise else Done(Object(o, all.value)))
            && Registers(Composite(o), sel, obj) == Sum(RegistersFields(o, sel, obj)) + (if all.None? then 0 else |Labels(o, sel)|)
  {
  }

  lemma NoLabelsHere(o: ObjectType, sel: seq<Field>)
    requires !o.User? && !o.UserAddress?
    ensures Labels(o, sel) == {}
  {
    NoneDeferred(o, sel, |sel|);
  }

  // ----- Single fields -----

  /** The field set is on its way to the completion of this object. */
  ghost predicate Filling(out: FieldSet, o: ObjectType, sel: seq<Field>, obj: Outcome)
    reads out, out.values
  {
    && obj.Obj? && Fits(Composite(o), sel, obj)
    && out.Valid() && out.want == CompleteFields(o, sel, obj) && out.weights == RegistersFields(o, sel, obj)
  }

  method StartFieldSet(o: ObjectType, sel: seq<Field>, ghost obj: Outcome) returns (out: FieldSet)
    requires obj.Obj? && Fits(Composite(o), sel, obj)
    ensures fresh(out) && fresh(out.values) && Filling(out, o, sel, obj)
    ensures out.Reached(0) && out.delayed == {} && Sum(out.counted) == 0
  {
    out := new FieldSet(|sel|, CompleteFields(o, sel, obj), RegistersFields(o, sel, obj));
  }

  method SetTypename(out: FieldSet, o: ObjectType, ghost sel: seq<Field>, ghost obj: Outcome, i: nat)
    requires Filling(out, o, sel, obj) && out.Reached(i) && i < |sel| && sel[i].name.Typename?
    modifies out, out.values
    ensures Filling(out, o, sel, obj) && out.Reached(i + 1) && out.delayed == old(out.delayed)
    ensures Sum(out.counted) == old(Sum(out.counted))
  {
    TypenameField(o, sel, obj, i);
    out.Set(i, TypenameValue(o));
  }

  method SetRequiredLeaf(out: FieldSet, o: ObjectType, ghost sel: seq<Field>, obj: Outcome, i: nat)
    requires Filling(out, o, sel, obj) && out.Reached(i) && i < |sel| && FieldType(o, sel[i].name) == Some(NonNull(Scalar))
    modifies out, out.values
    ensures Filling(out, o, sel, obj) && out.Reached(i + 1) && out.delayed == old(out.delayed)
    ensures Sum(out.counted) == old(Sum(out.counted))
  {
    RequiredLeaf(o, sel, obj, i);
    out.SetRequired(i, LeafField(obj.fields[i]));
  }

  method SetOptionalLeaf(out: FieldSet, o: ObjectType, ghost sel: seq<Field>, obj: Outcome, i: nat)
    requires Filling(out, o, sel, obj) && out.Reached(i) && i < |sel| && FieldType(o, sel[i].name) == Some(Scalar)
    modifies out, out.values
    ensures Filling(out, o, sel, obj) && out.Reached(i + 1) && out.delayed == old(out.delayed)
    ensures Sum(out.counted) == old(Sum(out.counted))
  {
    OptionalLeaf(o, sel, obj, i);
    out.SetOptional(i, LeafField(obj.fields[i]));
  }

  method SetName(ec: ExecutionContext, out: FieldSet, o: ObjectType, sel: seq<Field>, obj: Outcome, i: nat)
    requires Filling(out, o, sel, obj) && out.Reached(i) && i < |sel| && FieldType(o, sel[i].name) == Some(Composite(Name))
    modifies ec, out, out.values
    ensures Filling(out, o, sel, obj) && out.Reached(i + 1) && out.delayed == old(out.delayed)
    ensures ec.deferred - Sum(out.counted) == old(ec.deferred - Sum(out.counted))
    decreases obj, 0
  {
    PlainField(o, sel, obj, i, Composite(Name));
    NullableNeverRaises(Composite(Name), sel[i].sub, obj.fields[i]);
    var v := OptionalName(ec, sel[i].sub, obj.fields[i]);
    out.SetOptional(i, v);
  }

  /** `out.Values[i] = Null` for a field put off, which no count sees; and its labels' views. */
  method Defer(out: FieldSet, later: DeferredSet, o: ObjectType, sel: seq<Field>, ghost obj: Outcome, i: nat)
    requires Filling(out, o, sel, obj) && out.Reached(i) && i < |sel| && Deferred(o, sel[i])
    requires later.Valid(sel) && later.views.Keys == LabelsTo(o, sel, i)
    modifies out, out.values, later
    ensures Filling(out, o, sel, obj) && out.Reached(i + 1) && out.delayed == old(out.delayed)
    ensures Sum(out.counted) == old(Sum(out.counted))
    ensures later.Valid(sel) && later.views.Keys == LabelsTo(o, sel, i + 1)
  {
    PutOff(later, o, sel, i);
    SetPlaceholder(out, o, sel, obj, i);
  }

  method SetPlaceholder(out: FieldSet, o: ObjectType, ghost sel: seq<Field>, ghost obj: Outcome, i: nat)
    requires Filling(out, o, sel, obj) && out.Reached(i) && i < |sel| && Deferred(o, sel[i])
    modifies out, out.values
    ensures Filling(out, o, sel, obj) && out.Reached(i + 1) && out.delayed == old(out.delayed)
    ensures Sum(out.counted) == old(Sum(out.counted))
  {
    DeferredField(o, sel, obj, i);
    out.Set(i, Null);
  }

  method PutOff(later: DeferredSet, ghost o: ObjectType, sel: seq<Field>, i: nat)
    requires i < |sel| && Deferred(o, sel[i])
    requires later.Valid(sel) && later.views.Keys == LabelsTo(o, sel, i)
    modifies later
    ensures later.Valid(sel) && later.views.Keys == LabelsTo(o, sel, i + 1)
  {
    LabelsStay(o, sel, i);
    later.Add(i, sel[i].labels, sel);
  }

  /** The delayed fields are all of one name, and none of them is put off. */
  ghost predicate Awaits(out: FieldSet, o: ObjectType, name: FieldName, sel: seq<Field>)
    reads out
  {
    forall k | k in out.delayed :: k < |sel| && sel[k].name == name && !Deferred(o, sel[k])
  }

  /** The loop of an object that can defer stands at field i. */
  ghost predicate Ready(out: FieldSet, later: DeferredSet, o: ObjectType, name: FieldName, sel: seq<Field>, obj: Outcome, i: nat)
    reads out, out.values, later
  {
    && Filling(out, o, sel, obj) && i <= |sel| && out.Reached(i) && Awaits(out, o, name, sel)
    && later.Valid(sel) && later.views.Keys == LabelsTo(o, sel, i)
  }

  method StartDeferrable(o: ObjectType, ghost name: FieldName, sel: seq<Field>, ghost obj: Outcome)
    returns (out: FieldSet, later: DeferredSet)
    requires obj.Obj? && Fits(Composite(o), sel, obj)
    ensures fresh(out) && fresh(out.values) && fresh(later)
    ensures Ready(out, later, o, name, sel, obj, 0) && Sum(out.counted) == 0
  {
    out := StartFieldSet(o, sel, obj);
    later := new DeferredSet();
  }

  /** What is left when every field is in. */
  method Finish(ec: ExecutionContext, out: FieldSet, views: nat, o: ObjectType, ghost sel: seq<Field>, ghost obj: Outcome)
    returns (r: Response)
    requires Filling(out, o, sel, obj) && out.Reached(|sel|) && out.delayed == {} && views == |Labels(o, sel)|
    modifies ec
    ensures r == Written(Complete(Composite(o), sel, obj))
    ensures ec.deferred - Registers(Composite(o), sel, obj) == old(ec.deferred - Sum(out.counted))
  {
    out.Summary(o);
    ObjectIs(o, sel, obj);
    if out.invalids > 0 {
      return Null;
    }
    ec.deferred := ec.deferred + views;
    return Object(o, out.values[..]);
  }

  method FinishDeferrable(ec: ExecutionContext, out: FieldSet, later: DeferredSet, o: ObjectType, ghost name: FieldName,
                          ghost sel: seq<Field>, ghost obj: Outcome)
    returns (r: Response)
    requires Ready(out, later, o, name, sel, obj, |sel|) && out.delayed == {}
    modifies ec
    ensures r == Written(Complete(Composite(o), sel, obj))
    ensures ec.deferred - Registers(Composite(o), sel, obj) == old(ec.deferred - Sum(out.counted))
  {
    assert |later.views| == |later.views.Keys|;
    r := Finish(ec, out, |later.views|, o, sel, obj);
  }

  // ----- The marshallers -----

  method MarshalName(ec: ExecutionContext, sel: seq<Field>, obj: Outcome) returns (r: Response)
    requires obj.Obj? && Fits(Composite(Name), sel, obj)
    modifies ec
    ensures r == Written(Complete(Composite(Name), sel, obj))
    ensures Answers(Composite(Name), sel, obj, r)
    ensures ec.deferred == old(ec.deferred) + Registers(Composite(Name), sel, obj)
    decreases obj, 2
  {
    var out := StartFieldSet(Name, sel, obj);
    for i := 0 to |sel|
      invariant Filling(out, Name, sel, obj) && out.Reached(i) && out.delayed == {}
      invariant ec.deferred == old(ec.deferred) + Sum(out.counted)
    {
      KnownField(Name, sel, obj, i);
      match sel[i].name
      case Typename => SetTypename(out, Name, sel, obj, i);
      case FirstName | LastName => SetRequiredLeaf(out, Name, sel, obj, i);
      case _ => assert false;
    }
    NoLabelsHere(Name, sel);
    r := Finish(ec, out, 0, Name, sel, obj);
    CompletedAnswers(Composite(Name), sel, obj);
  }

  /** `marshalOName`, behind a nullable field. */
  method OptionalName(ec: ExecutionContext, sel: seq<Field>, v: Outcome) returns (r: Response)
    requires Fits(Composite(Name), sel, v)
    modifies ec
    ensures r == Written(Catch(Composite(Name), sel, v))
    ensures ec.deferred == old(ec.deferred) + Registers(Composite(Name), sel, v)
    decreases v, 3
  {
    if v.Failed? || v.Nil? {
      return Null;
    }
    r := MarshalName(ec, sel, v);
  }

  method MarshalVendorAddress(ec: ExecutionContext, sel: seq<Field>, obj: Outcome) returns (r: Response)
    requires obj.Obj? && Fits(Composite(VendorAddress), sel, obj)
    modifies ec
    ensures r == Written(Complete(Composite(VendorAddress), sel, obj))
    ensures Answers(Composite(VendorAddress), sel, obj, r)
    ensures ec.deferred == old(ec.deferred) + Registers(Composite(VendorAddress), sel, obj)
    decreases obj, 2
  {
    var out := StartFieldSet(VendorAddress, sel, obj);
    for i := 0 to |sel|
      invariant Filling(out, VendorAddress, sel, obj) && out.Reached(i) && out.delayed == {}
      invariant ec.deferred == old(ec.deferred) + Sum(out.counted)
    {
      KnownField(VendorAddress, sel, obj, i);
      match sel[i].name
      case Typename => SetTypename(out, VendorAddress, sel, obj, i);
      case City | Country | Id | PostalCode | Street1 | Street2 => SetRequiredLeaf(out, VendorAddress, sel, obj, i);
      case CompanyName => SetOptionalLeaf(out, VendorAddress, sel, obj, i);
      case NameField => SetName(ec, out, VendorAddress, sel, obj, i);
      case _ => assert false;
    }
    NoLabelsHere(VendorAddress, sel);
    r := Finish(ec, out, 0, VendorAddress, sel, obj);
    CompletedAnswers(Composite(VendorAddress), sel, obj);
  }

  /** `out.Dispatch`: each delayed field is resolved, whichever is next. */
  method DispatchUserField(ec: ExecutionContext, out: FieldSet, later: DeferredSet, sel: seq<Field>, obj: Outcome)
    requires Ready(out, later, UserAddress, UserField, sel, obj, |sel|)
    modifies ec, out, out.values
    ensures Ready(out, later, UserAddress, UserField, sel, obj, |sel|) && out.delayed == {}
    ensures ec.deferred - Sum(out.counted) == old(ec.deferred - Sum(out.counted))
    decreases obj, 1
  {
    while out.delayed != {}
      invariant Filling(out, UserAddress, sel, obj) && out.Reached(|sel|)
      invariant ec.deferred - Sum(out.counted) == old(ec.deferred - Sum(out.counted))
      invariant Awaits(out, UserAddress, UserField, sel)
      decreases |out.delayed|
    {
      var k :| k in out.delayed;
      PlainField(UserAddress, sel, obj, k, NonNull(Composite(User)));
      NullMeansRaised(NonNull(Composite(User)), sel[k].sub, obj.fields[k]);
      var v := RequiredUser(ec, sel[k].sub, obj.fields[k]);
      out.SetRequired(k, v);
    }
  }

  method SetUserAddressField(ec: ExecutionContext, out: FieldSet, later: DeferredSet, sel: seq<Field>, obj: Outcome, i: nat)
    requires i < |sel| && Ready(out, later, UserAddress, UserField, sel, obj, i)
    modifies ec, out, out.values, later
    ensures Ready(out, later, UserAddress, UserField, sel, obj, i + 1)
    ensures ec.deferred - Sum(out.counted) == old(ec.deferred - Sum(out.counted))
    decreases obj, 1
  {
    KnownField(UserAddress, sel, obj, i);
    LabelsStay(UserAddress, sel, i);
    match sel[i].name
    case Typename => SetTypename(out, UserAddress, sel, obj, i);
    case City | Country | Id | IsArchived | PostalCode | Street1 | Street2 => SetRequiredLeaf(out, UserAddress, sel, obj, i);
    case ArchivedAt | CompanyName => SetOptionalLeaf(out, UserAddress, sel, obj, i);
    case NameField => SetName(ec, out, UserAddress, sel, obj, i);
    case UserField =>
      if |sel[i].labels| > 0 {
        Defer(out, later, UserAddress, sel, obj, i);
      } else {
        out.Concurrently(i);
      }
    case _ => assert false;
  }

  method MarshalUserAddress(ec: ExecutionContext, sel: seq<Field>, obj: Outcome) returns (r: Response)
    requires obj.Obj? && Fits(Composite(UserAddress), sel, obj)
    modifies ec
    ensures r == Written(Complete(Composite(UserAddress), sel, obj))
    ensures Answers(Composite(UserAddress), sel, obj, r)
    ensures ec.deferred == old(ec.deferred) + Registers(Composite(UserAddress), sel, obj)
    decreases obj, 2
  {
    var out, later := StartDeferrable(UserAddress, UserField, sel, obj);
    for i := 0 to |sel|
      invariant Ready(out, later, UserAddress, UserField, sel, obj, i)
      invariant ec.deferred == old(ec.deferred) + Sum(out.counted)
    {
      SetUserAddressField(ec, out, later, sel, obj, i);
    }
    DispatchUserField(ec, out, later, sel, obj);
    r := FinishDeferrable(ec, out, later, UserAddress, UserField, sel, obj);
    CompletedAnswers(Composite(UserAddress), sel, obj);
  }

  /** `marshalNUser`: a nil user is a null where the schema has none. */
  method RequiredUser(ec: ExecutionContext, sel: seq<Field>, v: Outcome) returns (r: Response)
    requires Fits(NonNull(Composite(User)), sel, v)
    modifies ec
    ensures r == Written(Catch(NonNull(Composite(User)), sel, v))
    ensures ec.deferred == old(ec.deferred) + Registers(NonNull(Composite(User)), sel, v)
    decreases v, 3
  {
    if v.Failed? || v.Nil? {
      return Null;
    }
    r := MarshalUser(ec, sel, v);
  }

  /** `out.Dispatch`: each delayed field is resolved, whichever is next. */
  method DispatchAddresses(ec: ExecutionContext, out: FieldSet, later: DeferredSet, sel: seq<Field>, obj: Outcome)
    requires Ready(out, later, User, Addresses, sel, obj, |sel|)
    modifies ec, out, out.values
    ensures Ready(out, later, User, Addresses, sel, obj, |sel|) && out.delayed == {}
    ensures ec.deferred - Sum(out.counted) == old(ec.deferred - Sum(out.counted))
    decreases obj, 1
  {
    while out.delayed != {}
      invariant Filling(out, User, sel, obj) && out.Reached(|sel|)
      invariant ec.deferred - Sum(out.counted) == old(ec.deferred - Sum(out.counted))
      invariant Awaits(out, User, Addresses, sel)
      decreases |out.delayed|
    {
      var k :| k in out.delayed;
      PlainField(User, sel, obj, k, NonNull(Composite(UserAddressConnection)));
      NullMeansRaised(NonNull(Composite(UserAddressConnection)), sel[k].sub, obj.fields[k]);
      var v := RequiredConnection(ec, sel[k].sub, obj.fields[k]);
      out.SetRequired(k, v);
    }
  }

  method SetUserField(ec: ExecutionContext, out: FieldSet, later: DeferredSet, sel: seq<Field>, obj: Outcome, i: nat)
    requires i < |sel| && Ready(out, later, User, Addresses, sel, obj, i)
    modifies ec, out, out.values, later
    ensures Ready(out, later, User, Addresses, sel, obj, i + 1)
    ensures ec.deferred - Sum(out.counted) == old(ec.deferred - Sum(out.counted))
    decreases obj, 1
  {
    KnownField(User, sel, obj, i);
    LabelsStay(User, sel, i);
    match sel[i].name
    case Typename => SetTypename(out, User, sel, obj, i);
    case Id => SetRequiredLeaf(out, User, sel, obj, i);
    case Addresses =>
      if |sel[i].labels| > 0 {
        Defer(out, later, User, sel, obj, i);
      } else {
        out.Concurrently(i);
      }
    case _ => assert false;
  }

  method MarshalUser(ec: ExecutionContext, sel: seq<Field>, obj: Outcome) returns (r: Response)
    requires obj.Obj? && Fits(Composite(User), sel, obj)
    modifies ec
    ensures r == Written(Complete(Composite(User), sel, obj))
    ensures Answers(Composite(User), sel, obj, r)
    ensures ec.deferred == old(ec.deferred) + Registers(Composite(User), sel, obj)
    decreases obj, 2
  {
    var out, later := StartDeferrable(User, Addresses, sel, obj);
    for i := 0 to |sel|
      invariant Ready(out, later, User, Addresses, sel, obj, i)
      invariant ec.deferred == old(ec.deferred) + Sum(out.counted)
    {
      SetUserField(ec, out, later, sel, obj, i);
    }
    DispatchAddresses(ec, out, later, sel, obj);
    r := FinishDeferrable(ec, out, later, User, Addresses, sel, obj);
    CompletedAnswers(Composite(User), sel, obj);
  }

  /** `marshalNUserAddressConnection`. */
  method RequiredConnection(ec: ExecutionContext, sel: seq<Field>, v: Outcome) returns (r: Response)
    requires Fits(NonNull(Composite(UserAddressConnection)), sel, v)
    modifies ec
    ensures r == Written(Catch(NonNull(Composite(UserAddressConnection)), sel, v))
    ensures ec.deferred == old(ec.deferred) + Registers(NonNull(Composite(UserAddressConnection)), sel, v)
    decreases v, 3
  {
    if v.Failed? || v.Nil? {
      return Null;
    }
    r := MarshalConnection(ec, sel, v);
  }

  method MarshalConnection(ec: ExecutionContext, sel: seq<Field>, obj: Outcome) returns (r: Response)
    requires obj.Obj? && Fits(Composite(UserAddressConnection), sel, obj)
    modifies ec
    ensures r == Written(Complete(Composite(UserAddressConnection), sel, obj))
    ensures Answers(Composite(UserAddressConnection), sel, obj, r)
    ensures ec.deferred == old(ec.deferred) + Registers(Composite(UserAddressConnection), sel, obj)
    decreases obj, 2
  {
    var out := StartFieldSet(UserAddressConnection, sel, obj);
    for i := 0 to |sel|
      invariant Filling(out, UserAddressConnection, sel, obj) && out.Reached(i) && out.delayed == {}
      invariant ec.deferred == old(ec.deferred) + Sum(out.counted)
    {
      KnownField(UserAddressConnection, sel, obj, i);
      match sel[i].name
      case Typename => SetTypename(out, UserAddressConnection, sel, obj, i);
      case HasNextPage | TotalCount => SetRequiredLeaf(out, UserAddressConnection, sel, obj, i);
      case Nodes => SetNodes(ec, out, sel, obj, i);
      case _ => assert false;
    }
    NoLabelsHere(UserAddressConnection, sel);
    r := Finish(ec, out, 0, UserAddressConnection, sel, obj);
    CompletedAnswers(Composite(UserAddressConnection), sel, obj);
  }

  const NODES := NonNull(ListOf(NonNull(Composite(UserAddress))))

  method SetNodes(ec: ExecutionContext, out: FieldSet, sel: seq<Field>, obj: Outcome, i: nat)
    requires Filling(out, UserAddressConnection, sel, obj) && out.Reached(i) && i < |sel| && sel[i].name.Nodes?
    modifies ec, out, out.values
    ensures Filling(out, UserAddressConnection, sel, obj) && out.Reached(i + 1) && out.delayed == old(out.delayed)
    ensures ec.deferred - Sum(out.counted) == old(ec.deferred - Sum(out.counted))
    decreases obj, 0
  {
    PlainField(UserAddressConnection, sel, obj, i, NODES);
    NullMeansRaised(NODES, sel[i].sub, obj.fields[i]);
    var v := RequiredNodes(ec, sel[i].sub, obj.fields[i]);
    out.SetRequired(i, v);
  }

  const NODE := NonNull(Composite(UserAddress))

  /** `marshalNUserAddress` of one element, a value. */
  method ListElement(ec: ExecutionContext, sel: seq<Field>, v: Outcome) returns (r: Response)
    requires Fits(NODE, sel, v) && IsValue(v)
    modifies ec
    ensures r == Written(Catch(NODE, sel, v))
    ensures ec.deferred == old(ec.deferred) + Registers(NODE, sel, v)
    decreases v, 3
  {
    r := MarshalUserAddress(ec, sel, v);
  }

  /** The list of nodes: elements in whatever order; then one null makes the whole list null. */
  method RequiredNodes(ec: ExecutionContext, sel: seq<Field>, v: Outcome) returns (r: Response)
    requires Fits(NODES, sel, v)
    modifies ec
    ensures r == Written(Catch(NODES, sel, v))
    ensures Answers(NODES, sel, v, r)
    ensures ec.deferred == old(ec.deferred) + Registers(NODES, sel, v)
    decreases v, 4
  {
    CaughtAnswers(NODES, sel, v);
    if v.Failed? {
      return Null;
    }
    assert Fits(ListOf(NODE), sel, v);
    var ret := MarshalSlice(ec, sel, v);
    ListIs(sel, v, ret[..]);
    for i := 0 to ret.Length
      invariant forall k | 0 <= k < i :: !ret[k].Null?
    {
      if ret[i].Null? {
        return Null;
      }
    }
    return List(ret[..]);
  }

  function Indices(n: nat): (s: set<nat>)
    ensures forall k: nat :: k in s <==> k < n
  {
    if n == 0 then {} else Indices(n - 1) + {n - 1}
  }

  /** The elements not pending are in place, and their groups counted. */
  ghost predicate Filled(ret: seq<Response>, pending: set<nat>, counted: seq<nat>, cs: seq<Completion>, weights: seq<nat>) {
    && |ret| == |counted| == |cs| == |weights|
    && (forall k | k in pending :: k < |ret|)
    && (forall k | 0 <= k < |ret| && k !in pending :: ret[k] == Written(cs[k]))
    && forall k | 0 <= k < |ret| :: counted[k] == if k in pending then 0 else weights[k]
  }

  lemma Fill(ret: seq<Response>, pending: set<nat>, counted: seq<nat>, cs: seq<Completion>, weights: seq<nat>, k: nat, e: Response)
    requires Filled(ret, pending, counted, cs, weights) && k in pending && e == Written(cs[k])
    ensures Filled(ret[k := e], pending - {k}, counted[k := weights[k]], cs, weights)
    ensures Sum(counted[k := weights[k]]) == Sum(counted) + weights[k]
  {
    SumUpdate(counted, k, weights[k]);
  }

  lemma FilledUp(ret: seq<Response>, counted: seq<nat>, cs: seq<Completion>, weights: seq<nat>)
    requires Filled(ret, {}, counted, cs, weights)
    ensures ret == WrittenAll(cs) && counted == weights
  {
  }

  lemma ElementAt(sel: seq<Field>, v: Outcome, k: nat)
    requires v.Items? && Fits(ListOf(NODE), sel, v) && k < |v.items|
    ensures Fits(NODE, sel, v.items[k]) && IsValue(v.items[k])
    ensures CompleteItems(NODE, sel, v)[k] == Catch(NODE, sel, v.items[k])
    ensures RegistersItems(NODE, sel, v)[k] == Registers(NODE, sel, v.items[k])
  {
  }

  /** `graphql.MarshalSliceConcurrently`. */
  method MarshalSlice(ec: ExecutionContext, sel: seq<Field>, v: Outcome) returns (ret: array<Response>)
    requires v.Items? && Fits(ListOf(NODE), sel, v)
    modifies ec
    ensures fresh(ret) && ret[..] == WrittenAll(CompleteItems(NODE, sel, v))
    ensures ec.deferred == old(ec.deferred) + Sum(RegistersItems(NODE, sel, v))
    decreases v, 3
  {
    var n := |v.items|;
    ret := new Response[n](_ => Null);
    var pending := Indices(n);
    ghost var cs, weights := CompleteItems(NODE, sel, v), RegistersItems(NODE, sel, v);
    ghost var counted: seq<nat> := seq(n, _ => 0);
    FieldSet.Zeros(n);
    while pending != {}
      invariant Filled(ret[..], pending, counted, cs, weights)
      invariant ec.deferred == old(ec.deferred) + Sum(counted)
      decreases |pending|
    {
      var k :| k in pending;
      ElementAt(sel, v, k);
      var e := ListElement(ec, sel, v.items[k]);
      Fill(ret[..], pending, counted, cs, weights, k, e);
      ret[k] := e;
      pending, counted := pending - {k}, counted[k := weights[k]];
    }
    FilledUp(ret[..], counted, cs, weights);
  }

  ghost function WrittenAll(cs: seq<Completion>): seq<Response> {
    seq(|cs|, k requires 0 <= k < |cs| => Written(cs[k]))
  }

  lemma ListIs(sel: seq<Field>, v: Outcome, ret: seq<Response>)
    requires v.Items? && Fits(ListOf(NODE), sel, v) && ret == WrittenAll(CompleteItems(NODE, sel, v))
    ensures (exists k :: 0 <= k < |ret| && ret[k].Null?) ==> Catch(NODES, sel, v).Raise?
    ensures (forall k | 0 <= k < |ret| :: !ret[k].Null?) ==> Written(Catch(NODES, sel, v)) == List(ret)
    ensures Registers(NODES, sel, v) == Sum(RegistersItems(NODE, sel, v))
  {
    var cs := CompleteItems(NODE, sel, v);
    forall k | 0 <= k < |ret| ensures ret[k].Null? <==> cs[k].Raise? {
      NullMeansRaised(NODE, sel, v.items[k]);
    }
    NodesAre(sel, v);
    if forall k | 0 <= k < |ret| :: !ret[k].Null? {
      assert Erase(List(Gather(cs).value)) == List(ret);
    }
  }

  lemma NodesAre(sel: seq<Field>, v: Outcome)
    requires v.Items? && Fits(ListOf(NODE), sel, v)
    ensures var all := Gather(CompleteItems(NODE, sel, v));
            Catch(NODES, sel, v) == if all.None? then Raise else Done(List(all.value))
    ensures Registers(NODES, sel, v) == Sum(RegistersItems(NODE, sel, v))
  {
    assert Complete(NODES, sel, v) == Complete(ListOf(NODE), sel, v);
  }
}
