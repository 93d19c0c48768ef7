/** The `_entities` list: nullable elements, each of one of three types, where every null stops. */
module EntityMarshaller {
  import opened Sums
  import opened Schema
  import opened Completion
  import opened ResponseRelation
  import opened CompletionLaws
  import opened Deferral
  import opened FieldSets
  import opened Marshallers

  /** A Go interface value: nil, or a type with a value; Typed(o, Nil) is a nil pointer of type o. */
  datatype Entity = NilEntity | Typed(o: ObjectType, value: Outcome)

  /** The fields collected from the selection set for each of the types. */
  datatype Selections = Selections(user: seq<Field>, userAddress: seq<Field>, vendorAddress: seq<Field>)

  function SelectionFor(sels: Selections, o: ObjectType): seq<Field> {
    if o.User? then sels.user else if o.UserAddress? then sels.userAddress else sels.vendorAddress
  }

  ghost predicate EntityFits(sels: Selections, e: Entity) {
    e.Typed? ==>
      && (e.o.User? || e.o.UserAddress? || e.o.VendorAddress?)
      && Fits(Composite(e.o), SelectionFor(sels, e.o), e.value)
  }

  /** An element of the list completes at a nullable position of its own type. */
  ghost function EntityResponse(sels: Selections, e: Entity): Response
    requires EntityFits(sels, e)
  {
    if e.NilEntity? then Null else Written(Catch(Composite(e.o), SelectionFor(sels, e.o), e.value))
  }

  /** A nil interface shows null; a value shows what its own type and the selection for that type ask for. */
  ghost predicate EntityAnswers(sels: Selections, e: Entity, r: Response)
    requires EntityFits(sels, e)
  {
    && (e.NilEntity? ==> r == Null)
    && (e.Typed? && e.o.User? ==> Answers(Composite(User), sels.user, e.value, r))
    && (e.Typed? && e.o.UserAddress? ==> Answers(Composite(UserAddress), sels.userAddress, e.value, r))
    && (e.Typed? && e.o.VendorAddress? ==> Answers(Composite(VendorAddress), sels.vendorAddress, e.value, r))
  }

  lemma EntityIsAnswered(sels: Selections, e: Entity)
    requires EntityFits(sels, e)
    ensures EntityAnswers(sels, e, EntityResponse(sels, e))
  {
    if e.Typed? {
      CaughtAnswers(Composite(e.o), SelectionFor(sels, e.o), e.value);
    }
  }

  ghost function EntityRegisters(sels: Selections, e: Entity): nat
    requires EntityFits(sels, e)
  {
    if e.NilEntity? then 0 else Registers(Composite(e.o), SelectionFor(sels, e.o), e.value)
  }

  /** `marshalO_Entity` and `__Entity`: a nil pointer inside a non-nil interface is null as well. */
  method MarshalEntity(ec: ExecutionContext, sels: Selections, e: Entity) returns (r: Response)
    requires EntityFits(sels, e)
    modifies ec
    ensures r == EntityResponse(sels, e)
    ensures EntityAnswers(sels, e, r)
    ensures ec.deferred == old(ec.deferred) + EntityRegisters(sels, e)
  {
    EntityIsAnswered(sels, e);
    if e.NilEntity? || e.value.Nil? || e.value.Failed? {
      return Null;
    }
    match e.o
    case User => r := MarshalUser(ec, sels.user, e.value);
    case UserAddress => r := MarshalUserAddress(ec, sels.userAddress, e.value);
    case VendorAddress => r := MarshalVendorAddress(ec, sels.vendorAddress, e.value);
    case _ => assert false;
  }

  ghost predicate AllFit(sels: Selections, es: seq<Entity>) {
    forall k | 0 <= k < |es| :: EntityFits(sels, es[k])
  }

  ghost function EntityResponses(sels: Selections, es: seq<Entity>): seq<Response>
    requires AllFit(sels, es)
  {
    seq(|es|, k requires 0 <= k < |es| => EntityResponse(sels, es[k]))
  }

  ghost function EntityCounts(sels: Selections, es: seq<Entity>): seq<nat>
    requires AllFit(sels, es)
  {
    seq(|es|, k requires 0 <= k < |es| => EntityRegisters(sels, es[k]))
  }

  lemma ElementsAnswer(sels: Selections, es: seq<Entity>, ret: seq<Response>)
    requires AllFit(sels, es) && ret == WrittenAll(EntityCompletions(sels, es))
    ensures ret == EntityResponses(sels, es)
    ensures |ret| == |es| && forall k | 0 <= k < |es| :: EntityAnswers(sels, es[k], ret[k])
  {
    forall k | 0 <= k < |es| ensures EntityAnswers(sels, es[k], EntityResponses(sels, es)[k]) {
      EntityIsAnswered(sels, es[k]);
    }
  }

  /** Element k answers representation k, whatever becomes of the others; the list is never null. */
  method MarshalEntities(ec: ExecutionContext, sels: Selections, es: seq<Entity>) returns (r: Response)
    requires AllFit(sels, es)
    modifies ec
    ensures r == List(EntityResponses(sels, es))
    ensures forall k | 0 <= k < |es| :: EntityAnswers(sels, es[k], r.items[k])
    ensures ec.deferred == old(ec.deferred) + Sum(EntityCounts(sels, es))
  {
    var ret := new Response[|es|](_ => Null);
    var pending := Indices(|es|);
    ghost var weights := EntityCounts(sels, es);
    ghost var cs := EntityCompletions(sels, es);
    ghost var counted: seq<nat> := seq(|es|, _ => 0);
    FieldSet.Zeros(|es|);
    while pending != {}
      invariant Filled(ret[..], pending, counted, cs, weights)
      invariant ec.deferred == old(ec.deferred) + Sum(counted)
      decreases |pending|
    {
      var k :| k in pending;
      var e := MarshalEntity(ec, sels, es[k]);
      Fill(ret[..], pending, counted, cs, weights, k, e);
      ret[k] := e;
      pending, counted := pending - {k}, counted[k := weights[k]];
    }
    FilledUp(ret[..], counted, cs, weights);
    ElementsAnswer(sels, es, ret[..]);
    return List(ret[..]);
  }

  ghost function EntityCompletion(sels: Selections, e: Entity): Completion
    requires EntityFits(sels, e)
  {
    if e.NilEntity? then Done(Null) else Catch(Composite(e.o), SelectionFor(sels, e.o), e.value)
  }

  ghost function EntityCompletions(sels: Selections, es: seq<Entity>): seq<Completion>
    requires AllFit(sels, es)
  {
    seq(|es|, k requires 0 <= k < |es| => EntityCompletion(sels, es[k]))
  }

  /** Without @defer every element is null or an object that conforms to its type. */
  lemma EntitiesConform(sels: Selections, e: Entity)
    requires EntityFits(sels, e) && e.Typed? && DeferFree(Composite(e.o), SelectionFor(sels, e.o))
    ensures Conforms(Composite(e.o), SelectionFor(sels, e.o), EntityResponse(sels, e))
    ensures EntityRegisters(sels, e) == 0
  {
    CaughtConforms(Composite(e.o), SelectionFor(sels, e.o), e.value);
    DeferFreeRegistersNothing(Composite(e.o), SelectionFor(sels, e.o), e.value);
  }

  // ----- How far a null travels -----

  /** A field of non-null type that raises takes its object with it. */
  lemma RaisingFieldNullsObject(o: ObjectType, sel: seq<Field>, obj: Outcome, k: nat)
    requires obj.Obj? && Fits(Composite(o), sel, obj) && k < |sel| && CompleteFields(o, sel, obj)[k].Raise?
    ensures Complete(Composite(o), sel, obj).Raise? && Complete(NonNull(Composite(o)), sel, obj).Raise?
  {
  }

  /** A node that cannot be completed nulls the list, the connection and the user, and no more. */
  lemma NullNodeNullsTheEntity(sels: Selections, user: Outcome, a: nat, n: nat, i: nat)
    requires EntityFits(sels, Typed(User, user)) && user.Obj?
    requires a < |sels.user| && sels.user[a].name.Addresses? && !Deferred(User, sels.user[a])
    requires var connection, sub := user.fields[a], sels.user[a].sub;
             && connection.Obj? && n < |sub| && n < |connection.fields| && sub[n].name.Nodes?
             && connection.fields[n].Items? && i < |connection.fields[n].items|
             && Fits(NODE, sub[n].sub, connection.fields[n].items[i])
             && Catch(NODE, sub[n].sub, connection.fields[n].items[i]).Raise?
    ensures EntityResponse(sels, Typed(User, user)) == Null
  {
    var connection, sub := user.fields[a], sels.user[a].sub;
    PlainField(User, sels.user, user, a, NonNull(Composite(UserAddressConnection)));
    PlainField(UserAddressConnection, sub, connection, n, NODES);
    ElementAt(sub[n].sub, connection.fields[n], i);
    NodesAre(sub[n].sub, connection.fields[n]);
    assert CompleteItems(NODE, sub[n].sub, connection.fields[n])[i].Raise?;
    RaisingFieldNullsObject(UserAddressConnection, sub, connection, n);
    RaisingFieldNullsObject(User, sels.user, user, a);
  }
}
