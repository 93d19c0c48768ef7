/**
 The address service's `_entities` field from end to end: the finders over the stored rows, the
 concurrent resolution of the representations, and the completion of what they resolve to.
 */
module AddressEntities {
  import opened Wrappers
  import opened AddressRows
  import opened Schema
  import opened Completion
  import opened ResponseRelation
  import Fed = Entities
  import FJ = ForkJoin
  import Call = ResolveEntities
  import Out = EntityMarshaller
  import FieldSets

  const USER := "User"
  const USER_ADDRESS := "UserAddress"
  const VENDOR_ADDRESS := "VendorAddress"

  /** A user is its id; its other fields belong to another subgraph. */
  datatype Value = UserRef(id: Uuid) | Row(row: Address)

  function Kept(row: Address, wanted: bool): Option<Value> {
    if wanted then Some(Row(row)) else None
  }

  /**
   The three finders: a user always exists; an address of the other kind is nil, not an error. The
   queries for the ids in lost fail.
   */
  function Find(rows: map<Uuid, Address>, lost: set<Uuid>, typeName: string, id: Uuid): Fed.Lookup<Value> {
    if typeName == USER then Fed.Found(Some(UserRef(id)))
    else if id in lost then Fed.LookupError("get address")
    else if id !in rows then Fed.LookupError("does not exist")
    else Fed.Found(Kept(rows[id], rows[id].IsVendor() == (typeName == VENDOR_ADDRESS)))
  }

  function AddressTypes(rows: map<Uuid, Address>, lost: set<Uuid>, parseId: Fed.Json -> Option<Uuid>): Fed.Service<Value> {
    Fed.Service({USER, USER_ADDRESS, VENDOR_ADDRESS}, parseId, (t, id) => Find(rows, lost, t, id))
  }

  lemma TypesDiffer()
    ensures USER != USER_ADDRESS && USER != VENDOR_ADDRESS && USER_ADDRESS != VENDOR_ADDRESS
  {
    assert |USER| == 4 && |USER_ADDRESS| == 11 && |VENDOR_ADDRESS| == 13;
  }

  /** The key of a representation, when it has one that can be looked up. */
  function KeyOf(parseId: Fed.Json -> Option<Uuid>, rep: Fed.Representation): Option<Uuid> {
    if Fed.ResolverProblem(rep).None? then parseId(rep["id"]) else None
  }

  /**
   Of the two kinds of address exactly one is there for an id that is stored, and it is the stored
   row; the other kind resolves to nil without an error. An unknown id, or a query that fails, is an
   error for both.
   */
  lemma KindDecides(rows: map<Uuid, Address>, lost: set<Uuid>, parseId: Fed.Json -> Option<Uuid>, rep: Fed.Representation)
    requires KeyOf(parseId, rep).Some?
    ensures var id, svc := KeyOf(parseId, rep).value, AddressTypes(rows, lost, parseId);
            var user, address, vendor := Fed.ResolveEntity(svc, USER, rep), Fed.ResolveEntity(svc, USER_ADDRESS, rep),
                                         Fed.ResolveEntity(svc, VENDOR_ADDRESS, rep);
            && user == Ok(Fed.Entity(USER, Some(UserRef(id))))
            && (address.Ok? <==> id in rows && id !in lost) && (vendor.Ok? <==> id in rows && id !in lost)
            && (address.Ok? ==> (address.value.value.Some? <==> rows[id].userId.Some?))
            && (vendor.Ok? ==> (vendor.value.value.Some? <==> rows[id].userId.None?))
            && (address.Ok? && address.value.value.Some? ==> address.value.value == Some(Row(rows[id])))
            && (vendor.Ok? && vendor.value.value.Some? ==> vendor.value.value == Some(Row(rows[id])))
  {
    TypesDiffer();
  }

  // ----- From resolved entities to the response -----

  function TypeOf(typeName: string): ObjectType {
    if typeName == USER then User else if typeName == USER_ADDRESS then UserAddress else VendorAddress
  }

  /** A list cell with, for a value, what the resolvers of its fields give. */
  function ToEntity(cell: Fed.Entity<Value>, tree: (ObjectType, Value) -> Outcome): Out.Entity {
    match cell
    case Nothing => Out.NilEntity
    case Entity(t, None) => Out.Typed(TypeOf(t), Nil)
    case Entity(t, Some(v)) => Out.Typed(TypeOf(t), tree(TypeOf(t), v))
  }

  ghost predicate TreesFit(sels: Out.Selections, tree: (ObjectType, Value) -> Outcome) {
    forall o: ObjectType, v: Value | o.User? || o.UserAddress? || o.VendorAddress? :: Fits(Composite(o), Out.SelectionFor(sels, o), tree(o, v))
  }

  lemma CellsFit(sels: Out.Selections, tree: (ObjectType, Value) -> Outcome, cell: Fed.Entity<Value>)
    requires TreesFit(sels, tree)
    ensures Out.EntityFits(sels, ToEntity(cell, tree))
  {
  }

  /** What element i of the response must be, by representation i alone. */
  ghost function Answer(svc: Fed.Service<Value>, reps: seq<Fed.Representation>, sels: Out.Selections,
                        tree: (ObjectType, Value) -> Outcome, i: nat): Response
    requires TreesFit(sels, tree) && i < |reps|
  {
    var cell := FJ.Cell(FJ.MakeJob(svc, reps), i);
    CellsFit(sels, tree, cell);
    Out.EntityResponse(sels, ToEntity(cell, tree))
  }

  /**
   The element shows the value that was found, under the type the representation names and the
   selection for that type; it is null for a nil pointer and for a representation that fails.
   */
  ghost predicate ItemAnswers(svc: Fed.Service<Value>, rep: Fed.Representation, sels: Out.Selections,
                              tree: (ObjectType, Value) -> Outcome, r: Response)
    requires TreesFit(sels, tree)
  {
    && (forall v | Fed.Finds(svc, rep, USER, Some(v)) :: Answers(Composite(User), sels.user, tree(User, v), r))
    && (forall v | Fed.Finds(svc, rep, USER_ADDRESS, Some(v)) ::
          Answers(Composite(UserAddress), sels.userAddress, tree(UserAddress, v), r))
    && (forall v | Fed.Finds(svc, rep, VENDOR_ADDRESS, Some(v)) ::
          Answers(Composite(VendorAddress), sels.vendorAddress, tree(VendorAddress, v), r))
    && (forall t | Fed.Finds(svc, rep, t, None) :: r == Response.Null)
    && (forall e | Fed.FailsWith(svc, rep, e) :: r == Response.Null)
  }

  lemma ItemIsAnswered(svc: Fed.Service<Value>, rep: Fed.Representation, cell: Fed.Entity<Value>, sels: Out.Selections,
                       tree: (ObjectType, Value) -> Outcome, r: Response)
    requires TreesFit(sels, tree) && FJ.CellAnswers(svc, rep, cell)
    requires Out.EntityFits(sels, ToEntity(cell, tree)) && Out.EntityAnswers(sels, ToEntity(cell, tree), r)
    ensures ItemAnswers(svc, rep, sels, tree, r)
  {
    TypesDiffer();
    Fed.OneAnswer(svc, rep);
    if cell.Entity? {
      assert Fed.Finds(svc, rep, cell.typeName, cell.value);
    }
  }

  /** `_entities`: every schedule of the resolvers and every order of the marshallers give this. */
  method QueryEntities(ec: FieldSets.ExecutionContext, svc: Fed.Service<Value>, reps: seq<Fed.Representation>,
                       sels: Out.Selections, tree: (ObjectType, Value) -> Outcome)
    returns (r: Response, errors: seq<Fed.Error>)
    requires TreesFit(sels, tree)
    modifies ec
    ensures r == List(seq(|reps|, i requires 0 <= i < |reps| => Answer(svc, reps, sels, tree, i)))
    ensures multiset(errors) == FJ.ExpectedErrors(FJ.MakeJob(svc, reps))
    ensures |r.items| == |reps| && forall i | 0 <= i < |reps| :: ItemAnswers(svc, reps[i], sels, tree, r.items[i])
    ensures forall e :: multiset(errors)[e] == |FJ.Failing(svc, reps, e)|
  {
    var list;
    list, errors := Call.ResolveEntities(svc, reps);
    var es := seq(|reps|, i requires 0 <= i < |reps| reads list => ToEntity(list[i], tree));
    forall i | 0 <= i < |es| ensures Out.EntityFits(sels, es[i]) {
      CellsFit(sels, tree, list[i]);
    }
    r := Out.MarshalEntities(ec, sels, es);
    forall i | 0 <= i < |reps| ensures ItemAnswers(svc, reps[i], sels, tree, r.items[i]) {
      assert FJ.CellAnswers(svc, reps[i], list[..][i]);
      ItemIsAnswered(svc, reps[i], list[i], sels, tree, r.items[i]);
    }
  }

  /** A user address asked for by its id, all the way to the response. */
  lemma UserAddressAnswer(rows: map<Uuid, Address>, lost: set<Uuid>, parseId: Fed.Json -> Option<Uuid>, reps: seq<Fed.Representation>,
                          sels: Out.Selections, tree: (ObjectType, Value) -> Outcome, i: nat)
    requires TreesFit(sels, tree) && i < |reps| && Fed.TypeName(reps[i]) == Some(USER_ADDRESS) && KeyOf(parseId, reps[i]).Some?
    ensures var id, svc := KeyOf(parseId, reps[i]).value, AddressTypes(rows, lost, parseId);
            var job, answer := FJ.MakeJob(svc, reps), Answer(svc, reps, sels, tree, i);
            && (id !in rows || id in lost ==> answer == Response.Null && |FJ.ErrorOf(job, i)| == 1)
            && (id in rows && id !in lost && rows[id].IsVendor() ==> answer == Response.Null && FJ.ErrorOf(job, i) == multiset{})
            && (id in rows && id !in lost && !rows[id].IsVendor() ==>
                  && FJ.ErrorOf(job, i) == multiset{}
                  && Answers(Composite(UserAddress), sels.userAddress, tree(UserAddress, Row(rows[id])), answer)
                  && answer == Written(Catch(Composite(UserAddress), sels.userAddress, tree(UserAddress, Row(rows[id])))))
  {
    var svc := AddressTypes(rows, lost, parseId);
    KindDecides(rows, lost, parseId, reps[i]);
    TypesDiffer();
    if id :| KeyOf(parseId, reps[i]) == Some(id) && id in rows {
      CaughtAnswers(Composite(UserAddress), sels.userAddress, tree(UserAddress, Row(rows[id])));
    }
    CellsFit(sels, tree, FJ.Cell(FJ.MakeJob(svc, reps), i));
  }
}
