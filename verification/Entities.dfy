/**
 Resolution of federated entity representations: what one representation resolves to, and how a
 list of them is grouped by `__typename`. Both the address and the catalog service contain this
 code; they differ only in the table of known types and finders, which is the `Service` here.
 */
module Entities {
  import opened Wrappers

  /** A decoded JSON value; only strings and null are told apart by the code. */
  datatype Json = JsonNull | JsonString(text: string) | JsonOther(code: int)

  type Representation = map<string, Json>

  /** The list cell: a Go interface that is nil, or that carries a possibly nil typed pointer. */
  datatype Entity<+T> = Nothing | Entity(typeName: string, value: Option<T>)

  /** What a finder does: returns a possibly nil pointer, returns an error, or panics. */
  datatype Lookup<+T> = Found(value: Option<T>) | LookupError(message: string) | Panics(reason: string)

  datatype KeyProblem = MissingKey | NullKey

  datatype Error =
    | NoTypename
    | UnknownType(typeName: string)
    | NoResolver(typeName: string, problem: KeyProblem)
    | BadId(typeName: string)
    | ResolverFailed(typeName: string, message: string)
    | Recovered(reason: string)

  /** The generated switch tables: known types, the UUID scalar and the finder of each type. */
  datatype Service<!T> = Service(
    types: set<string>,
    parseId: Json -> Option<Uuid>,
    find: (string, Uuid) -> Lookup<T>)

  /** `rep["__typename"].(string)`. */
  function TypeName(rep: Representation): Option<string> {
    if "__typename" in rep && rep["__typename"].JsonString? then Some(rep["__typename"].text) else None
  }

  /** `entityResolverNameForX`: the one key field must be there and must not be null. */
  function ResolverProblem(rep: Representation): Option<KeyProblem> {
    if "id" !in rep then Some(MissingKey) else if rep["id"].JsonNull? then Some(NullKey) else None
  }

  // ----- What the request alone says about one representation -----

  ghost predicate Typed(rep: Representation, t: string) {
    "__typename" in rep && rep["__typename"] == JsonString(t)
  }

  /** A representation of a known type with a key that is not null. */
  ghost predicate Keyed<T>(svc: Service<T>, rep: Representation, t: string) {
    Typed(rep, t) && t in svc.types && "id" in rep && rep["id"] != JsonNull
  }

  /** The finder of its type has found this for the identifier of the representation. */
  ghost predicate Finds<T>(svc: Service<T>, rep: Representation, t: string, value: Option<T>) {
    Keyed(svc, rep, t) && svc.parseId(rep["id"]).Some? && svc.find(t, svc.parseId(rep["id"]).value) == Found(value)
  }

  /** Every check holds. */
  ghost predicate Resolves<T>(svc: Service<T>, rep: Representation) {
    && "__typename" in rep && rep["__typename"].JsonString? && Keyed(svc, rep, rep["__typename"].text)
    && svc.parseId(rep["id"]).Some? && svc.find(rep["__typename"].text, svc.parseId(rep["id"]).value).Found?
  }

  /** The check that this error reports fails, and every check before it holds. */
  ghost predicate FailsWith<T>(svc: Service<T>, rep: Representation, e: Error) {
    match e
    case NoTypename => "__typename" !in rep || !rep["__typename"].JsonString?
    case UnknownType(t) => Typed(rep, t) && t !in svc.types
    case NoResolver(t, MissingKey) => Typed(rep, t) && t in svc.types && "id" !in rep
    case NoResolver(t, NullKey) => Typed(rep, t) && t in svc.types && "id" in rep && rep["id"] == JsonNull
    case BadId(t) => Keyed(svc, rep, t) && svc.parseId(rep["id"]) == None
    case ResolverFailed(t, message) =>
      Keyed(svc, rep, t) && svc.parseId(rep["id"]).Some? && svc.find(t, svc.parseId(rep["id"]).value) == LookupError(message)
    case Recovered(reason) =>
      exists t :: Keyed(svc, rep, t) && svc.parseId(rep["id"]).Some? && svc.find(t, svc.parseId(rep["id"]).value) == Panics(reason)
  }

  /** Exactly one answer is right: the value found, or one error. */
  lemma OneAnswer<T>(svc: Service<T>, rep: Representation)
    ensures Resolves(svc, rep) <==> exists t, value :: Finds(svc, rep, t, value)
    ensures Resolves(svc, rep) <==> !exists e :: FailsWith(svc, rep, e)
    ensures forall t, value, u, other | Finds(svc, rep, t, value) && Finds(svc, rep, u, other) :: t == u && value == other
    ensures forall e, other | FailsWith(svc, rep, e) && FailsWith(svc, rep, other) :: e == other
  {
    if TypeName(rep).None? {
      assert FailsWith(svc, rep, NoTypename);
    } else {
      var t := TypeName(rep).value;
      var r := ResolveEntity(svc, t, rep);
      if r.Err? {
        assert FailsWith(svc, rep, r.error);
      } else {
        assert Finds(svc, rep, t, r.value.value);
      }
    }
  }

  // ----- resolveEntity -----

  /** `resolveEntity`, with the deferred recovery turning a panic into an error. */
  function ResolveEntity<T>(svc: Service<T>, typeName: string, rep: Representation): (r: Result<Entity<T>, Error>)
    ensures r.Ok? ==> r.value.Entity? && r.value.typeName == typeName && typeName in svc.types
    ensures Typed(rep, typeName) && r.Ok? ==> Finds(svc, rep, typeName, r.value.value)
    ensures Typed(rep, typeName) && r.Err? ==> FailsWith(svc, rep, r.error)
  {
    if typeName !in svc.types then Err(UnknownType(typeName)) else
      match ResolverProblem(rep)
      case Some(problem) => Err(NoResolver(typeName, problem))
      case None =>
        match svc.parseId(rep["id"])
        case None => Err(BadId(typeName))
        case Some(id) =>
          match svc.find(typeName, id)
          case Found(value) => Ok(Entity(typeName, value))
          case LookupError(message) => Err(ResolverFailed(typeName, message))
          case Panics(reason) => Err(Recovered(reason))
  }

  datatype EntityWithIndex = EntityWithIndex(index: nat, entity: Representation)

  function TypeNames(reps: seq<Representation>): set<string> {
    set i | 0 <= i < |reps| && TypeName(reps[i]).Some? :: TypeName(reps[i]).value
  }

  /** The representations of one type, in request order, each with its place in the request. */
  function GroupOf(reps: seq<Representation>, t: string): seq<EntityWithIndex> {
    if |reps| == 0 then [] else
      var n := |reps| - 1;
      GroupOf(reps[..n], t) + if TypeName(reps[n]) == Some(t) then [EntityWithIndex(n, reps[n])] else []
  }

  function Groups(reps: seq<Representation>): map<string, seq<EntityWithIndex>> {
    map t | t in TypeNames(reps) :: GroupOf(reps, t)
  }

  function Skipped(reps: seq<Representation>): seq<Error> {
    if |reps| == 0 then [] else
      Skipped(reps[..|reps| - 1]) + if TypeName(reps[|reps| - 1]).None? then [NoTypename] else []
  }

  /** `buildRepresentationGroups`: append to the group's slice, or record an error and skip. */
  method BuildRepresentationGroups(reps: seq<Representation>)
    returns (repsMap: map<string, seq<EntityWithIndex>>, errors: seq<Error>)
    ensures repsMap == Groups(reps)
    ensures errors == Skipped(reps)
  {
    repsMap, errors := map[], [];
    for i := 0 to |reps|
      invariant repsMap == Groups(reps[..i])
      invariant errors == Skipped(reps[..i])
    {
      GroupsSnoc(reps, i);
      assert reps[..i + 1][..i] == reps[..i];
      match TypeName(reps[i]) {
        case None =>
          errors := errors + [NoTypename];
        case Some(typeName) =>
          var reps0 := if typeName in repsMap then repsMap[typeName] else [];
          EmptyGroup(reps[..i], typeName);
          repsMap := repsMap[typeName := reps0 + [EntityWithIndex(i, reps[i])]];
      }
    }
    assert reps[..|reps|] == reps;
  }

  lemma TypeNamesSnoc(reps: seq<Representation>)
    requires |reps| > 0
    ensures var last := TypeName(reps[|reps| - 1]);
            TypeNames(reps) == TypeNames(reps[..|reps| - 1]) + if last.Some? then {last.value} else {}
  {
    var n := |reps| - 1;
    forall t | t in TypeNames(reps[..n])
      ensures t in TypeNames(reps)
    {
      var i :| 0 <= i < n && TypeName(reps[..n][i]) == Some(t);
      assert TypeName(reps[i]) == Some(t);
    }
    forall t | t in TypeNames(reps)
      ensures t in TypeNames(reps[..n]) || TypeName(reps[n]) == Some(t)
    {
      var i :| 0 <= i < |reps| && TypeName(reps[i]) == Some(t);
      if i < n {
        assert TypeName(reps[..n][i]) == Some(t);
      }
    }
  }

  lemma GroupsSnoc(reps: seq<Representation>, i: nat)
    requires i < |reps|
    ensures Groups(reps[..i + 1]) == match TypeName(reps[i])
      case None => Groups(reps[..i])
      case Some(t) => Groups(reps[..i])[t := GroupOf(reps[..i], t) + [EntityWithIndex(i, reps[i])]]
  {
    assert reps[..i + 1][..i] == reps[..i];
    TypeNamesSnoc(reps[..i + 1]);
    forall t
      ensures TypeName(reps[i]) != Some(t) ==> GroupOf(reps[..i + 1], t) == GroupOf(reps[..i], t)
    {
    }
    match TypeName(reps[i])
    case None =>
      assert Groups(reps[..i + 1]) == Groups(reps[..i]);
    case Some(t) =>
      assert Groups(reps[..i + 1]).Keys == Groups(reps[..i]).Keys + {t};
  }

  lemma {:induction false} EmptyGroup(reps: seq<Representation>, t: string)
    ensures GroupOf(reps, t) == [] <==> t !in TypeNames(reps)
  {
    if |reps| > 0 {
      EmptyGroup(reps[..|reps| - 1], t);
      TypeNamesSnoc(reps);
    }
  }

  /** The place of representation `i` inside its own group. */
  ghost function Rank(reps: seq<Representation>, i: nat): nat
    requires i < |reps| && TypeName(reps[i]).Some?
  {
    |GroupOf(reps[..i], TypeName(reps[i]).value)|
  }

  /** Every group entry is a request entry of that type and stands at that entry's rank. */
  lemma {:induction false} GroupEntries(reps: seq<Representation>, t: string)
    ensures forall k | 0 <= k < |GroupOf(reps, t)| ::
              var e := GroupOf(reps, t)[k];
              e.index < |reps| && e.entity == reps[e.index] && TypeName(e.entity) == Some(t) && Rank(reps, e.index) == k
    ensures forall k, l | 0 <= k < l < |GroupOf(reps, t)| :: GroupOf(reps, t)[k].index < GroupOf(reps, t)[l].index
  {
    if |reps| > 0 {
      var n := |reps| - 1;
      GroupEntries(reps[..n], t);
      forall k | 0 <= k < |GroupOf(reps[..n], t)|
        ensures var e := GroupOf(reps[..n], t)[k]; Rank(reps, e.index) == Rank(reps[..n], e.index)
      {
        var e := GroupOf(reps[..n], t)[k];
        assert reps[..n][..e.index] == reps[..e.index];
      }
    }
  }

  /** Every request entry with a string `__typename` is found in its group, at its rank. */
  lemma {:induction false} EntryHasGroup(reps: seq<Representation>, i: nat)
    requires i < |reps| && TypeName(reps[i]).Some?
    ensures var t := TypeName(reps[i]).value;
            t in Groups(reps) && Rank(reps, i) < |GroupOf(reps, t)| &&
            GroupOf(reps, t)[Rank(reps, i)] == EntityWithIndex(i, reps[i])
  {
    var t := TypeName(reps[i]).value;
    GroupPrefix(reps, i + 1, t);
    assert reps[..i + 1][..i] == reps[..i];
    assert t in TypeNames(reps);
  }

  lemma {:induction false} GroupPrefix(reps: seq<Representation>, i: nat, t: string)
    requires i <= |reps|
    ensures GroupOf(reps[..i], t) <= GroupOf(reps, t)
  {
    if i < |reps| {
      var n := |reps| - 1;
      GroupPrefix(reps[..n], i, t);
      assert reps[..n][..i] == reps[..i];
    } else {
      assert reps[..i] == reps;
    }
  }

  /**
   Grouping is a partition: the entries of the groups are exactly the request entries with a
   string `__typename`, each under its own type, carrying its own representation, once; within
   a group indices increase. So no two entity goroutines are given the same list cell.
   */
  lemma GroupingIsPartition(reps: seq<Representation>)
    ensures forall t, k | t in Groups(reps) && 0 <= k < |Groups(reps)[t]| ::
              var e := Groups(reps)[t][k];
              e.index < |reps| && e.entity == reps[e.index] && TypeName(reps[e.index]) == Some(t)
    ensures forall i | 0 <= i < |reps| && TypeName(reps[i]).Some? ::
              exists k :: 0 <= k < |Groups(reps)[TypeName(reps[i]).value]| &&
                          Groups(reps)[TypeName(reps[i]).value][k] == EntityWithIndex(i, reps[i])
    ensures forall t, k, l | t in Groups(reps) && 0 <= k < l < |Groups(reps)[t]| ::
              Groups(reps)[t][k].index < Groups(reps)[t][l].index
    ensures forall t, k, u, l | t in Groups(reps) && 0 <= k < |Groups(reps)[t]| &&
                                u in Groups(reps) && 0 <= l < |Groups(reps)[u]| && (t, k) != (u, l) ::
              Groups(reps)[t][k].index != Groups(reps)[u][l].index
  {
    forall t { GroupEntries(reps, t); }
    forall i | 0 <= i < |reps| && TypeName(reps[i]).Some?
      ensures exists k :: 0 <= k < |Groups(reps)[TypeName(reps[i]).value]| &&
                          Groups(reps)[TypeName(reps[i]).value][k] == EntityWithIndex(i, reps[i])
    {
      EntryHasGroup(reps, i);
    }
  }
}
