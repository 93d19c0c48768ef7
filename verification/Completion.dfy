/**
 Result completion as section 6.4.4 of the GraphQL specification (October 2021) puts it: a field
 error is raised, passes through every non-null position, and is caught at the nearest nullable one.
 */
module Completion {
  import opened Wrappers
  import opened Schema

  /** Completing a position either gives a response or raises a field error. */
  datatype Completion = Raise | Done(response: Response)

  /** All responses, unless one of the positions raised. */
  function Gather(cs: seq<Completion>): (r: Option<seq<Response>>)
    ensures r.None? <==> exists k :: 0 <= k < |cs| && cs[k].Raise?
    ensures r.Some? ==> |r.value| == |cs| && forall k | 0 <= k < |cs| :: cs[k] == Done(r.value[k])
  {
    if exists k :: 0 <= k < |cs| && cs[k].Raise? then None
    else Some(seq(|cs|, k requires 0 <= k < |cs| => cs[k].response))
  }

  function Complete(t: Type, sel: seq<Field>, out: Outcome): (c: Completion)
    requires Fits(t, sel, out)
    ensures c.Done? ==> !c.response.Absent? && !c.response.RequiredNull? && (t.NonNull? ==> !c.response.Null?)
    decreases out, 1, t
  {
    if out.Failed? then Raise
    else if t.NonNull? then
      var c := Complete(t.of, sel, out);
      if c == Done(Null) then Raise else c
    else if out.Nil? then Done(Null)
    else if t.Composite? then
      match Gather(CompleteFields(t.o, sel, out))
      case None => Raise
      case Some(responses) => Done(Object(t.o, responses))
    else if t.ListOf? then
      match Gather(CompleteItems(t.of, sel, out))
      case None => Raise
      case Some(responses) => Done(List(responses))
    else Done(ScalarValue(out.value))
  }

  function CompleteFields(o: ObjectType, sel: seq<Field>, out: Outcome): (cs: seq<Completion>)
    requires out.Obj? && Fits(Composite(o), sel, out)
    ensures |cs| == |sel|
    decreases out, 0
  {
    seq(|sel|, k requires 0 <= k < |sel| => CompleteField(o, sel[k], out.fields[k]))
  }

  function CompleteItems(of: Type, sel: seq<Field>, out: Outcome): (cs: seq<Completion>)
    requires out.Items? && Fits(ListOf(of), sel, out)
    ensures |cs| == |out.items|
    decreases out, 0
  {
    seq(|out.items|, k requires 0 <= k < |out.items| => Catch(of, sel, out.items[k]))
  }

  /** A nullable position catches what is raised below it. */
  function Catch(t: Type, sel: seq<Field>, out: Outcome): Completion
    requires Fits(t, sel, out)
    decreases out, 2
  {
    var c := Complete(t, sel, out);
    if c.Raise? && !t.NonNull? then Done(Null) else c
  }

  function CompleteField(o: ObjectType, f: Field, out: Outcome): Completion
    requires FitsField(o, f, out)
    decreases out, 3
  {
    if f.name.Typename? then Done(TypenameValue(o))
    else if Deferred(o, f) then Done(Absent)
    else Catch(FieldType(o, f.name).value, f.sub, out)
  }

  // ----- The response the code writes -----

  /** A field left for later is written as null into the initial response. */
  ghost function Erase(r: Response): Response {
    match r
    case Absent => Null
    case Object(o, fields) => Object(o, seq(|fields|, k requires 0 <= k < |fields| => Erase(fields[k])))
    case List(items) => List(seq(|items|, k requires 0 <= k < |items| => Erase(items[k])))
    case _ => r
  }

  /** Go has no exceptions: what is raised shows as a null, one position at a time. */
  ghost function Written(c: Completion): Response {
    if c.Raise? then Null else Erase(c.response)
  }

  /** At a non-null position, null in the code means raised in the specification, and nothing else. */
  lemma NullMeansRaised(t: Type, sel: seq<Field>, out: Outcome)
    requires Fits(t, sel, out) && t.NonNull?
    ensures Written(Catch(t, sel, out)).Null? <==> Catch(t, sel, out).Raise?
    ensures !Written(Catch(t, sel, out)).RequiredNull?
  {
  }

  lemma NullableNeverRaises(t: Type, sel: seq<Field>, out: Outcome)
    requires Fits(t, sel, out) && !t.NonNull?
    ensures Catch(t, sel, out).Done? && !Written(Catch(t, sel, out)).RequiredNull?
  {
  }

  // ----- Which responses the schema allows -----

  ghost predicate Conforms(t: Type, sel: seq<Field>, r: Response)
    decreases r, 0, t
  {
    if t.NonNull? then !r.Null? && Conforms(t.of, sel, r)
    else if r.Null? then true
    else if t.Composite? then
      r.Object? && r.o == t.o && |r.fields| == |sel| && forall k | 0 <= k < |sel| :: ConformsField(t.o, sel[k], r.fields[k])
    else if t.ListOf? then
      r.List? && forall k | 0 <= k < |r.items| :: Conforms(t.of, sel, r.items[k])
    else r.ScalarValue?
  }

  ghost predicate ConformsField(o: ObjectType, f: Field, r: Response)
    decreases r, 1
  {
    if f.name.Typename? then r == TypenameValue(o)
    else FieldType(o, f.name).Some? && Conforms(FieldType(o, f.name).value, f.sub, r)
  }

  function Core(t: Type): Option<ObjectType> {
    match t
    case NonNull(of) => Core(of)
    case ListOf(of) => Core(of)
    case Composite(o) => Some(o)
    case Scalar => None
  }

  /** No deferrable field is under an @defer, here or further down. */
  ghost predicate DeferFree(t: Type, sel: seq<Field>) {
    Core(t).Some? ==> forall k | 0 <= k < |sel| :: DeferFreeField(Core(t).value, sel[k])
  }

  ghost predicate DeferFreeField(o: ObjectType, f: Field)
    decreases f
  {
    && !Deferred(o, f)
    && (FieldType(o, f.name).Some? && Core(FieldType(o, f.name).value).Some? ==>
          forall k | 0 <= k < |f.sub| :: DeferFreeField(Core(FieldType(o, f.name).value).value, f.sub[k]))
  }
}
