/**
 What a written response shows of the outcomes, said of the two trees alone: which positions are null,
 and what stands at every other one.
 */
module ResponseRelation {
  import opened Schema
  import opened Completion

  /**
   A position shows null when its outcome is nil or an error, or when a non-null position right
   inside it shows null; a field that is put off is not inside it.
   */
  ghost predicate ShowsNull(t: Type, sel: seq<Field>, out: Outcome)
    requires Fits(t, sel, out)
    decreases out, 0, t
  {
    match t
    case NonNull(of) => ShowsNull(of, sel, out)
    case Scalar => out.Nil? || out.Failed?
    case Composite(o) => out.Nil? || out.Failed? || exists k :: 0 <= k < |sel| && FieldBreaks(o, sel[k], out.fields[k])
    case ListOf(of) => out.Failed? || exists k :: 0 <= k < |out.items| && of.NonNull? && ShowsNull(of, sel, out.items[k])
  }

  /** A field of non-null type, answered now, with a null. */
  ghost predicate FieldBreaks(o: ObjectType, f: Field, out: Outcome)
    requires FitsField(o, f, out)
    decreases out, 1
  {
    && !f.name.Typename? && !Deferred(o, f)
    && FieldType(o, f.name).value.NonNull? && ShowsNull(FieldType(o, f.name).value, f.sub, out)
  }

  /** Leaf for leaf, field for field and element for element, the response shows the outcome. */
  ghost predicate Answers(t: Type, sel: seq<Field>, out: Outcome, r: Response)
    requires Fits(t, sel, out)
    decreases out, 0, t
  {
    && (r.Null? <==> ShowsNull(t, sel, out))
    && (!r.Null? ==>
          match t
          case NonNull(of) => Answers(of, sel, out, r)
          case Scalar => out.Leaf? && r == ScalarValue(out.value)
          case Composite(o) =>
            && out.Obj? && r.Object? && r.o == o && |r.fields| == |sel|
            && forall k | 0 <= k < |sel| :: AnswersField(o, sel[k], out.fields[k], r.fields[k])
          case ListOf(of) =>
            && out.Items? && r.List? && |r.items| == |out.items|
            && forall k | 0 <= k < |out.items| :: Answers(of, sel, out.items[k], r.items[k]))
  }

  /** A field put off is null for now; the type name is the object's own. */
  ghost predicate AnswersField(o: ObjectType, f: Field, out: Outcome, r: Response)
    requires FitsField(o, f, out)
    decreases out, 1
  {
    if f.name.Typename? then r == TypenameValue(o)
    else if Deferred(o, f) then r == Null
    else Answers(FieldType(o, f.name).value, f.sub, out, r)
  }

  // ----- There is one such response -----

  lemma {:induction false} OneResponse(t: Type, sel: seq<Field>, out: Outcome, r: Response, r': Response)
    requires Fits(t, sel, out) && Answers(t, sel, out, r) && Answers(t, sel, out, r')
    ensures r == r'
    decreases out, 0, t
  {
    if !r.Null? {
      match t
      case NonNull(of) => OneResponse(of, sel, out, r, r');
      case Scalar =>
      case Composite(o) =>
        forall k | 0 <= k < |sel| ensures r.fields[k] == r'.fields[k] {
          OneFieldResponse(o, sel[k], out.fields[k], r.fields[k], r'.fields[k]);
        }
        assert r.fields == r'.fields;
      case ListOf(of) =>
        forall k | 0 <= k < |out.items| ensures r.items[k] == r'.items[k] {
          OneResponse(of, sel, out.items[k], r.items[k], r'.items[k]);
        }
        assert r.items == r'.items;
    }
  }

  lemma {:induction false} OneFieldResponse(o: ObjectType, f: Field, out: Outcome, r: Response, r': Response)
    requires FitsField(o, f, out) && AnswersField(o, f, out, r) && AnswersField(o, f, out, r')
    ensures r == r'
    decreases out, 1
  {
    if !f.name.Typename? && !Deferred(o, f) {
      OneResponse(FieldType(o, f.name).value, f.sub, out, r, r');
    }
  }

  // ----- Completion writes it -----

  lemma {:induction false} CompletedAnswers(t: Type, sel: seq<Field>, out: Outcome)
    requires Fits(t, sel, out)
    ensures Answers(t, sel, out, Written(Complete(t, sel, out)))
    decreases out, 1, t
  {
    match t
    case NonNull(of) => CompletedAnswers(of, sel, out);
    case Scalar =>
    case Composite(o) =>
      if out.Obj? {
        ObjectAnswers(o, sel, out);
      }
    case ListOf(of) =>
      if out.Items? {
        ListAnswers(of, sel, out);
      }
  }

  lemma {:induction false} CaughtAnswers(t: Type, sel: seq<Field>, out: Outcome)
    requires Fits(t, sel, out)
    ensures Answers(t, sel, out, Written(Catch(t, sel, out)))
    ensures Catch(t, sel, out).Raise? <==> t.NonNull? && ShowsNull(t, sel, out)
    decreases out, 2
  {
    CompletedAnswers(t, sel, out);
  }

  lemma {:induction false} FieldAnswers(o: ObjectType, f: Field, out: Outcome)
    requires FitsField(o, f, out)
    ensures AnswersField(o, f, out, Written(CompleteField(o, f, out)))
    ensures CompleteField(o, f, out).Raise? <==> FieldBreaks(o, f, out)
    decreases out, 3
  {
    if !f.name.Typename? && !Deferred(o, f) {
      CaughtAnswers(FieldType(o, f.name).value, f.sub, out);
    }
  }

  lemma {:induction false} ObjectAnswers(o: ObjectType, sel: seq<Field>, out: Outcome)
    requires out.Obj? && Fits(Composite(o), sel, out)
    ensures Answers(Composite(o), sel, out, Written(Complete(Composite(o), sel, out)))
    decreases out, 0
  {
    var cs := CompleteFields(o, sel, out);
    forall k | 0 <= k < |sel|
      ensures AnswersField(o, sel[k], out.fields[k], Written(cs[k]))
      ensures cs[k].Raise? <==> FieldBreaks(o, sel[k], out.fields[k])
    {
      FieldAnswers(o, sel[k], out.fields[k]);
    }
  }

  lemma {:induction false} ListAnswers(of: Type, sel: seq<Field>, out: Outcome)
    requires out.Items? && Fits(ListOf(of), sel, out)
    ensures Answers(ListOf(of), sel, out, Written(Complete(ListOf(of), sel, out)))
    decreases out, 0
  {
    var cs := CompleteItems(of, sel, out);
    forall k | 0 <= k < |out.items|
      ensures Answers(of, sel, out.items[k], Written(cs[k]))
      ensures cs[k].Raise? <==> of.NonNull? && ShowsNull(of, sel, out.items[k])
    {
      CaughtAnswers(of, sel, out.items[k]);
    }
  }
}
