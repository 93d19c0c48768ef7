/**
 The deferred groups of an operation as a forest: each group with the groups that completing its
 fields registers. It has the marshallers' own count of roots, and the handler answers all of it.
 */
module DeferredForest {
  import opened Wrappers
  import opened Sums
  import opened Schema
  import opened Completion
  import opened Deferral
  import opened DeferredGroups
  import opened FieldSets
  import opened EntityMarshaller
  import Handler = ResponseHandler

  // ----- The labels of an object, in the order they are met -----

  function AddLabels(known: seq<string>, labels: seq<string>): seq<string>
    decreases labels
  {
    if labels == [] then known
    else AddLabels(if labels[0] in known then known else known + [labels[0]], labels[1..])
  }

  function LabelList(o: ObjectType, sel: seq<Field>, n: nat): seq<string>
    requires n <= |sel|
    decreases n
  {
    if n == 0 then []
    else if Deferred(o, sel[n - 1]) then AddLabels(LabelList(o, sel, n - 1), sel[n - 1].labels)
    else LabelList(o, sel, n - 1)
  }

  predicate Distinct(labels: seq<string>) {
    forall i, j | 0 <= i < j < |labels| :: labels[i] != labels[j]
  }

  lemma {:induction false} AddedLabels(known: seq<string>, labels: seq<string>)
    requires Distinct(known)
    ensures Distinct(AddLabels(known, labels))
    ensures forall l :: l in AddLabels(known, labels) <==> l in known || l in labels
    decreases labels
  {
    if labels != [] {
      AddedLabels(if labels[0] in known then known else known + [labels[0]], labels[1..]);
    }
  }

  lemma {:induction false} ListedLabels(o: ObjectType, sel: seq<Field>, n: nat)
    requires n <= |sel|
    ensures Distinct(LabelList(o, sel, n)) && forall l :: l in LabelList(o, sel, n) <==> l in LabelsTo(o, sel, n)
    decreases n
  {
    if n > 0 {
      ListedLabels(o, sel, n - 1);
      AddedLabels(LabelList(o, sel, n - 1), sel[n - 1].labels);
    }
  }

  lemma {:induction false} DistinctSize(labels: seq<string>, members: set<string>)
    requires Distinct(labels) && forall l :: l in labels <==> l in members
    ensures |labels| == |members|
  {
    if labels == [] {
      assert members == {};
    } else {
      var n := |labels| - 1;
      assert forall l :: l in labels[..n] <==> l in members - {labels[n]};
      DistinctSize(labels[..n], members - {labels[n]});
    }
  }

  // ----- The forest -----

  function Flatten(gss: seq<seq<Group>>): seq<Group> {
    if gss == [] then [] else Flatten(gss[..|gss| - 1]) + gss[|gss| - 1]
  }

  /** Under which of its labels a deferred field is completed; the library may choose any. */
  ghost predicate Picks(pick: seq<string> -> string) {
    forall labels | labels != [] :: pick(labels) in labels
  }

  function Forest(t: Type, sel: seq<Field>, out: Outcome, pick: seq<string> -> string): seq<Group>
    requires Fits(t, sel, out)
    decreases out, 1, t
  {
    if out.Failed? || out.Nil? then []
    else if t.NonNull? then Forest(t.of, sel, out, pick)
    else if t.Composite? then
      Flatten(FieldForests(t.o, sel, out, pick)) + if Complete(t, sel, out).Done? then OwnGroups(t.o, sel, out, pick) else []
    else if t.ListOf? then Flatten(ItemForests(t.of, sel, out, pick))
    else []
  }

  function FieldForests(o: ObjectType, sel: seq<Field>, out: Outcome, pick: seq<string> -> string): (fs: seq<seq<Group>>)
    requires out.Obj? && Fits(Composite(o), sel, out)
    ensures |fs| == |sel|
    decreases out, 0
  {
    seq(|sel|, k requires 0 <= k < |sel| => if Deferred(o, sel[k]) then [] else FieldForest(o, sel[k], out.fields[k], pick))
  }

  function ItemForests(of: Type, sel: seq<Field>, out: Outcome, pick: seq<string> -> string): (fs: seq<seq<Group>>)
    requires out.Items? && Fits(ListOf(of), sel, out)
    ensures |fs| == |out.items|
    decreases out, 0
  {
    seq(|out.items|, k requires 0 <= k < |out.items| => Forest(of, sel, out.items[k], pick))
  }

  /** What completing a field registers, now or, if it is deferred, later. */
  function FieldForest(o: ObjectType, f: Field, out: Outcome, pick: seq<string> -> string): seq<Group>
    requires FitsField(o, f, out)
    decreases out, 2
  {
    if f.name.Typename? then [] else Forest(FieldType(o, f.name).value, f.sub, out, pick)
  }

  /** The deferred fields completed under a label. */
  function Share(o: ObjectType, sel: seq<Field>, out: Outcome, pick: seq<string> -> string, l: string): (fs: seq<seq<Group>>)
    requires out.Obj? && Fits(Composite(o), sel, out)
    ensures |fs| == |sel|
    decreases out, 0, 0
  {
    seq(|sel|, k requires 0 <= k < |sel| =>
      if Deferred(o, sel[k]) && pick(sel[k].labels) == l then FieldForest(o, sel[k], out.fields[k], pick) else [])
  }

  function OwnGroups(o: ObjectType, sel: seq<Field>, out: Outcome, pick: seq<string> -> string): (gs: seq<Group>)
    requires out.Obj? && Fits(Composite(o), sel, out)
    ensures |gs| == |LabelList(o, sel, |sel|)|
    decreases out, 0, 1
  {
    var labels := LabelList(o, sel, |sel|);
    seq(|labels|, i requires 0 <= i < |labels| => Group(labels[i], Flatten(Share(o, sel, out, pick, labels[i]))))
  }

  // ----- What completing registers, nested completions included -----

  ghost function AllRegisters(t: Type, sel: seq<Field>, out: Outcome): nat
    requires Fits(t, sel, out)
    decreases out, 1, t
  {
    if out.Failed? || out.Nil? then 0
    else if t.NonNull? then AllRegisters(t.of, sel, out)
    else if t.Composite? then
      var done := Complete(t, sel, out).Done?;
      Sum(AllFields(t.o, sel, out, done)) + if done then |Labels(t.o, sel)| else 0
    else if t.ListOf? then Sum(AllItems(t.of, sel, out))
    else 0
  }

  /** The deferred fields of an object are completed only if the object is there. */
  ghost function AllFields(o: ObjectType, sel: seq<Field>, out: Outcome, done: bool): (ns: seq<nat>)
    requires out.Obj? && Fits(Composite(o), sel, out)
    ensures |ns| == |sel|
    decreases out, 0
  {
    seq(|sel|, k requires 0 <= k < |sel| => if Deferred(o, sel[k]) && !done then 0 else AllField(o, sel[k], out.fields[k]))
  }

  ghost function AllItems(of: Type, sel: seq<Field>, out: Outcome): (ns: seq<nat>)
    requires out.Items? && Fits(ListOf(of), sel, out)
    ensures |ns| == |out.items|
    decreases out, 0
  {
    seq(|out.items|, k requires 0 <= k < |out.items| => AllRegisters(of, sel, out.items[k]))
  }

  ghost function AllField(o: ObjectType, f: Field, out: Outcome): nat
    requires FitsField(o, f, out)
    decreases out, 2
  {
    if f.name.Typename? then 0 else AllRegisters(FieldType(o, f.name).value, f.sub, out)
  }

  // ----- Sizes of forests -----

  lemma {:induction false} SizeShift(a: seq<Group>, b: seq<Group>, m: nat)
    requires m <= |b|
    ensures SizeFrom(a + b, |a| + m) == SizeFrom(b, m)
    decreases |b| - m
  {
    if m < |b| {
      SizeShift(a, b, m + 1);
      assert (a + b)[|a| + m] == b[m];
    }
  }

  lemma {:induction false} SizeConcat(a: seq<Group>, b: seq<Group>, n: nat)
    requires n <= |a|
    ensures SizeFrom(a + b, n) == SizeFrom(a, n) + Total(b)
    decreases |a| - n
  {
    if n == |a| {
      SizeShift(a, b, 0);
    } else {
      SizeConcat(a, b, n + 1);
      assert (a + b)[n] == a[n];
    }
  }

  lemma {:induction false} FlattenSizes(gss: seq<seq<Group>>, roots: seq<nat>, totals: seq<nat>)
    requires |roots| == |totals| == |gss|
    requires forall i | 0 <= i < |gss| :: |gss[i]| == roots[i] && Total(gss[i]) == totals[i]
    ensures |Flatten(gss)| == Sum(roots) && Total(Flatten(gss)) == Sum(totals)
  {
    if gss != [] {
      var n := |gss| - 1;
      FlattenSizes(gss[..n], roots[..n], totals[..n]);
      SizeConcat(Flatten(gss[..n]), gss[n], 0);
    }
  }

  lemma {:induction false} SumAdd(u: seq<nat>, v: seq<nat>, w: seq<nat>)
    requires |u| == |v| == |w| && forall i | 0 <= i < |u| :: w[i] == u[i] + v[i]
    ensures Sum(w) == Sum(u) + Sum(v)
  {
    if |w| > 0 {
      var n := |w| - 1;
      SumAdd(u[..n], v[..n], w[..n]);
    }
  }

  // ----- The forest has as many roots as are registered, and as many groups as there are in all -----

  lemma {:induction false} ForestSizes(t: Type, sel: seq<Field>, out: Outcome, pick: seq<string> -> string)
    requires Fits(t, sel, out) && Picks(pick)
    ensures |Forest(t, sel, out, pick)| == Registers(t, sel, out)
    ensures Total(Forest(t, sel, out, pick)) == AllRegisters(t, sel, out)
    decreases out, 1, t
  {
    if out.Failed? || out.Nil? {
    } else if t.NonNull? {
      ForestSizes(t.of, sel, out, pick);
    } else if t.Composite? {
      ObjectSizes(t.o, sel, out, pick);
    } else if t.ListOf? {
      forall k | 0 <= k < |out.items|
        ensures |Forest(t.of, sel, out.items[k], pick)| == Registers(t.of, sel, out.items[k])
        ensures Total(Forest(t.of, sel, out.items[k], pick)) == AllRegisters(t.of, sel, out.items[k])
      {
        ForestSizes(t.of, sel, out.items[k], pick);
      }
      FlattenSizes(ItemForests(t.of, sel, out, pick), RegistersItems(t.of, sel, out), AllItems(t.of, sel, out));
    }
  }

  lemma {:induction false} FieldSizes(o: ObjectType, f: Field, out: Outcome, pick: seq<string> -> string)
    requires FitsField(o, f, out) && Picks(pick)
    ensures !Deferred(o, f) ==> |FieldForest(o, f, out, pick)| == RegistersField(o, f, out)
    ensures Total(FieldForest(o, f, out, pick)) == AllField(o, f, out)
    decreases out, 2
  {
    if !f.name.Typename? {
      ForestSizes(FieldType(o, f.name).value, f.sub, out, pick);
    }
  }

  /** The part of the count that the fields completed at once have. */
  ghost function AtOnce(o: ObjectType, sel: seq<Field>, out: Outcome): (ns: seq<nat>)
    requires out.Obj? && Fits(Composite(o), sel, out)
    ensures |ns| == |sel|
  {
    seq(|sel|, k requires 0 <= k < |sel| => if Deferred(o, sel[k]) then 0 else AllField(o, sel[k], out.fields[k]))
  }

  ghost function LaterField(o: ObjectType, f: Field, out: Outcome, pick: seq<string> -> string, labels: set<string>): nat
    requires FitsField(o, f, out)
  {
    if Deferred(o, f) && pick(f.labels) in labels then AllField(o, f, out) else 0
  }

  /** The part of the deferred fields completed under one of these labels. */
  ghost function Later(o: ObjectType, sel: seq<Field>, out: Outcome, pick: seq<string> -> string, labels: set<string>): (ns: seq<nat>)
    requires out.Obj? && Fits(Composite(o), sel, out)
    ensures |ns| == |sel|
  {
    seq(|sel|, k requires 0 <= k < |sel| => LaterField(o, sel[k], out.fields[k], pick, labels))
  }

  ghost predicate FieldsSized(o: ObjectType, sel: seq<Field>, out: Outcome, pick: seq<string> -> string)
    requires out.Obj? && Fits(Composite(o), sel, out)
  {
    forall k | 0 <= k < |sel| ::
      && Total(FieldForest(o, sel[k], out.fields[k], pick)) == AllField(o, sel[k], out.fields[k])
      && (!Deferred(o, sel[k]) ==> |FieldForest(o, sel[k], out.fields[k], pick)| == RegistersField(o, sel[k], out.fields[k]))
  }

  lemma {:induction false} ObjectSizes(o: ObjectType, sel: seq<Field>, out: Outcome, pick: seq<string> -> string)
    requires out.Obj? && Fits(Composite(o), sel, out) && Picks(pick)
    ensures |Forest(Composite(o), sel, out, pick)| == Registers(Composite(o), sel, out)
    ensures Total(Forest(Composite(o), sel, out, pick)) == AllRegisters(Composite(o), sel, out)
    decreases out, 0
  {
    forall k | 0 <= k < |sel|
      ensures Total(FieldForest(o, sel[k], out.fields[k], pick)) == AllField(o, sel[k], out.fields[k])
      ensures !Deferred(o, sel[k]) ==> |FieldForest(o, sel[k], out.fields[k], pick)| == RegistersField(o, sel[k], out.fields[k])
    {
      FieldSizes(o, sel[k], out.fields[k], pick);
    }
    AtOnceSizes(o, sel, out, pick);
    if Complete(Composite(o), sel, out).Done? {
      OwnSizes(o, sel, out, pick);
      SizeConcat(Flatten(FieldForests(o, sel, out, pick)), OwnGroups(o, sel, out, pick), 0);
    } else {
      assert AllFields(o, sel, out, false) == AtOnce(o, sel, out);
      assert Flatten(FieldForests(o, sel, out, pick)) + [] == Flatten(FieldForests(o, sel, out, pick));
    }
  }

  lemma AtOnceSizes(o: ObjectType, sel: seq<Field>, out: Outcome, pick: seq<string> -> string)
    requires out.Obj? && Fits(Composite(o), sel, out) && FieldsSized(o, sel, out, pick)
    ensures |Flatten(FieldForests(o, sel, out, pick))| == Sum(RegistersFields(o, sel, out))
    ensures Total(Flatten(FieldForests(o, sel, out, pick))) == Sum(AtOnce(o, sel, out))
  {
    var forests := FieldForests(o, sel, out, pick);
    forall k | 0 <= k < |sel|
      ensures |forests[k]| == RegistersFields(o, sel, out)[k] && Total(forests[k]) == AtOnce(o, sel, out)[k]
    {
      assert FitsField(o, sel[k], out.fields[k]);
      assert Total(FieldForest(o, sel[k], out.fields[k], pick)) == AllField(o, sel[k], out.fields[k]);
    }
    FlattenSizes(forests, RegistersFields(o, sel, out), AtOnce(o, sel, out));
  }

  lemma ShareSize(o: ObjectType, sel: seq<Field>, out: Outcome, pick: seq<string> -> string, l: string)
    requires out.Obj? && Fits(Composite(o), sel, out) && FieldsSized(o, sel, out, pick)
    ensures Total(Flatten(Share(o, sel, out, pick, l))) == Sum(Later(o, sel, out, pick, {l}))
  {
    var share := Share(o, sel, out, pick, l);
    FlattenSizes(share, seq(|sel|, k requires 0 <= k < |sel| => |share[k]|), Later(o, sel, out, pick, {l}));
  }

  lemma OneLabelMore(o: ObjectType, sel: seq<Field>, out: Outcome, pick: seq<string> -> string, labels: set<string>, l: string)
    requires out.Obj? && Fits(Composite(o), sel, out) && l !in labels
    ensures Sum(Later(o, sel, out, pick, labels + {l})) == Sum(Later(o, sel, out, pick, labels)) + Sum(Later(o, sel, out, pick, {l}))
  {
    SumAdd(Later(o, sel, out, pick, labels), Later(o, sel, out, pick, {l}), Later(o, sel, out, pick, labels + {l}));
  }

  function Members(labels: seq<string>, m: nat): (s: set<string>)
    requires m <= |labels|
    ensures forall l :: l in s <==> l in labels[..m]
  {
    if m == 0 then {} else
      assert labels[..m] == labels[..m - 1] + [labels[m - 1]];
      Members(labels, m - 1) + {labels[m - 1]}
  }

  lemma OneGroupMore(gs: seq<Group>, m: nat)
    requires m < |gs|
    ensures Total(gs[..m + 1]) == Total(gs[..m]) + 1 + Total(gs[m].nested)
  {
    SizeConcat(gs[..m], [gs[m]], 0);
    assert Total([gs[m]]) == 1 + Total(gs[m].nested) + SizeFrom([gs[m]], 1);
    assert gs[..m + 1] == gs[..m] + [gs[m]];
  }

  /** The groups of an object up to the m-th label. */
  lemma {:induction false} OwnPrefix(o: ObjectType, sel: seq<Field>, out: Outcome, pick: seq<string> -> string, m: nat)
    requires out.Obj? && Fits(Composite(o), sel, out) && FieldsSized(o, sel, out, pick)
    requires m <= |LabelList(o, sel, |sel|)|
    ensures Total(OwnGroups(o, sel, out, pick)[..m]) == m + Sum(Later(o, sel, out, pick, Members(LabelList(o, sel, |sel|), m)))
    decreases m
  {
    if m == 0 {
      NothingLater(o, sel, out, pick);
    } else {
      OwnPrefix(o, sel, out, pick, m - 1);
      OwnStep(o, sel, out, pick, m - 1);
    }
  }

  lemma NothingLater(o: ObjectType, sel: seq<Field>, out: Outcome, pick: seq<string> -> string)
    requires out.Obj? && Fits(Composite(o), sel, out)
    ensures Sum(Later(o, sel, out, pick, {})) == 0
  {
    SumZero(Later(o, sel, out, pick, {}));
  }

  lemma OwnStep(o: ObjectType, sel: seq<Field>, out: Outcome, pick: seq<string> -> string, i: nat)
    requires out.Obj? && Fits(Composite(o), sel, out) && FieldsSized(o, sel, out, pick)
    requires i < |LabelList(o, sel, |sel|)|
    ensures var labels, own := LabelList(o, sel, |sel|), OwnGroups(o, sel, out, pick);
            Total(own[..i + 1]) + Sum(Later(o, sel, out, pick, Members(labels, i))) ==
            Total(own[..i]) + 1 + Sum(Later(o, sel, out, pick, Members(labels, i + 1)))
  {
    OneGroupMore(OwnGroups(o, sel, out, pick), i);
    OwnGroupAt(o, sel, out, pick, i);
  }

  lemma OwnGroupAt(o: ObjectType, sel: seq<Field>, out: Outcome, pick: seq<string> -> string, i: nat)
    requires out.Obj? && Fits(Composite(o), sel, out) && FieldsSized(o, sel, out, pick)
    requires i < |LabelList(o, sel, |sel|)|
    ensures var labels := LabelList(o, sel, |sel|);
            Sum(Later(o, sel, out, pick, Members(labels, i + 1))) ==
            Sum(Later(o, sel, out, pick, Members(labels, i))) + Total(OwnGroups(o, sel, out, pick)[i].nested)
  {
    var labels := LabelList(o, sel, |sel|);
    ListedLabels(o, sel, |sel|);
    ShareSize(o, sel, out, pick, labels[i]);
    assert labels[i] !in labels[..i];
    OneLabelMore(o, sel, out, pick, Members(labels, i), labels[i]);
  }

  /** Every deferred field is completed under one of the object's labels. */
  lemma AllShared(o: ObjectType, sel: seq<Field>, out: Outcome, pick: seq<string> -> string)
    requires out.Obj? && Fits(Composite(o), sel, out) && Picks(pick)
    ensures forall k | 0 <= k < |sel| && Deferred(o, sel[k]) :: pick(sel[k].labels) in Labels(o, sel)
  {
    forall k | 0 <= k < |sel| && Deferred(o, sel[k]) ensures pick(sel[k].labels) in Labels(o, sel) {
      LabelsAre(o, sel, |sel|, pick(sel[k].labels));
    }
  }

  lemma AtOnceAndLater(o: ObjectType, sel: seq<Field>, out: Outcome, pick: seq<string> -> string)
    requires out.Obj? && Fits(Composite(o), sel, out) && Picks(pick)
    ensures Sum(AllFields(o, sel, out, true)) == Sum(AtOnce(o, sel, out)) + Sum(Later(o, sel, out, pick, Labels(o, sel)))
  {
    AllShared(o, sel, out, pick);
    SumAdd(AtOnce(o, sel, out), Later(o, sel, out, pick, Labels(o, sel)), AllFields(o, sel, out, true));
  }

  lemma MembersAreLabels(o: ObjectType, sel: seq<Field>)
    ensures var labels := LabelList(o, sel, |sel|);
            |labels| == |Labels(o, sel)| && Members(labels, |labels|) == Labels(o, sel)
  {
    var labels := LabelList(o, sel, |sel|);
    ListedLabels(o, sel, |sel|);
    DistinctSize(labels, Labels(o, sel));
    assert labels[..|labels|] == labels;
  }

  lemma OwnSizes(o: ObjectType, sel: seq<Field>, out: Outcome, pick: seq<string> -> string)
    requires out.Obj? && Fits(Composite(o), sel, out) && FieldsSized(o, sel, out, pick) && Picks(pick)
    ensures |OwnGroups(o, sel, out, pick)| == |Labels(o, sel)|
    ensures Sum(AtOnce(o, sel, out)) + Total(OwnGroups(o, sel, out, pick)) == Sum(AllFields(o, sel, out, true)) + |Labels(o, sel)|
  {
    var own := OwnGroups(o, sel, out, pick);
    MembersAreLabels(o, sel);
    OwnPrefix(o, sel, out, pick, |own|);
    assert own[..|own|] == own;
    AtOnceAndLater(o, sel, out, pick);
  }

  // ----- One operation -----

  function EntityForest(sels: Selections, e: Entity, pick: seq<string> -> string): seq<Group>
    requires EntityFits(sels, e)
  {
    if e.NilEntity? then [] else Forest(Composite(e.o), SelectionFor(sels, e.o), e.value, pick)
  }

  function EntityForests(sels: Selections, es: seq<Entity>, pick: seq<string> -> string): seq<seq<Group>>
    requires AllFit(sels, es)
  {
    seq(|es|, k requires 0 <= k < |es| => EntityForest(sels, es[k], pick))
  }

  ghost function AllEntityCounts(sels: Selections, es: seq<Entity>): seq<nat>
    requires AllFit(sels, es)
  {
    seq(|es|, k requires 0 <= k < |es| =>
      if es[k].NilEntity? then 0 else AllRegisters(Composite(es[k].o), SelectionFor(sels, es[k].o), es[k].value))
  }

  lemma EntityForestSizes(sels: Selections, es: seq<Entity>, pick: seq<string> -> string)
    requires AllFit(sels, es) && Picks(pick)
    ensures |Flatten(EntityForests(sels, es, pick))| == Sum(EntityCounts(sels, es))
    ensures Total(Flatten(EntityForests(sels, es, pick))) == Sum(AllEntityCounts(sels, es))
  {
    forall k | 0 <= k < |es|
      ensures |EntityForest(sels, es[k], pick)| == EntityCounts(sels, es)[k]
      ensures Total(EntityForest(sels, es[k], pick)) == AllEntityCounts(sels, es)[k]
    {
      if es[k].Typed? {
        ForestSizes(Composite(es[k].o), SelectionFor(sels, es[k].o), es[k].value, pick);
      }
    }
    FlattenSizes(EntityForests(sels, es, pick), EntityCounts(sels, es), AllEntityCounts(sels, es));
  }

  /**
   An `_entities` operation from its completion to its last response: the marshallers count the roots
   of the forest, and there are as many responses as groups in it and one more.
   */
  method ServeEntities(sels: Selections, es: seq<Entity>, pick: seq<string> -> string)
    returns (data: Response, counted: nat, rs: seq<Handler.Response>)
    requires AllFit(sels, es) && Picks(pick)
    ensures data == List(EntityResponses(sels, es))
    ensures |data.items| == |es| && forall k | 0 <= k < |es| :: EntityAnswers(sels, es[k], data.items[k])
    ensures counted == |Flatten(EntityForests(sels, es, pick))|
    ensures |rs| == 1 + Sum(AllEntityCounts(sels, es))
    ensures (forall k | 0 <= k < |es| && es[k].Typed? :: DeferFree(Composite(es[k].o), SelectionFor(sels, es[k].o))) ==>
              |rs| == 1
    ensures forall j | 0 <= j < |rs| :: rs[j].hasNext == if |rs| == 1 then None else Some(j + 1 < |rs|)
    ensures multiset(Handler.NamesOf(rs[1..])) == Names(Flatten(EntityForests(sels, es, pick)))
  {
    var ec := new ExecutionContext();
    data := MarshalEntities(ec, sels, es);
    var roots := Flatten(EntityForests(sels, es, pick));
    EntityForestSizes(sels, es, pick);
    counted := ec.deferred;
    var h := new Handler.Handler(roots);
    rs := Handler.AllResponses(h);
    if forall k | 0 <= k < |es| && es[k].Typed? :: DeferFree(Composite(es[k].o), SelectionFor(sels, es[k].o)) {
      NothingDeferred(sels, es, pick);
    }
  }

  lemma NothingDeferred(sels: Selections, es: seq<Entity>, pick: seq<string> -> string)
    requires AllFit(sels, es) && Picks(pick)
    requires forall k | 0 <= k < |es| && es[k].Typed? :: DeferFree(Composite(es[k].o), SelectionFor(sels, es[k].o))
    ensures Sum(AllEntityCounts(sels, es)) == 0
  {
    forall k | 0 <= k < |es| ensures EntityCounts(sels, es)[k] == 0 {
      if es[k].Typed? {
        DeferFreeRegistersNothing(Composite(es[k].o), SelectionFor(sels, es[k].o), es[k].value);
      }
    }
    SumZero(EntityCounts(sels, es));
    EntityForestSizes(sels, es, pick);
  }
}
