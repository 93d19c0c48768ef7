/**
 The query response handler: one initial response, then one for each deferred group as its result
 is received. The goroutines of the groups run at any moment between two actions of the handler.
 */
module ResponseHandler {
  import opened Wrappers
  import opened DeferredGroups

  /** group is None in the initial response; hasNext is None when the field is left out. */
  datatype Response = Response(group: Option<nat>, name: string, hasNext: Option<bool>)

  class Handler {
    const roots: seq<Group>    // what executing the operation registers
    ghost const total: nat     // all groups, nested ones included
    var first: bool
    var pending: int           // PendingDeferred
    var deferred: int          // Deferred
    var procs: seq<Proc>       // every goroutine started, in the order of registration
    ghost var answered: seq<nat>
    ghost var names: seq<string>

    constructor (gs: seq<Group>)
      ensures Valid() && roots == gs && first && answered == [] && names == []
    {
      roots, total := gs, Total(gs);
      first, pending, deferred, procs, answered, names := true, 0, 0, [], [], [];
    }

    /**
     Holds at every moment: the counter of pending groups is the number of live goroutines, plus
     the result in the handler's hand; and nothing is lost of what there was to answer.
     */
    ghost predicate Counts(unregistered: Rest, inHand: nat)
      reads this
    {
      && pending == Living(procs) + inHand
      && deferred == |procs|
      && Tally(procs, answered, names, unregistered, roots, total)
    }

    ghost predicate Valid()
      reads this
    {
      && total == Total(roots)
      && Counts(if first then RestFrom(roots, 0) else NOTHING, 0)
      && (first ==> procs == [] && answered == [])
      && (!first ==> (roots == [] <==> procs == []))
    }

    /** Registering counts the group as pending before its goroutine runs. */
    method Register(g: Group, ghost after: Rest)
      requires Counts(With(after, g), 0)
      modifies this`pending, this`deferred, this`procs
      ensures Counts(after, 0) && procs == old(procs) + [Running(g, 0)]
    {
      TallyStart(procs, g, answered, names, after, roots, total);
      deferred, pending := deferred + 1, pending + 1;
      procs := procs + [Running(g, 0)];
    }

    /** One step of a group's goroutine: register the next nested group, or else offer the result. */
    method Step(i: nat, ghost unregistered: Rest, ghost inHand: nat)
      requires Counts(unregistered, inHand) && i < |procs| && procs[i].Running?
      modifies this`pending, this`deferred, this`procs
      ensures Counts(unregistered, inHand) && Effort(procs) < old(Effort(procs))
      ensures |procs| >= old(|procs|) && pending >= old(pending)
    {
      assert ProcOk(procs[i]);
      if procs[i].next < |procs[i].group.nested| {
        RegisterNested(i, unregistered, inHand);
      } else {
        TallyOffer(procs, i, answered, names, unregistered, roots, total);
        procs := procs[i := Sending(procs[i].group)];
      }
    }

    method RegisterNested(i: nat, ghost unregistered: Rest, ghost inHand: nat)
      requires Counts(unregistered, inHand) && i < |procs| && procs[i].Running? && procs[i].next < |procs[i].group.nested|
      modifies this`pending, this`deferred, this`procs
      ensures Counts(unregistered, inHand) && Effort(procs) < old(Effort(procs))
      ensures |procs| >= old(|procs|) && pending >= old(pending)
    {
      var nested := Nested(procs, i);
      TallyNested(procs, i, answered, names, unregistered, roots, total);
      NestedEffort(procs, i);
      procs := nested;
      deferred, pending := deferred + 1, pending + 1;
    }

    /** Any number of steps of any goroutines. */
    method Others(ghost unregistered: Rest, ghost inHand: nat)
      requires Counts(unregistered, inHand)
      modifies this`pending, this`deferred, this`procs
      ensures Counts(unregistered, inHand) && |procs| >= old(|procs|) && pending >= old(pending)
      ensures old(procs) == [] ==> procs == []
    {
      while *
        invariant Counts(unregistered, inHand) && |procs| >= old(|procs|) && pending >= old(pending)
        invariant old(procs) == [] ==> procs == []
        decreases Effort(procs)
      {
        if i :| 0 <= i < |procs| && procs[i].Running? {
          Step(i, unregistered, inHand);
        } else {
          break;
        }
      }
    }

    /** While a group is pending and none offers its result, some goroutine can go on. */
    lemma SomeoneRuns()
      requires Counts(NOTHING, 0) && pending > 0 && !exists k :: 0 <= k < |procs| && procs[k].Sending?
      ensures exists k :: 0 <= k < |procs| && procs[k].Running?
    {
      NoneLeft(procs);
    }

    method Take(i: nat)
      requires Counts(NOTHING, 0) && i < |procs| && procs[i].Sending?
      modifies this`procs, this`answered, this`names
      ensures Counts(NOTHING, 1) && |procs| == old(|procs|)
      ensures answered == old(answered) + [i] && names == old(names) + [procs[i].group.name]
    {
      var group := procs[i].group;
      TallyTake(procs, i, answered, names, roots, total);
      answered, names := answered + [i], names + [group.name];
      procs := procs[i := Taken(group)];
    }

    /** `<-ec.DeferredResults`: goroutines run until one offers a result, and there always is one. */
    method Receive() returns (i: nat)
      requires Counts(NOTHING, 0) && pending > 0
      modifies this`pending, this`deferred, this`procs, this`answered, this`names
      ensures Counts(NOTHING, 1) && |procs| >= old(|procs|) && i < |procs|
      ensures answered == old(answered) + [i] && names == old(names) + [procs[i].group.name]
    {
      Others(NOTHING, 0);
      while !exists k :: 0 <= k < |procs| && procs[k].Sending?
        invariant Counts(NOTHING, 0) && pending > 0 && |procs| >= old(|procs|)
        invariant answered == old(answered) && names == old(names)
        decreases Effort(procs)
      {
        SomeoneRuns();
        var k :| 0 <= k < |procs| && procs[k].Running?;
        Step(k, NOTHING, 0);
      }
      var k :| 0 <= k < |procs| && procs[k].Sending?;
      i := k;
      Take(i);
    }

    method RegisterRoot(k: nat)
      requires k < |roots| && Counts(RestFrom(roots, k), 0)
      modifies this`pending, this`deferred, this`procs
      ensures Counts(RestFrom(roots, k + 1), 0) && |procs| > old(|procs|)
    {
      ghost var rest := RestFrom(roots, k + 1);
      RestStep(roots, k);
      Register(roots[k], rest);
      Others(rest, 0);
    }

    /** The groups the operation itself registers, while those before them are already running. */
    method ExecuteQuery()
      requires Counts(RestFrom(roots, 0), 0) && procs == [] && total == Total(roots)
      modifies this`pending, this`deferred, this`procs
      ensures Counts(NOTHING, 0) && (roots == [] <==> procs == [])
    {
      for k := 0 to |roots|
        invariant Counts(RestFrom(roots, k), 0) && |procs| >= k && (k == 0 ==> procs == [])
      {
        RegisterRoot(k);
      }
    }

    /** When as many have answered as there are groups, all of them have, each under its name. */
    lemma AllNamed()
      requires Valid() && !first && |answered| == total
      ensures multiset(names) == Names(roots) && |names| == total == Total(roots)
      ensures forall j, k | 0 <= j < k < |answered| :: answered[j] != answered[k]
    {
      NoneLeft(procs);
      NamesEnd(names, procs, roots);
    }

    /**
     One call of the handler. The n-th call answers as long as n is at most the number of groups,
     nested ones included, and says whether more will follow; after that it returns nil for good.
     */
    method Next() returns (r: Option<Response>)
      requires Valid()
      modifies this
      ensures Valid() && !first && pending >= 0
      ensures old(first) ==> r.Some? && r.value.group.None? && answered == [] && names == []
      ensures !old(first) && |old(answered)| < total ==>
                && r.Some? && r.value.group.Some?
                && answered == old(answered) + [r.value.group.value] && names == old(names) + [r.value.name]
      ensures !old(first) && |old(answered)| == total ==> r.None? && answered == old(answered) && names == old(names)
      ensures r.Some? ==> r.value.hasNext == if total == 0 then None else Some(|answered| < total)
    {
      var group: Option<nat>, name := None, "";
      if first {
        first := false;
        ExecuteQuery();
      } else {
        NoneLeft(procs);
        if pending == 0 {
          return None;
        }
        var i;
        i, name := ReceiveOne();
        group := Some(i);
      }
      Others(NOTHING, 0);
      var hasNext := HasNext();
      return Some(Response(group, name, hasNext));
    }

    /** A result is received, and only then the counter goes down. */
    method ReceiveOne() returns (i: nat, name: string)
      requires Counts(NOTHING, 0) && pending > 0
      modifies this`pending, this`deferred, this`procs, this`answered, this`names
      ensures Counts(NOTHING, 0) && procs != []
      ensures answered == old(answered) + [i] && names == old(names) + [name]
    {
      i := Receive();
      name := procs[i].group.name;
      Others(NOTHING, 1);
      pending := pending - 1;
    }

    /** The two loads at the end of a response, with goroutines running in between. */
    method HasNext() returns (hasNext: Option<bool>)
      requires Counts(NOTHING, 0)
      modifies this`pending, this`deferred, this`procs
      ensures Counts(NOTHING, 0) && |procs| >= old(|procs|) && (old(procs) == [] ==> procs == [])
      ensures hasNext == if old(procs) == [] then None else Some(|answered| < total)
    {
      hasNext := None;
      if deferred > 0 {
        Others(NOTHING, 0);
        NoneLeft(procs);
        hasNext := Some(pending > 0);
      }
    }
  }

  /** The j-th response, when these groups have answered under these names. */
  ghost predicate IsResponse(answered: seq<nat>, names: seq<string>, total: nat, r: Response, j: nat) {
    && (if j == 0 then r.group.None?
        else j <= |answered| && j <= |names| && r.group == Some(answered[j - 1]) && r.name == names[j - 1])
    && r.hasNext == if total == 0 then None else Some(j < total)
  }

  ghost predicate AreResponses(answered: seq<nat>, names: seq<string>, total: nat, rs: seq<Response>) {
    forall j | 0 <= j < |rs| :: IsResponse(answered, names, total, rs[j], j)
  }

  lemma MoreAnswers(answered: seq<nat>, names: seq<string>, answered': seq<nat>, names': seq<string>, total: nat, rs: seq<Response>)
    requires AreResponses(answered, names, total, rs) && answered <= answered' && names <= names'
    ensures AreResponses(answered', names', total, rs)
  {
    forall j | 0 <= j < |rs| ensures IsResponse(answered', names', total, rs[j], j) {
      assert IsResponse(answered, names, total, rs[j], j);
    }
  }

  function NamesOf(rs: seq<Response>): seq<string> {
    seq(|rs|, j requires 0 <= j < |rs| => rs[j].name)
  }

  lemma AllAnswered(answered: seq<nat>, names: seq<string>, total: nat, rs: seq<Response>)
    requires AreResponses(answered, names, total, rs) && |rs| == 1 + total && |answered| == |names| == total
    requires forall j, k | 0 <= j < k < |answered| :: answered[j] != answered[k]
    ensures rs[0].group.None? && forall j | 1 <= j < |rs| :: rs[j].group.Some?
    ensures forall j, k | 1 <= j < k < |rs| :: rs[j].group != rs[k].group
    ensures NamesOf(rs[1..]) == names
    ensures forall j | 0 <= j < |rs| :: rs[j].hasNext == if |rs| == 1 then None else Some(j + 1 < |rs|)
  {
    assert forall j | 0 <= j < |rs| :: IsResponse(answered, names, total, rs[j], j);
  }

  /** What the transport does: call until nil. */
  method AllResponses(h: Handler) returns (rs: seq<Response>)
    requires h.Valid() && h.first
    modifies h
    ensures h.Valid() && |rs| == 1 + Total(h.roots)
    ensures rs[0].group.None? && forall j | 1 <= j < |rs| :: rs[j].group.Some?
    ensures forall j, k | 1 <= j < k < |rs| :: rs[j].group != rs[k].group
    ensures multiset(NamesOf(rs[1..])) == Names(h.roots)
    ensures forall j | 0 <= j < |rs| :: rs[j].hasNext == if |rs| == 1 then None else Some(j + 1 < |rs|)
  {
    ghost var total := h.total;
    var r := h.Next();
    rs := [];
    while r.Some?
      invariant h.Valid() && !h.first && AreResponses(h.answered, h.names, total, rs)
      invariant r.Some? ==> |rs| == |h.answered| <= total && IsResponse(h.answered, h.names, total, r.value, |rs|)
      invariant r.None? ==> |rs| == 1 + total && |h.answered| == total
      decreases 2 + total - |rs| - (if r.None? then 1 else 0)
    {
      ghost var answered, names := h.answered, h.names;
      rs := rs + [r.value];
      r := h.Next();
      MoreAnswers(answered, names, h.answered, h.names, total, rs);
    }
    h.AllNamed();
    AllAnswered(h.answered, h.names, total, rs);
  }
}
