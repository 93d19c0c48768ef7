/** Deferred groups and the goroutines that complete them. */
module DeferredGroups {
  import opened Sums

  /** A group, and the groups that completing it registers. */
  datatype Group = Group(name: string, nested: seq<Group>)

  /** How many groups there are from the n-th on, with all below them. */
  function SizeFrom(gs: seq<Group>, n: nat): nat
    requires n <= |gs|
    decreases gs, |gs| - n
  {
    if n == |gs| then 0 else 1 + SizeFrom(gs[n].nested, 0) + SizeFrom(gs, n + 1)
  }

  function Total(gs: seq<Group>): nat {
    SizeFrom(gs, 0)
  }

  /** Their names, each as often as there are groups of that name. */
  function NamesFrom(gs: seq<Group>, n: nat): multiset<string>
    requires n <= |gs|
    decreases gs, |gs| - n
  {
    if n == |gs| then multiset{} else multiset{gs[n].name} + NamesFrom(gs[n].nested, 0) + NamesFrom(gs, n + 1)
  }

  function Names(gs: seq<Group>): multiset<string> {
    NamesFrom(gs, 0)
  }

  /** The goroutine of a group: it registers what is nested, offers its result, and is received. */
  datatype Proc = Running(group: Group, next: nat) | Sending(group: Group) | Taken(group: Group)

  predicate ProcOk(p: Proc) {
    p.Running? ==> p.next <= |p.group.nested|
  }

  /** How many results a goroutine, and those it has yet to start, will send. */
  ghost function Weight(p: Proc): nat {
    if p.Taken? then 0
    else if p.Running? && p.next <= |p.group.nested| then 1 + SizeFrom(p.group.nested, p.next)
    else 1
  }

  ghost function Alive(p: Proc): nat {
    if p.Taken? then 0 else 1
  }

  /** How much a goroutine and its offspring still have to do before all of them are received. */
  ghost function Work(p: Proc): nat {
    if p.Taken? then 0
    else if p.Running? && p.next <= |p.group.nested| then 2 + 3 * SizeFrom(p.group.nested, p.next)
    else 1
  }

  /** The names under which a goroutine, and those it has yet to start, will send. */
  ghost function Owed(p: Proc): multiset<string> {
    if p.Taken? then multiset{}
    else if p.Running? && p.next <= |p.group.nested| then multiset{p.group.name} + NamesFrom(p.group.nested, p.next)
    else multiset{p.group.name}
  }

  ghost function Owings(ps: seq<Proc>): (v: seq<multiset<string>>)
    ensures |v| == |ps|
  {
    seq(|ps|, i requires 0 <= i < |ps| => Owed(ps[i]))
  }

  ghost function Owing(ps: seq<Proc>): multiset<string> { Union(Owings(ps)) }

  lemma OwingStarted(ps: seq<Proc>, p: Proc)
    ensures Owing(ps + [p]) == Owing(ps) + Owed(p)
  {
    assert Owings(ps + [p])[..|ps|] == Owings(ps);
  }

  lemma OwingMoved(ps: seq<Proc>, i: nat, p: Proc)
    requires i < |ps|
    ensures Owing(ps[i := p]) + Owed(ps[i]) == Owing(ps) + Owed(p)
  {
    assert Owings(ps[i := p]) == Owings(ps)[i := Owed(p)];
    UnionUpdate(Owings(ps), i, Owed(p));
  }

  lemma {:induction false} NothingOwed(ps: seq<Proc>)
    requires forall i | 0 <= i < |ps| :: ps[i].Taken?
    ensures Owing(ps) == multiset{}
  {
    if ps != [] {
      NothingOwed(ps[..|ps| - 1]);
      assert Owings(ps)[..|ps| - 1] == Owings(ps[..|ps| - 1]);
    }
  }

  ghost function Weights(ps: seq<Proc>): (v: seq<nat>)
    ensures |v| == |ps|
  {
    seq(|ps|, i requires 0 <= i < |ps| => Weight(ps[i]))
  }

  ghost function Alives(ps: seq<Proc>): (v: seq<nat>)
    ensures |v| == |ps|
  {
    seq(|ps|, i requires 0 <= i < |ps| => Alive(ps[i]))
  }

  ghost function Works(ps: seq<Proc>): (v: seq<nat>)
    ensures |v| == |ps|
  {
    seq(|ps|, i requires 0 <= i < |ps| => Work(ps[i]))
  }

  ghost function Left(ps: seq<Proc>): nat { Sum(Weights(ps)) }
  ghost function Living(ps: seq<Proc>): nat { Sum(Alives(ps)) }
  ghost function Effort(ps: seq<Proc>): nat { Sum(Works(ps)) }

  lemma SumAppend(v: seq<nat>, x: nat)
    ensures Sum(v + [x]) == Sum(v) + x
  {
    assert (v + [x])[..|v|] == v;
  }

  /** Starting a goroutine. */
  lemma Started(ps: seq<Proc>, p: Proc)
    ensures Left(ps + [p]) == Left(ps) + Weight(p)
    ensures Living(ps + [p]) == Living(ps) + Alive(p)
    ensures Effort(ps + [p]) == Effort(ps) + Work(p)
  {
    assert Weights(ps + [p]) == Weights(ps) + [Weight(p)];
    assert Alives(ps + [p]) == Alives(ps) + [Alive(p)];
    assert Works(ps + [p]) == Works(ps) + [Work(p)];
    SumAppend(Weights(ps), Weight(p));
    SumAppend(Alives(ps), Alive(p));
    SumAppend(Works(ps), Work(p));
  }

  /** A goroutine moving on. */
  lemma Moved(ps: seq<Proc>, i: nat, p: Proc)
    requires i < |ps|
    ensures Left(ps[i := p]) + Weight(ps[i]) == Left(ps) + Weight(p)
    ensures Living(ps[i := p]) + Alive(ps[i]) == Living(ps) + Alive(p)
    ensures Effort(ps[i := p]) + Work(ps[i]) == Effort(ps) + Work(p)
  {
    assert Weights(ps[i := p]) == Weights(ps)[i := Weight(p)];
    assert Alives(ps[i := p]) == Alives(ps)[i := Alive(p)];
    assert Works(ps[i := p]) == Works(ps)[i := Work(p)];
    SumUpdate(Weights(ps), i, Weight(p));
    SumUpdate(Alives(ps), i, Alive(p));
    SumUpdate(Works(ps), i, Work(p));
  }

  /** Nothing is left exactly when no goroutine is alive. */
  lemma NoneLeft(ps: seq<Proc>)
    ensures Left(ps) == 0 <==> Living(ps) == 0
    ensures Living(ps) == 0 <==> forall i | 0 <= i < |ps| :: ps[i].Taken?
  {
    SumZero(Weights(ps));
    SumZero(Alives(ps));
    assert forall i | 0 <= i < |ps| :: Weights(ps)[i] == Weight(ps[i]) && Alives(ps)[i] == Alive(ps[i]);
  }

  // ----- Names are neither lost nor invented -----

  /** What is still to be registered: how many groups, nested ones included, and their names. */
  datatype Rest = Rest(count: nat, names: multiset<string>)

  const NOTHING := Rest(0, multiset{})

  function RestFrom(gs: seq<Group>, n: nat): Rest
    requires n <= |gs|
  {
    Rest(SizeFrom(gs, n), NamesFrom(gs, n))
  }

  function With(after: Rest, g: Group): Rest {
    Rest(1 + Total(g.nested) + after.count, multiset{g.name} + Names(g.nested) + after.names)
  }

  /** The names answered, owed by goroutines and still to be registered are those of all groups. */
  ghost predicate NamesAdd(names: seq<string>, ps: seq<Proc>, rest: multiset<string>, roots: seq<Group>) {
    multiset(names) + Owing(ps) + rest == Names(roots)
  }

  lemma NamesStart(names: seq<string>, ps: seq<Proc>, g: Group, after: Rest, roots: seq<Group>)
    requires NamesAdd(names, ps, With(after, g).names, roots)
    ensures NamesAdd(names, ps + [Running(g, 0)], after.names, roots)
  {
    OwingStarted(ps, Running(g, 0));
    Regroup(multiset(names), Owing(ps), Owed(Running(g, 0)), after.names);
  }

  lemma Regroup(a: multiset<string>, b: multiset<string>, c: multiset<string>, d: multiset<string>)
    ensures a + (b + c) + d == a + b + (c + d)
  {
  }

  lemma NamesMove(names: seq<string>, ps: seq<Proc>, i: nat, p: Proc, rest: multiset<string>, after: multiset<string>, roots: seq<Group>)
    requires i < |ps| && NamesAdd(names, ps, rest, roots) && Owed(ps[i]) + rest == Owed(p) + after
    ensures NamesAdd(names, ps[i := p], after, roots)
  {
    OwingMoved(ps, i, p);
    Exchange(multiset(names), Owing(ps[i := p]), Owing(ps), Owed(ps[i]), Owed(p), rest, after);
  }

  lemma Exchange(a: multiset<string>, b': multiset<string>, b: multiset<string>, x: multiset<string>, y: multiset<string>,
                 u: multiset<string>, v: multiset<string>)
    requires b' + x == b + y && x + u == y + v
    ensures a + b' + v == a + b + u
  {
    forall e ensures (a + b' + v)[e] == (a + b + u)[e] {
      assert (b' + x)[e] == (b + y)[e] && (x + u)[e] == (y + v)[e];
    }
  }

  lemma NamesTaken(names: seq<string>, ps: seq<Proc>, i: nat, roots: seq<Group>)
    requires i < |ps| && ps[i].Sending? && NamesAdd(names, ps, multiset{}, roots)
    ensures NamesAdd(names + [ps[i].group.name], ps[i := Taken(ps[i].group)], multiset{}, roots)
  {
    var name := ps[i].group.name;
    OwingMoved(ps, i, Taken(ps[i].group));
    assert multiset(names + [name]) == multiset(names) + multiset{name};
    assert Owing(ps[i := Taken(ps[i].group)]) + multiset{name} == Owing(ps);
  }

  lemma NamesEnd(names: seq<string>, ps: seq<Proc>, roots: seq<Group>)
    requires NamesAdd(names, ps, multiset{}, roots) && forall i | 0 <= i < |ps| :: ps[i].Taken?
    ensures multiset(names) == Names(roots)
  {
    NothingOwed(ps);
  }

  // ----- What every moment keeps -----

  /** So many results received, under these names, by these goroutines; nothing is lost or doubled. */
  ghost predicate Tally(ps: seq<Proc>, answered: seq<nat>, names: seq<string>, rest: Rest, roots: seq<Group>, total: nat) {
    && (forall p | p in ps :: ProcOk(p))
    && |answered| + Left(ps) + rest.count == total
    && NamesAdd(names, ps, rest.names, roots)
    && AnsweredOnce(ps, answered) && |names| == |answered|
  }

  ghost predicate AnsweredOnce(ps: seq<Proc>, answered: seq<nat>) {
    && (forall j | 0 <= j < |answered| :: answered[j] < |ps| && ps[answered[j]].Taken?)
    && forall j, k | 0 <= j < k < |answered| :: answered[j] != answered[k]
  }

  lemma TallyStart(ps: seq<Proc>, g: Group, answered: seq<nat>, names: seq<string>, after: Rest, roots: seq<Group>, total: nat)
    requires Tally(ps, answered, names, With(after, g), roots, total)
    ensures Tally(ps + [Running(g, 0)], answered, names, after, roots, total)
    ensures Living(ps + [Running(g, 0)]) == Living(ps) + 1
  {
    Started(ps, Running(g, 0));
    NamesStart(names, ps, g, after, roots);
  }

  lemma MoveKeepsAnswers(ps: seq<Proc>, i: nat, p: Proc, answered: seq<nat>)
    requires AnsweredOnce(ps, answered) && i < |ps| && !ps[i].Taken?
    ensures AnsweredOnce(ps[i := p], answered)
  {
  }

  lemma TallyMove(ps: seq<Proc>, i: nat, p: Proc, answered: seq<nat>, names: seq<string>, rest: Rest, after: Rest,
                  roots: seq<Group>, total: nat)
    requires Tally(ps, answered, names, rest, roots, total) && i < |ps| && ProcOk(p) && !ps[i].Taken? && !p.Taken?
    requires Weight(ps[i]) + rest.count == Weight(p) + after.count
    requires Owed(ps[i]) + rest.names == Owed(p) + after.names
    ensures Tally(ps[i := p], answered, names, after, roots, total) && Living(ps[i := p]) == Living(ps)
  {
    Moved(ps, i, p);
    NamesMove(names, ps, i, p, rest.names, after.names, roots);
    MoveKeepsAnswers(ps, i, p, answered);
  }

  /** The goroutines after one of them has registered its next nested group. */
  function Nested(ps: seq<Proc>, i: nat): (ps': seq<Proc>)
    requires i < |ps| && ps[i].Running? && ps[i].next < |ps[i].group.nested|
    ensures |ps'| == |ps| + 1
  {
    ps[i := Running(ps[i].group, ps[i].next + 1)] + [Running(ps[i].group.nested[ps[i].next], 0)]
  }

  lemma NestedOwes(g: Group, next: nat, rest: Rest)
    requires next < |g.nested|
    ensures Weight(Running(g, next)) + rest.count == Weight(Running(g, next + 1)) + With(rest, g.nested[next]).count
    ensures Owed(Running(g, next)) + rest.names == Owed(Running(g, next + 1)) + With(rest, g.nested[next]).names
  {
  }

  lemma TallyNested(ps: seq<Proc>, i: nat, answered: seq<nat>, names: seq<string>, rest: Rest, roots: seq<Group>, total: nat)
    requires Tally(ps, answered, names, rest, roots, total)
    requires i < |ps| && ps[i].Running? && ps[i].next < |ps[i].group.nested|
    ensures Tally(Nested(ps, i), answered, names, rest, roots, total) && Living(Nested(ps, i)) == Living(ps) + 1
  {
    var moved := NestedMoves(ps, i, answered, names, rest, roots, total);
    TallyStart(moved, ps[i].group.nested[ps[i].next], answered, names, rest, roots, total);
  }

  /** Half way: the names of the nested group are owed by nobody yet. */
  lemma NestedMoves(ps: seq<Proc>, i: nat, answered: seq<nat>, names: seq<string>, rest: Rest, roots: seq<Group>, total: nat)
    returns (moved: seq<Proc>)
    requires Tally(ps, answered, names, rest, roots, total)
    requires i < |ps| && ps[i].Running? && ps[i].next < |ps[i].group.nested|
    ensures moved == ps[i := Running(ps[i].group, ps[i].next + 1)]
    ensures Tally(moved, answered, names, With(rest, ps[i].group.nested[ps[i].next]), roots, total) && Living(moved) == Living(ps)
  {
    var g, next := ps[i].group, ps[i].next;
    var p := Running(g, next + 1);
    moved := ps[i := p];
    assert ps[i] == Running(g, next);
    NestedOwes(g, next, rest);
    TallyMove(ps, i, p, answered, names, rest, With(rest, g.nested[next]), roots, total);
  }

  lemma NestedEffort(ps: seq<Proc>, i: nat)
    requires i < |ps| && ps[i].Running? && ps[i].next < |ps[i].group.nested|
    ensures Effort(Nested(ps, i)) < Effort(ps)
  {
    var g, next := ps[i].group, ps[i].next;
    Moved(ps, i, Running(g, next + 1));
    Started(ps[i := Running(g, next + 1)], Running(g.nested[next], 0));
  }

  /** A goroutine that has registered everything offers its result. */
  lemma TallyOffer(ps: seq<Proc>, i: nat, answered: seq<nat>, names: seq<string>, rest: Rest, roots: seq<Group>, total: nat)
    requires Tally(ps, answered, names, rest, roots, total)
    requires i < |ps| && ps[i].Running? && ps[i].next == |ps[i].group.nested|
    ensures var ps' := ps[i := Sending(ps[i].group)];
            Tally(ps', answered, names, rest, roots, total) && Living(ps') == Living(ps) && Effort(ps') < Effort(ps)
  {
    Moved(ps, i, Sending(ps[i].group));
    TallyMove(ps, i, Sending(ps[i].group), answered, names, rest, rest, roots, total);
  }

  /** A result is received: its goroutine has not answered before, and never will again. */
  lemma TallyTake(ps: seq<Proc>, i: nat, answered: seq<nat>, names: seq<string>, roots: seq<Group>, total: nat)
    requires Tally(ps, answered, names, NOTHING, roots, total) && i < |ps| && ps[i].Sending?
    ensures var ps' := ps[i := Taken(ps[i].group)];
            && Tally(ps', answered + [i], names + [ps[i].group.name], NOTHING, roots, total)
            && Living(ps') + 1 == Living(ps)
  {
    Moved(ps, i, Taken(ps[i].group));
    NamesTaken(names, ps, i, roots);
    assert forall j | 0 <= j < |answered| :: answered[j] != i;
  }

  /** The n-th group is the first of those from it on. */
  lemma RestStep(gs: seq<Group>, n: nat)
    requires n < |gs|
    ensures RestFrom(gs, n) == With(RestFrom(gs, n + 1), gs[n])
  {
  }
}
