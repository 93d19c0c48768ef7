/**
 `__resolve_entities` as a step relation over its goroutines. The main goroutine spawns one
 goroutine a group (or calls the only group itself), a group goroutine spawns one goroutine an
 entity, entity goroutines write the shared list or record an error, and two levels of WaitGroup
 counters join them. A step is one atomic action of one goroutine; any enabled step may come next.
 */
module ForkJoin {
  import opened Wrappers
  import opened Entities
  import opened Sums

  /** The entity goroutine that the k-th entry of group t is given to. */
  datatype Slot = Slot(t: string, k: nat)

  /** One call: the request, its groups, and which goroutine each request entry is given to. */
  datatype Job<!T> = Job(
    svc: Service<T>,
    reps: seq<Representation>,
    groups: map<string, seq<EntityWithIndex>>,
    home: seq<Option<Slot>>)

  ghost function MakeJob<T>(svc: Service<T>, reps: seq<Representation>): Job<T> {
    Job(svc, reps, Groups(reps), seq(|reps|, i requires 0 <= i < |reps| =>
      match TypeName(reps[i]) case None => None case Some(t) => Some(Slot(t, Rank(reps, i)))))
  }

  /** Entries and entity goroutines correspond one to one. */
  ghost predicate Consistent<T>(job: Job<T>) {
    && |job.home| == |job.reps|
    && (forall t | t in job.groups :: |job.groups[t]| > 0)
    && (forall t, k | t in job.groups && 0 <= k < |job.groups[t]| ::
          var e := job.groups[t][k];
          e.index < |job.reps| && e.entity == job.reps[e.index] && job.home[e.index] == Some(Slot(t, k)))
    && (forall i | 0 <= i < |job.reps| :: job.home[i].Some? ==>
          var slot := job.home[i].value;
          slot.t in job.groups && slot.k < |job.groups[slot.t]| && job.groups[slot.t][slot.k].index == i)
    && (forall i | 0 <= i < |job.reps| :: TypeName(job.reps[i]) ==
          if job.home[i].Some? then Some(job.home[i].value.t) else None)
  }

  lemma GroupingIsConsistent<T>(svc: Service<T>, reps: seq<Representation>)
    ensures Consistent(MakeJob(svc, reps))
  {
    var job := MakeJob(svc, reps);
    forall t | t in job.groups
      ensures |job.groups[t]| > 0
      ensures forall k | 0 <= k < |job.groups[t]| ::
                var e := job.groups[t][k];
                e.index < |reps| && e.entity == reps[e.index] && job.home[e.index] == Some(Slot(t, k))
    {
      GroupEntries(reps, t);
      EmptyGroup(reps, t);
    }
    forall i | 0 <= i < |reps| && job.home[i].Some?
      ensures var slot := job.home[i].value;
              slot.t in job.groups && slot.k < |job.groups[slot.t]| && job.groups[slot.t][slot.k].index == i
    {
      EntryHasGroup(reps, i);
    }
  }

  datatype MainPc = Starting | Spawning | Returned
  datatype GroupPc = Unspawned | Entered | Forking(next: nat) | Joined | Finished
  datatype EntityPc = Unforked | Running | Settled | Ended

  /** A group: its program counter, its WaitGroup counter, and its entity goroutines. */
  datatype Group = Group(pc: GroupPc, inner: int, entity: seq<EntityPc>)

  datatype State<+T> = State(
    list: seq<Entity<T>>,
    errors: multiset<Error>,
    main: MainPc,
    outer: int,
    group: map<string, Group>)

  datatype Step =
    | Begin                            // the switch on the number of groups; g.Add when there are several
    | SpawnGroup(t: string)            // go func, or the plain call in the one-group branch
    | AddInner(t: string)              // e.Add(len(reps))
    | ForkEntity(t: string)            // the next turn of the spawning loop
    | Settle(t: string, k: nat)        // resolveEntity, then ec.Error or list[rep.index] = entity
    | EntityDone(t: string, k: nat)    // e.Done()
    | JoinGroup(t: string)             // e.Wait() returns
    | GroupDone(t: string)             // g.Done(), or the return of the plain call
    | Return                           // g.Wait() returns, or the branches without it

  // ----- The sequential specification -----

  /** What representation `i` comes to when it is resolved on its own. */
  function Outcome<T>(job: Job<T>, i: nat): Result<Entity<T>, Error>
    requires i < |job.reps|
  {
    match TypeName(job.reps[i])
    case None => Err(NoTypename)
    case Some(t) => ResolveEntity(job.svc, t, job.reps[i])
  }

  function Cell<T>(job: Job<T>, i: nat): Entity<T>
    requires i < |job.reps|
  {
    match Outcome(job, i) case Ok(entity) => entity case Err(_) => Nothing
  }

  function ErrorOf<T>(job: Job<T>, i: nat): multiset<Error>
    requires i < |job.reps|
  {
    match Outcome(job, i) case Ok(_) => multiset{} case Err(e) => multiset{e}
  }

  /** The pointwise map the concurrent code must compute. */
  ghost function Expected<T>(job: Job<T>): seq<Entity<T>> {
    seq(|job.reps|, i requires 0 <= i < |job.reps| => Cell(job, i))
  }

  ghost function ErrorsOf<T>(job: Job<T>): seq<multiset<Error>> {
    seq(|job.reps|, i requires 0 <= i < |job.reps| => ErrorOf(job, i))
  }

  ghost function ExpectedErrors<T>(job: Job<T>): multiset<Error> {
    Union(ErrorsOf(job))
  }

  // ----- The specification, read off the request -----

  /** The cell holds what the finder found when every check holds; otherwise nothing, and there is an error. */
  ghost predicate CellAnswers<T>(svc: Service<T>, rep: Representation, cell: Entity<T>) {
    && (cell.Entity? <==> Resolves(svc, rep))
    && (cell.Entity? ==> Finds(svc, rep, cell.typeName, cell.value))
    && (cell.Nothing? ==> exists e :: FailsWith(svc, rep, e))
  }

  /** The representations for which this error is recorded. */
  ghost function Failing<T>(svc: Service<T>, reps: seq<Representation>, e: Error): set<nat> {
    set i: nat | i < |reps| && FailsWith(svc, reps[i], e)
  }

  lemma OutcomeAnswers<T>(job: Job<T>, i: nat)
    requires i < |job.reps|
    ensures CellAnswers(job.svc, job.reps[i], Cell(job, i))
    ensures forall e :: ErrorOf(job, i)[e] == if FailsWith(job.svc, job.reps[i], e) then 1 else 0
  {
    OneAnswer(job.svc, job.reps[i]);
    if Outcome(job, i).Err? {
      assert FailsWith(job.svc, job.reps[i], Outcome(job, i).error);
    } else {
      var entity := Outcome(job, i).value;
      assert Finds(job.svc, job.reps[i], entity.typeName, entity.value);
    }
  }

  /** Each error is recorded as often as there are representations that fail with it. */
  lemma {:induction false} ErrorsCount<T>(job: Job<T>, n: nat, e: Error)
    requires n <= |job.reps|
    ensures Union(ErrorsOf(job)[..n])[e] == |Failing(job.svc, job.reps[..n], e)|
  {
    if n == 0 {
      assert Failing(job.svc, job.reps[..n], e) == {};
    } else {
      ErrorsCount(job, n - 1, e);
      OutcomeAnswers(job, n - 1);
      assert ErrorsOf(job)[..n][..n - 1] == ErrorsOf(job)[..n - 1];
      FailingSnoc(job.svc, job.reps, n - 1, e);
    }
  }

  lemma FailingSnoc<T>(svc: Service<T>, reps: seq<Representation>, n: nat, e: Error)
    requires n < |reps|
    ensures |Failing(svc, reps[..n + 1], e)| == |Failing(svc, reps[..n], e)| + if FailsWith(svc, reps[n], e) then 1 else 0
  {
    var more := if FailsWith(svc, reps[n], e) then {n} else {};
    assert Failing(svc, reps[..n + 1], e) == Failing(svc, reps[..n], e) + more;
  }

  /**
   Cell i holds what the finder of representation i found exactly when all its checks hold, and is
   nil otherwise; every error is recorded once for each representation whose first failing check it
   reports.
   */
  ghost predicate AllAnswered<T>(svc: Service<T>, reps: seq<Representation>, list: seq<Entity<T>>, errors: multiset<Error>) {
    && |list| == |reps|
    && (forall i | 0 <= i < |reps| :: CellAnswers(svc, reps[i], list[i]))
    && forall e :: errors[e] == |Failing(svc, reps, e)|
  }

  /** The sequential specification answers every representation as its own checks decide. */
  lemma ExpectedAnswers<T>(job: Job<T>)
    ensures AllAnswered(job.svc, job.reps, Expected(job), ExpectedErrors(job))
  {
    forall i | 0 <= i < |job.reps| ensures CellAnswers(job.svc, job.reps[i], Expected(job)[i]) {
      OutcomeAnswers(job, i);
    }
    forall e ensures ExpectedErrors(job)[e] == |Failing(job.svc, job.reps, e)| {
      ErrorsCount(job, |job.reps|, e);
      assert ErrorsOf(job)[..|job.reps|] == ErrorsOf(job) && job.reps[..|job.reps|] == job.reps;
    }
  }

  // ----- The step relation -----

  ghost predicate Shape<T>(job: Job<T>, s: State<T>) {
    && |s.list| == |job.reps|
    && s.group.Keys == job.groups.Keys
    && (forall t | t in job.groups :: |s.group[t].entity| == |job.groups[t]|)
    && (forall t, k | t in job.groups && 0 <= k < |job.groups[t]| :: job.groups[t][k].index < |s.list|)
  }

  ghost function Init<T>(job: Job<T>): State<T> {
    State(
      seq(|job.reps|, _ => Nothing),
      multiset(Skipped(job.reps)),
      Starting,
      0,
      map t | t in job.groups :: Group(Unspawned, 0, seq(|job.groups[t]|, _ => Unforked)))
  }

  ghost predicate Enabled<T>(job: Job<T>, s: State<T>, step: Step)
    requires Shape(job, s)
  {
    match step
    case Begin => s.main.Starting? && |job.groups| > 0
    case SpawnGroup(t) => s.main.Spawning? && t in s.group && s.group[t].pc.Unspawned?
    case AddInner(t) => t in s.group && s.group[t].pc.Entered?
    case ForkEntity(t) => t in s.group && s.group[t].pc.Forking? && s.group[t].pc.next < |job.groups[t]|
    case Settle(t, k) => t in s.group && k < |job.groups[t]| && s.group[t].entity[k].Running?
    case EntityDone(t, k) => t in s.group && k < |job.groups[t]| && s.group[t].entity[k].Settled?
    case JoinGroup(t) => t in s.group && s.group[t].pc == Forking(|job.groups[t]|) && s.group[t].inner == 0
    case GroupDone(t) => t in s.group && s.group[t].pc.Joined?
    case Return =>
      if s.main.Starting? then |job.groups| == 0 else
        && s.main.Spawning?
        && (forall t | t in s.group :: !s.group[t].pc.Unspawned?)
        && if |job.groups| >= 2 then s.outer == 0 else forall t | t in s.group :: s.group[t].pc.Finished?
  }

  /** What a group's own goroutines do to its program counters and its WaitGroup. */
  ghost function Advance(g: Group, step: Step): Group
    requires step.ForkEntity? ==> g.pc.Forking? && g.pc.next < |g.entity|
    requires step.Settle? || step.EntityDone? ==> step.k < |g.entity|
  {
    match step
    case SpawnGroup(_) => g.(pc := Entered)
    case AddInner(_) => g.(pc := Forking(0), inner := g.inner + |g.entity|)
    case ForkEntity(_) => g.(pc := Forking(g.pc.next + 1), entity := g.entity[g.pc.next := Running])
    case Settle(_, k) => g.(entity := g.entity[k := Settled])
    case EntityDone(_, k) => g.(inner := g.inner - 1, entity := g.entity[k := Ended])
    case JoinGroup(_) => g.(pc := Joined)
    case GroupDone(_) => g.(pc := Finished)
    case _ => g
  }

  ghost function Apply<T>(job: Job<T>, s: State<T>, step: Step): State<T>
    requires Shape(job, s) && Enabled(job, s, step)
  {
    match step
    case Begin => s.(main := Spawning, outer := s.outer + if |job.groups| >= 2 then |job.groups| else 0)
    case Return => s.(main := Returned)
    case GroupDone(t) =>
      s.(group := s.group[t := Advance(s.group[t], step)], outer := if |job.groups| >= 2 then s.outer - 1 else s.outer)
    case Settle(t, k) =>
      var settled := s.(group := s.group[t := Advance(s.group[t], step)]);
      (match ResolveEntity(job.svc, t, job.groups[t][k].entity)
       case Ok(entity) => settled.(list := s.list[job.groups[t][k].index := entity])
       case Err(e) => settled.(errors := s.errors + multiset{e}))
    case _ => s.(group := s.group[step.t := Advance(s.group[step.t], step)])
  }

  /** Apart from the main goroutine's own steps, a step moves one group. */
  lemma OneGroupMoves<T>(job: Job<T>, s: State<T>, step: Step)
    requires Shape(job, s) && Enabled(job, s, step) && !step.Begin? && !step.Return?
    ensures Apply(job, s, step).group == s.group[step.t := Advance(s.group[step.t], step)]
    ensures Apply(job, s, step).main == s.main
  {
  }

  ghost predicate Next<T>(job: Job<T>, s: State<T>, s': State<T>) {
    Shape(job, s) && exists step :: Enabled(job, s, step) && s' == Apply(job, s, step)
  }

  // ----- The invariant -----

  ghost function Pending(es: seq<EntityPc>): nat {
    if |es| == 0 then 0 else Pending(es[..|es| - 1]) + if es[|es| - 1].Ended? then 0 else 1
  }

  /** How far a group is, its WaitGroup counter, and its entity goroutines agree. */
  ghost predicate GroupOk(g: Group) {
    var es := g.entity;
    match g.pc
    case Unspawned => g.inner == 0 && forall k | 0 <= k < |es| :: es[k].Unforked?
    case Entered => g.inner == 0 && forall k | 0 <= k < |es| :: es[k].Unforked?
    case Forking(n) => n <= |es| && g.inner == Pending(es) && forall k | 0 <= k < |es| :: es[k].Unforked? <==> n <= k
    case Joined => g.inner == 0 && forall k | 0 <= k < |es| :: es[k].Ended?
    case Finished => g.inner == 0 && forall k | 0 <= k < |es| :: es[k].Ended?
  }

  ghost predicate GroupsOk<T>(s: State<T>) {
    && (forall t | t in s.group :: GroupOk(s.group[t]))
    && (s.main.Starting? ==> forall t | t in s.group :: s.group[t].pc.Unspawned?)
    && (s.main.Returned? ==> forall t | t in s.group :: s.group[t].pc.Finished?)
  }

  ghost function Unfinished<T>(s: State<T>): set<string> {
    set t | t in s.group && !s.group[t].pc.Finished?
  }

  /** The outer counter is the number of group goroutines that have not finished. */
  ghost predicate OuterOk<T>(job: Job<T>, s: State<T>) {
    s.outer == if |job.groups| >= 2 && !s.main.Starting? then |Unfinished(s)| else 0
  }

  ghost predicate IsSettled<T>(job: Job<T>, s: State<T>, i: nat)
    requires Shape(job, s) && Consistent(job) && i < |job.reps|
  {
    && job.home[i].Some?
    && var slot := job.home[i].value;
       s.group[slot.t].entity[slot.k].Settled? || s.group[slot.t].entity[slot.k].Ended?
  }

  ghost predicate ListOk<T>(job: Job<T>, s: State<T>)
    requires Shape(job, s) && Consistent(job)
  {
    forall i | 0 <= i < |s.list| :: s.list[i] == if IsSettled(job, s, i) then Cell(job, i) else Nothing
  }

  ghost function Recorded<T>(job: Job<T>, s: State<T>, i: nat): multiset<Error>
    requires Shape(job, s) && Consistent(job) && i < |job.reps|
  {
    if job.home[i].None? || IsSettled(job, s, i) then ErrorOf(job, i) else multiset{}
  }

  ghost function RecordedErrors<T>(job: Job<T>, s: State<T>): seq<multiset<Error>>
    requires Shape(job, s) && Consistent(job)
  {
    seq(|job.reps|, i requires 0 <= i < |job.reps| => Recorded(job, s, i))
  }

  ghost predicate Inv<T>(job: Job<T>, s: State<T>) {
    && Consistent(job)
    && Shape(job, s)
    && GroupsOk(s)
    && OuterOk(job, s)
    && ListOk(job, s)
    && s.errors == Union(RecordedErrors(job, s))
  }

  // ----- The invariant holds in every reachable state -----

  lemma {:induction false} PendingUpdate(es: seq<EntityPc>, k: nat, pc: EntityPc)
    requires k < |es|
    ensures Pending(es[k := pc]) ==
            Pending(es) + (if pc.Ended? then 0 else 1) - (if es[k].Ended? then 0 else 1)
  {
    var n := |es| - 1;
    if k == n {
      assert es[k := pc][..n] == es[..n];
    } else {
      PendingUpdate(es[..n], k, pc);
      assert es[k := pc][..n] == es[..n][k := pc];
    }
  }

  lemma PendingSnoc(es: seq<EntityPc>)
    requires |es| > 0
    ensures Pending(es) == Pending(es[..|es| - 1]) + if es[|es| - 1].Ended? then 0 else 1
    ensures forall k | 0 <= k < |es| - 1 :: es[..|es| - 1][k] == es[k]
  {
  }

  lemma {:induction false} PendingZero(es: seq<EntityPc>)
    ensures Pending(es) == 0 <==> forall k | 0 <= k < |es| :: es[k].Ended?
  {
    if |es| > 0 {
      PendingSnoc(es);
      PendingZero(es[..|es| - 1]);
    }
  }

  lemma {:induction false} PendingAll(es: seq<EntityPc>)
    requires forall k | 0 <= k < |es| :: es[k].Unforked?
    ensures Pending(es) == |es|
  {
    if |es| > 0 {
      PendingSnoc(es);
      PendingAll(es[..|es| - 1]);
    }
  }

  lemma PendingExtremes(es: seq<EntityPc>)
    ensures Pending(es) == 0 <==> forall k | 0 <= k < |es| :: es[k].Ended?
    ensures (forall k | 0 <= k < |es| :: es[k].Unforked?) ==> Pending(es) == |es|
  {
    PendingZero(es);
    if forall k | 0 <= k < |es| :: es[k].Unforked? {
      PendingAll(es);
    }
  }

  ghost function InitialErrors(reps: seq<Representation>): seq<multiset<Error>> {
    seq(|reps|, i requires 0 <= i < |reps| => if TypeName(reps[i]).None? then multiset{NoTypename} else multiset{})
  }

  lemma {:induction false} SkippedErrors(reps: seq<Representation>)
    ensures multiset(Skipped(reps)) == Union(InitialErrors(reps))
  {
    if |reps| > 0 {
      SkippedErrors(reps[..|reps| - 1]);
      assert InitialErrors(reps)[..|reps| - 1] == InitialErrors(reps[..|reps| - 1]);
    }
  }

  lemma InitErrors<T>(job: Job<T>, s: State<T>)
    requires Consistent(job) && Shape(job, s)
    requires forall t | t in s.group :: forall k | 0 <= k < |s.group[t].entity| :: s.group[t].entity[k].Unforked?
    ensures RecordedErrors(job, s) == InitialErrors(job.reps)
  {
  }

  lemma InitShape<T>(job: Job<T>)
    requires Consistent(job)
    ensures Shape(job, Init(job)) && GroupsOk(Init(job)) && OuterOk(job, Init(job)) && ListOk(job, Init(job))
  {
  }

  lemma InitInv<T>(job: Job<T>)
    requires Consistent(job)
    ensures Inv(job, Init(job))
  {
    InitShape(job);
    InitErrors(job, Init(job));
    SkippedErrors(job.reps);
  }

  /** Entity goroutine (t, k) is the only one that settles the cell it was given. */
  lemma SettlesOneCell<T>(job: Job<T>, s: State<T>, t: string, k: nat, s': State<T>)
    requires Consistent(job) && Shape(job, s) && Shape(job, s') && t in job.groups && k < |job.groups[t]|
    requires s'.group.Keys == s.group.Keys
    requires forall u | u in s.group && u != t :: s'.group[u] == s.group[u]
    requires forall l | 0 <= l < |s.group[t].entity| && l != k :: s'.group[t].entity[l] == s.group[t].entity[l]
    ensures forall j | 0 <= j < |job.reps| && j != job.groups[t][k].index ::
              IsSettled(job, s', j) == IsSettled(job, s, j)
  {
  }

  lemma GroupOkStep(g: Group, step: Step)
    requires GroupOk(g)
    requires match step
             case SpawnGroup(_) => g.pc.Unspawned?
             case AddInner(_) => g.pc.Entered?
             case ForkEntity(_) => g.pc.Forking? && g.pc.next < |g.entity|
             case Settle(_, k) => k < |g.entity| && g.entity[k].Running?
             case EntityDone(_, k) => k < |g.entity| && g.entity[k].Settled?
             case JoinGroup(_) => g.pc == Forking(|g.entity|) && g.inner == 0
             case GroupDone(_) => g.pc.Joined?
             case _ => false
    ensures GroupOk(Advance(g, step))
    ensures step.EntityDone? ==> g.inner > 0
    ensures step.JoinGroup? ==> forall k | 0 <= k < |g.entity| :: g.entity[k].Ended?
  {
    PendingExtremes(g.entity);
    match step
    case ForkEntity(_) => PendingUpdate(g.entity, g.pc.next, Running);
    case Settle(_, k) => PendingUpdate(g.entity, k, Settled);
    case EntityDone(_, k) => PendingUpdate(g.entity, k, Ended);
    case _ =>
  }

  lemma GroupsOkUpdate<T>(s: State<T>, s': State<T>, t: string, g: Group)
    requires GroupsOk(s) && t in s.group && s.main.Spawning? && GroupOk(g)
    requires s'.main == s.main && s'.group == s.group[t := g]
    ensures GroupsOk(s')
  {
  }

  lemma ShapeUpdate<T>(job: Job<T>, s: State<T>, s': State<T>, t: string, g: Group)
    requires Shape(job, s) && t in s.group && |g.entity| == |s.group[t].entity| && |s'.list| == |s.list|
    requires s'.group == s.group[t := g]
    ensures Shape(job, s')
  {
  }

  lemma GroupsOkStep<T>(job: Job<T>, s: State<T>, step: Step)
    requires Shape(job, s) && GroupsOk(s) && Enabled(job, s, step)
    requires !step.Begin? && !step.Return?
    ensures var s' := Apply(job, s, step); Shape(job, s') && GroupsOk(s')
  {
    var g := s.group[step.t];
    var s' := Apply(job, s, step);
    GroupOkStep(g, step);
    OneGroupMoves(job, s, step);
    GroupsOkUpdate(s, s', step.t, Advance(g, step));
    ShapeUpdate(job, s, s', step.t, Advance(g, step));
  }

  lemma MainOkStep<T>(job: Job<T>, s: State<T>, step: Step)
    requires Shape(job, s) && GroupsOk(s) && OuterOk(job, s) && Enabled(job, s, step)
    requires step.Begin? || step.Return?
    ensures var s' := Apply(job, s, step); Shape(job, s') && GroupsOk(s') && OuterOk(job, s')
  {
    var s' := Apply(job, s, step);
    assert Unfinished(s') == Unfinished(s);
    if step.Begin? {
      assert Unfinished(s) == job.groups.Keys;
    } else if |job.groups| >= 2 {
      assert Unfinished(s) == {};
      assert forall t | t in s.group :: t !in Unfinished(s);
    }
  }

  lemma UnfinishedUpdate<T>(s: State<T>, s': State<T>, t: string, g: Group)
    requires t in s.group && s'.group == s.group[t := g]
    ensures g.pc.Finished? ==> Unfinished(s') == Unfinished(s) - {t}
    ensures !g.pc.Finished? ==> Unfinished(s') == Unfinished(s) + {t}
  {
  }

  /** Only a group that has not finished moves, and only GroupDone finishes it. */
  lemma UnfinishedMoves<T>(job: Job<T>, s: State<T>, step: Step)
    requires Shape(job, s) && GroupsOk(s) && Enabled(job, s, step) && !step.Begin? && !step.Return?
    ensures s.main.Spawning? && step.t in s.group && !s.group[step.t].pc.Finished?
    ensures Advance(s.group[step.t], step).pc.Finished? <==> step.GroupDone?
  {
    assert GroupOk(s.group[step.t]);
  }

  lemma OuterOkStep<T>(job: Job<T>, s: State<T>, step: Step)
    requires Shape(job, s) && GroupsOk(s) && OuterOk(job, s) && Enabled(job, s, step)
    requires !step.Begin? && !step.Return?
    ensures OuterOk(job, Apply(job, s, step))
    ensures step.GroupDone? && |job.groups| >= 2 ==> s.outer > 0
  {
    var s' := Apply(job, s, step);
    var g := Advance(s.group[step.t], step);
    UnfinishedMoves(job, s, step);
    OneGroupMoves(job, s, step);
    UnfinishedUpdate(s, s', step.t, g);
    assert step.t in Unfinished(s);
    if step.GroupDone? {
      assert |Unfinished(s')| == |Unfinished(s)| - 1;
    } else {
      assert Unfinished(s') == Unfinished(s);
    }
  }

  lemma QuietEntityStep<T>(job: Job<T>, s: State<T>, step: Step, s': State<T>)
    requires Consistent(job) && Shape(job, s) && GroupsOk(s) && Enabled(job, s, step) && Shape(job, s')
    requires step.ForkEntity? || step.EntityDone?
    requires s'.group == s.group[step.t := Advance(s.group[step.t], step)]
    ensures forall j | 0 <= j < |job.reps| :: IsSettled(job, s', j) == IsSettled(job, s, j)
  {
    var g := s.group[step.t];
    assert GroupOk(g);
    SettlesOneCell(job, s, step.t, if step.ForkEntity? then g.pc.next else step.k, s');
  }

  lemma SameEntities<T>(job: Job<T>, s: State<T>, s': State<T>)
    requires Consistent(job) && Shape(job, s) && Shape(job, s')
    requires forall t | t in s.group :: s'.group[t].entity == s.group[t].entity
    ensures forall j | 0 <= j < |job.reps| :: IsSettled(job, s', j) == IsSettled(job, s, j)
  {
  }

  /** A step other than Settle leaves the list, the errors, and what is settled as they were. */
  lemma QuietStep<T>(job: Job<T>, s: State<T>, step: Step)
    requires Consistent(job) && Shape(job, s) && GroupsOk(s) && Enabled(job, s, step) && !step.Settle?
    requires Shape(job, Apply(job, s, step))
    ensures var s' := Apply(job, s, step);
            && s'.list == s.list && s'.errors == s.errors
            && forall j | 0 <= j < |job.reps| :: IsSettled(job, s', j) == IsSettled(job, s, j)
  {
    var s' := Apply(job, s, step);
    if step.ForkEntity? || step.EntityDone? {
      OneGroupMoves(job, s, step);
      QuietEntityStep(job, s, step, s');
    } else {
      SameEntities(job, s, s');
    }
  }

  lemma QuietStepKeeps<T>(job: Job<T>, s: State<T>, s': State<T>)
    requires Consistent(job) && Shape(job, s) && Shape(job, s') && ListOk(job, s)
    requires s'.list == s.list
    requires forall j | 0 <= j < |job.reps| :: IsSettled(job, s', j) == IsSettled(job, s, j)
    ensures ListOk(job, s') && RecordedErrors(job, s') == RecordedErrors(job, s)
  {
  }

  lemma SettleStep<T>(job: Job<T>, s: State<T>, t: string, k: nat)
    requires Consistent(job) && Shape(job, s) && ListOk(job, s) && Enabled(job, s, Settle(t, k))
    requires Shape(job, Apply(job, s, Settle(t, k)))
    ensures ListOk(job, Apply(job, s, Settle(t, k)))
  {
    var s' := Apply(job, s, Settle(t, k));
    SettlesOneCell(job, s, t, k, s');
  }

  lemma SettleRecords<T>(job: Job<T>, s: State<T>, t: string, k: nat, s': State<T>)
    requires Consistent(job) && Shape(job, s) && Shape(job, s') && t in job.groups && k < |job.groups[t]|
    requires s.group[t].entity[k].Running?
    requires s'.group == s.group[t := Advance(s.group[t], Settle(t, k))]
    ensures var i := job.groups[t][k].index;
            && RecordedErrors(job, s)[i] == multiset{}
            && RecordedErrors(job, s') == RecordedErrors(job, s)[i := ErrorOf(job, i)]
  {
    SettlesOneCell(job, s, t, k, s');
  }

  lemma SettleErrors<T>(job: Job<T>, s: State<T>, t: string, k: nat)
    requires Consistent(job) && Shape(job, s) && Enabled(job, s, Settle(t, k))
    requires Shape(job, Apply(job, s, Settle(t, k)))
    requires s.errors == Union(RecordedErrors(job, s))
    ensures var s' := Apply(job, s, Settle(t, k)); s'.errors == Union(RecordedErrors(job, s'))
  {
    var s' := Apply(job, s, Settle(t, k));
    var i := job.groups[t][k].index;
    var recorded := RecordedErrors(job, s);
    SettleRecords(job, s, t, k, s');
    UnionUpdate(recorded, i, ErrorOf(job, i));
    assert s'.errors == s.errors + ErrorOf(job, i);
  }

  lemma StepInv<T>(job: Job<T>, s: State<T>, step: Step)
    requires Inv(job, s) && Enabled(job, s, step)
    ensures Inv(job, Apply(job, s, step))
  {
    var s' := Apply(job, s, step);
    if step.Begin? || step.Return? {
      MainOkStep(job, s, step);
    } else {
      GroupsOkStep(job, s, step);
      OuterOkStep(job, s, step);
    }
    if step.Settle? {
      SettleStep(job, s, step.t, step.k);
      SettleErrors(job, s, step.t, step.k);
    } else {
      QuietStep(job, s, step);
      QuietStepKeeps(job, s, s');
    }
  }
}
