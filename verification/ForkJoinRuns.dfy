/** Whole runs of the fork/join: every schedule ends, and ends in the sequential result. */
module ForkJoinRuns {
  import opened Wrappers
  import opened Entities
  import opened Sums
  import opened ForkJoin

  // ----- Termination -----

  ghost function EntityWork(pc: EntityPc): nat {
    match pc case Unforked => 3 case Running => 2 case Settled => 1 case Ended => 0
  }

  ghost function GroupWork(pc: GroupPc): nat {
    match pc case Unspawned => 4 case Entered => 3 case Forking(_) => 2 case Joined => 1 case Finished => 0
  }

  /** Steps still to come on account of request entry i; a group's own steps count for its first entry. */
  ghost function Work<T>(job: Job<T>, s: State<T>, i: nat): nat
    requires Shape(job, s) && Consistent(job) && i < |job.reps|
  {
    match job.home[i]
    case None => 0
    case Some(slot) =>
      EntityWork(s.group[slot.t].entity[slot.k]) + if slot.k == 0 then GroupWork(s.group[slot.t].pc) else 0
  }

  ghost function Works<T>(job: Job<T>, s: State<T>): seq<nat>
    requires Shape(job, s) && Consistent(job)
  {
    seq(|job.reps|, i requires 0 <= i < |job.reps| => Work(job, s, i))
  }

  ghost function Measure<T>(job: Job<T>, s: State<T>): nat
    requires Shape(job, s) && Consistent(job)
  {
    Sum(Works(job, s)) +
    match s.main case Starting => (if |job.groups| == 0 then 1 else 2) case Spawning => 1 case Returned => 0
  }

  lemma OneWorkLess<T>(job: Job<T>, s: State<T>, s': State<T>, t: string, k: nat)
    requires Consistent(job) && Shape(job, s) && Shape(job, s') && t in job.groups && k < |job.groups[t]|
    requires forall u | u in s.group && u != t :: s'.group[u] == s.group[u]
    requires forall l | 0 <= l < |s.group[t].entity| && l != k :: s'.group[t].entity[l] == s.group[t].entity[l]
    requires k != 0 ==> GroupWork(s'.group[t].pc) == GroupWork(s.group[t].pc)
    requires var i := job.groups[t][k].index; Work(job, s', i) + 1 == Work(job, s, i)
    ensures Sum(Works(job, s')) + 1 == Sum(Works(job, s))
  {
    var i := job.groups[t][k].index;
    var works := Works(job, s);
    assert Works(job, s') == works[i := Work(job, s', i)];
    SumUpdate(works, i, Work(job, s', i));
  }

  lemma GroupStepDecreases<T>(job: Job<T>, s: State<T>, step: Step, s': State<T>)
    requires Consistent(job) && Shape(job, s) && Shape(job, s')
    requires step.SpawnGroup? || step.AddInner? || step.JoinGroup? || step.GroupDone?
    requires step.t in s.group && s'.group == s.group[step.t := Advance(s.group[step.t], step)]
    requires GroupWork(Advance(s.group[step.t], step).pc) + 1 == GroupWork(s.group[step.t].pc)
    ensures Sum(Works(job, s')) + 1 == Sum(Works(job, s))
  {
    OneWorkLess(job, s, s', step.t, 0);
  }

  lemma EntityStepDecreases<T>(job: Job<T>, s: State<T>, step: Step, k: nat, s': State<T>)
    requires Consistent(job) && Shape(job, s) && Shape(job, s')
    requires step.ForkEntity? || step.Settle? || step.EntityDone?
    requires step.t in s.group && k < |s.group[step.t].entity|
    requires match step case ForkEntity(t) => s.group[t].pc == Forking(k) case Settle(_, l) => k == l case EntityDone(_, l) => k == l
    requires s'.group == s.group[step.t := Advance(s.group[step.t], step)]
    requires EntityWork(s'.group[step.t].entity[k]) + 1 == EntityWork(s.group[step.t].entity[k])
    ensures Sum(Works(job, s')) + 1 == Sum(Works(job, s))
  {
    OneWorkLess(job, s, s', step.t, k);
  }

  lemma MainStepDecreases<T>(job: Job<T>, s: State<T>, step: Step)
    requires Consistent(job) && Shape(job, s) && Enabled(job, s, step) && (step.Begin? || step.Return?)
    requires Shape(job, Apply(job, s, step))
    ensures Measure(job, Apply(job, s, step)) + 1 == Measure(job, s)
  {
    assert Works(job, Apply(job, s, step)) == Works(job, s);
  }

  lemma ForkDecreases<T>(job: Job<T>, s: State<T>, t: string, s': State<T>)
    requires Consistent(job) && Shape(job, s) && GroupsOk(s) && Enabled(job, s, ForkEntity(t)) && Shape(job, s')
    requires s'.group == s.group[t := Advance(s.group[t], ForkEntity(t))]
    ensures Sum(Works(job, s')) + 1 == Sum(Works(job, s))
  {
    assert GroupOk(s.group[t]);
    EntityStepDecreases(job, s, ForkEntity(t), s.group[t].pc.next, s');
  }

  lemma WorkerStepDecreases<T>(job: Job<T>, s: State<T>, step: Step, s': State<T>)
    requires Consistent(job) && Shape(job, s) && GroupsOk(s) && Enabled(job, s, step) && Shape(job, s')
    requires !step.Begin? && !step.Return?
    requires s'.group == s.group[step.t := Advance(s.group[step.t], step)]
    ensures Sum(Works(job, s')) + 1 == Sum(Works(job, s))
  {
    if step.ForkEntity? {
      ForkDecreases(job, s, step.t, s');
    } else if step.Settle? || step.EntityDone? {
      EntityStepDecreases(job, s, step, step.k, s');
    } else {
      GroupStepDecreases(job, s, step, s');
    }
  }

  /** Every step, whatever the schedule, uses up exactly one unit of work. */
  lemma StepDecreases<T>(job: Job<T>, s: State<T>, step: Step)
    requires Consistent(job) && Shape(job, s) && GroupsOk(s)
    requires Enabled(job, s, step) && Shape(job, Apply(job, s, step))
    ensures Measure(job, Apply(job, s, step)) + 1 == Measure(job, s)
  {
    if step.Begin? || step.Return? {
      MainStepDecreases(job, s, step);
    } else {
      OneGroupMoves(job, s, step);
      WorkerStepDecreases(job, s, step, Apply(job, s, step));
    }
  }

  // ----- No deadlock -----

  lemma GroupProgress<T>(job: Job<T>, s: State<T>, t: string) returns (step: Step)
    requires Inv(job, s) && s.main.Spawning? && t in s.group && !s.group[t].pc.Finished?
    ensures Enabled(job, s, step)
  {
    var g := s.group[t];
    match g.pc
    case Unspawned => step := SpawnGroup(t);
    case Entered => step := AddInner(t);
    case Joined => step := GroupDone(t);
    case Forking(n) =>
      if n < |g.entity| {
        step := ForkEntity(t);
      } else if k :| 0 <= k < |g.entity| && !g.entity[k].Ended? {
        assert GroupOk(g);
        step := if g.entity[k].Running? then Settle(t, k) else EntityDone(t, k);
      } else {
        PendingExtremes(g.entity);
        assert GroupOk(g);
        step := JoinGroup(t);
      }
  }

  /** Until the call has returned, some goroutine can take a step. */
  lemma Progress<T>(job: Job<T>, s: State<T>) returns (step: Step)
    requires Inv(job, s) && !s.main.Returned?
    ensures Enabled(job, s, step)
  {
    if s.main.Starting? {
      step := if |job.groups| == 0 then Return else Begin;
    } else if t :| t in s.group && !s.group[t].pc.Finished? {
      step := GroupProgress(job, s, t);
    } else {
      assert Unfinished(s) == {};
      step := Return;
    }
  }

  // ----- Whole runs -----

  ghost predicate Follows<T>(job: Job<T>, trace: seq<State<T>>, n: nat) {
    0 < n < |trace| && Next(job, trace[n - 1], trace[n])
  }

  ghost predicate Run<T>(job: Job<T>, trace: seq<State<T>>) {
    && |trace| > 0
    && trace[0] == Init(job)
    && forall n: nat | 0 < n < |trace| :: Follows(job, trace, n)
  }

  lemma NextInv<T>(job: Job<T>, s: State<T>, s': State<T>)
    requires Inv(job, s) && Next(job, s, s')
    ensures Inv(job, s') && Measure(job, s') + 1 == Measure(job, s)
  {
    var step :| Enabled(job, s, step) && s' == Apply(job, s, step);
    StepInv(job, s, step);
    StepDecreases(job, s, step);
  }

  lemma RunStep<T>(job: Job<T>, trace: seq<State<T>>, n: nat)
    requires Run(job, trace) && 0 < n < |trace| && Inv(job, trace[n - 1])
    ensures Inv(job, trace[n]) && Measure(job, trace[n]) + 1 == Measure(job, trace[n - 1])
  {
    assert Follows(job, trace, n);
    NextInv(job, trace[n - 1], trace[n]);
  }

  lemma {:induction false} RunInv<T>(job: Job<T>, trace: seq<State<T>>, n: nat)
    requires Consistent(job) && Run(job, trace) && n < |trace|
    ensures Inv(job, trace[n]) && Inv(job, trace[0]) && Measure(job, trace[n]) + n == Measure(job, trace[0])
    decreases n
  {
    if n == 0 {
      InitInv(job);
    } else {
      RunInv(job, trace, n - 1);
      RunStep(job, trace, n);
    }
  }

  lemma FinishedMeansSettled<T>(job: Job<T>, s: State<T>, i: nat)
    requires Consistent(job) && Shape(job, s) && GroupsOk(s) && i < |job.reps| && job.home[i].Some?
    requires s.group[job.home[i].value.t].pc.Joined? || s.group[job.home[i].value.t].pc.Finished?
    ensures IsSettled(job, s, i)
  {
    assert GroupOk(s.group[job.home[i].value.t]);
  }

  lemma ReturnedErrors<T>(job: Job<T>, s: State<T>)
    requires Consistent(job) && Shape(job, s)
    requires forall i | 0 <= i < |job.reps| && job.home[i].Some? :: IsSettled(job, s, i)
    ensures Union(RecordedErrors(job, s)) == ExpectedErrors(job)
  {
    assert RecordedErrors(job, s) == ErrorsOf(job);
  }

  /** When every goroutine has finished, the invariant is the sequential specification. */
  lemma ReturnedMeansExpected<T>(job: Job<T>, s: State<T>)
    requires Inv(job, s) && s.main.Returned?
    ensures s.list == Expected(job) && s.errors == ExpectedErrors(job)
  {
    forall i | 0 <= i < |job.reps| && job.home[i].Some? ensures IsSettled(job, s, i) {
      FinishedMeansSettled(job, s, i);
    }
    ReturnedErrors(job, s);
  }

  /**
   Refinement: under every schedule the call that has returned holds exactly what resolving the
   representations one after the other gives, in the branches for no, one and many groups alike,
   and has recorded exactly those errors.
   */
  lemma EverySchedule<T>(svc: Service<T>, reps: seq<Representation>, trace: seq<State<T>>)
    requires Run(MakeJob(svc, reps), trace) && trace[|trace| - 1].main.Returned?
    ensures var last := trace[|trace| - 1];
            last.list == Expected(MakeJob(svc, reps)) && last.errors == ExpectedErrors(MakeJob(svc, reps))
    ensures var last := trace[|trace| - 1];
            AllAnswered(svc, reps, last.list, last.errors)
  {
    var job := MakeJob(svc, reps);
    GroupingIsConsistent(svc, reps);
    RunInv(job, trace, |trace| - 1);
    ReturnedMeansExpected(job, trace[|trace| - 1]);
    ExpectedAnswers(job);
  }

  lemma ReturnedHasNoWork<T>(job: Job<T>, s: State<T>)
    requires Inv(job, s) && s.main.Returned?
    ensures Measure(job, s) == 0
  {
    forall i | 0 <= i < |job.reps| ensures Works(job, s)[i] == 0 {
      if job.home[i].Some? {
        assert GroupOk(s.group[job.home[i].value.t]);
      }
    }
    SumZero(Works(job, s));
  }

  /** No schedule deadlocks, and all schedules end, after the same number of steps. */
  lemma EveryScheduleEnds<T>(job: Job<T>, trace: seq<State<T>>)
    requires Consistent(job) && Run(job, trace)
    ensures var last := trace[|trace| - 1];
            && Inv(job, last) && Inv(job, Init(job))
            && |trace| - 1 + Measure(job, last) == Measure(job, Init(job))
            && (last.main.Returned? ==> Measure(job, last) == 0)
            && (!last.main.Returned? ==> exists step :: Enabled(job, last, step))
  {
    var last := trace[|trace| - 1];
    RunInv(job, trace, |trace| - 1);
    InitInv(job);
    if last.main.Returned? {
      ReturnedHasNoWork(job, last);
    } else {
      var step := Progress(job, last);
    }
  }

  lemma JoinedGroupIsSettled<T>(job: Job<T>, s: State<T>, t: string)
    requires Inv(job, s) && Enabled(job, s, JoinGroup(t))
    ensures forall i | 0 <= i < |job.reps| && TypeName(job.reps[i]) == Some(t) :: s.list[i] == Cell(job, i)
  {
    GroupOkStep(s.group[t], JoinGroup(t));
  }

  /**
   WaitGroup safety: a counter is the number of goroutines of its level that have not called Done,
   Done never finds it at zero, and Wait returns only when every cell of that level is settled.
   */
  lemma JoinIsSafe<T>(job: Job<T>, s: State<T>, step: Step)
    requires Inv(job, s) && Enabled(job, s, step)
    ensures s.outer >= 0 && forall t | t in s.group :: s.group[t].inner >= 0
    ensures step.EntityDone? ==> s.group[step.t].inner > 0
    ensures step.GroupDone? && |job.groups| >= 2 ==> s.outer > 0
    ensures step.JoinGroup? ==>
              forall i | 0 <= i < |job.reps| && TypeName(job.reps[i]) == Some(step.t) :: s.list[i] == Cell(job, i)
    ensures step.Return? ==> s.list == Expected(job)
  {
    forall t | t in s.group ensures s.group[t].inner >= 0 { assert GroupOk(s.group[t]); }
    if step.Return? {
      StepInv(job, s, step);
      ReturnedMeansExpected(job, Apply(job, s, step));
    } else if !step.Begin? {
      GroupOkStep(s.group[step.t], step);
      OuterOkStep(job, s, step);
      if step.JoinGroup? {
        JoinedGroupIsSettled(job, s, step.t);
      }
    }
  }

  /** The first n entries, as far as they resolve. */
  ghost function Resolving<T>(job: Job<T>, n: nat): set<nat>
    requires n <= |job.reps|
  {
    set i: nat | i < n && Outcome(job, i).Ok?
  }

  lemma ResolvingGrows<T>(job: Job<T>, n: nat)
    requires n < |job.reps|
    ensures |Resolving(job, n + 1)| == |Resolving(job, n)| + if Outcome(job, n).Ok? then 1 else 0
  {
    assert Resolving(job, n + 1) == Resolving(job, n) + if Outcome(job, n).Ok? then {n} else {};
  }

  /** Each entry has exactly one outcome: errors recorded and cells settled add up to the request. */
  lemma OneOutcomeEach<T>(job: Job<T>)
    ensures |ExpectedErrors(job)| + |Resolving(job, |job.reps|)| == |job.reps|
  {
    var n := |job.reps|;
    var counts := seq(n, i requires 0 <= i < n => if Outcome(job, i).Ok? then 0 else 1);
    UnionSize(ErrorsOf(job), counts);
    CountOks(job, n, counts);
    assert counts[..n] == counts;
  }

  lemma {:induction false} CountOks<T>(job: Job<T>, n: nat, counts: seq<nat>)
    requires n <= |job.reps| == |counts|
    requires forall i | 0 <= i < |counts| :: counts[i] == if Outcome(job, i).Ok? then 0 else 1
    ensures Sum(counts[..n]) + |Resolving(job, n)| == n
  {
    if n > 0 {
      CountOks(job, n - 1, counts);
      ResolvingGrows(job, n - 1);
      assert counts[..n][..n - 1] == counts[..n - 1];
    }
  }
}
