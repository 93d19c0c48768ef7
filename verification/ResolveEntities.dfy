/**
 `__resolve_entities` as it runs: the goroutines of one call mutate one shared list, one error log
 and the WaitGroup counters in place, and a scheduler picks any goroutine that can move.
 */
module ResolveEntities {
  import opened Wrappers
  import opened Entities
  import opened ForkJoin
  import Runs = ForkJoinRuns

  class Resolution<T> {
    const svc: Service<T>
    const reps: seq<Representation>
    const repsMap: map<string, seq<EntityWithIndex>>
    const list: array<Entity<T>>
    var errors: seq<Error>
    var main: MainPc
    var outer: int
    var group: map<string, Group>

    ghost const job: Job<T>

    /** The state of the step relation that the fields stand for. */
    ghost function View(): State<T>
      reads this, list
    {
      State(list[..], multiset(errors), main, outer, group)
    }

    ghost predicate Valid()
      reads this, list
    {
      job.svc == svc && job.reps == reps && job.groups == repsMap && Shape(job, View())
    }

    ghost predicate CanTake(step: Step)
      reads this, list
    {
      Valid() && Enabled(job, View(), step)
    }

    constructor (svc: Service<T>, reps: seq<Representation>,
                 repsMap: map<string, seq<EntityWithIndex>>, errors: seq<Error>, ghost job: Job<T>)
      requires Consistent(job) && job.svc == svc && job.reps == reps && job.groups == repsMap
      requires errors == Skipped(reps)
      ensures this.job == job && Valid() && View() == Init(job) && fresh(list)
    {
      this.svc, this.reps, this.repsMap, this.errors, this.job := svc, reps, repsMap, errors, job;
      this.main, this.outer := Starting, 0;
      this.group := map t | t in repsMap :: Group(Unspawned, 0, seq(|repsMap[t]|, _ => Unforked));
      this.list := new Entity<T>[|reps|](_ => Nothing);
      new;
      assert View().group == Init(job).group;
    }

    method Begin()
      requires CanTake(ForkJoin.Begin)
      modifies this
      ensures Valid() && View() == Apply(job, old(View()), ForkJoin.Begin)
    {
      if |repsMap| >= 2 {
        outer := outer + |repsMap|;
      }
      main := Spawning;
    }

    method MoveGroup(t: string, pc: GroupPc, ghost step: Step)
      requires step in {SpawnGroup(t), JoinGroup(t)} && CanTake(step) && pc == Advance(group[t], step).pc
      modifies this
      ensures Valid() && View() == Apply(job, old(View()), step)
    {
      group := group[t := group[t].(pc := pc)];
    }

    method AddInner(t: string)
      requires CanTake(ForkJoin.AddInner(t))
      modifies this
      ensures Valid() && View() == Apply(job, old(View()), ForkJoin.AddInner(t))
    {
      var g := group[t];
      group := group[t := g.(pc := Forking(0), inner := g.inner + |repsMap[t]|)];
    }

    method ForkEntity(t: string)
      requires CanTake(ForkJoin.ForkEntity(t))
      modifies this
      ensures Valid() && View() == Apply(job, old(View()), ForkJoin.ForkEntity(t))
    {
      var g := group[t];
      group := group[t := g.(pc := Forking(g.pc.next + 1), entity := g.entity[g.pc.next := Running])];
    }

    /** `ec.Error` or the write to the entity's own cell. */
    method Record(index: nat, r: Result<Entity<T>, Error>)
      requires index < list.Length
      modifies this`errors, list
      ensures r.Ok? ==> list[..] == old(list[..])[index := r.value] && errors == old(errors)
      ensures r.Err? ==> list[..] == old(list[..]) && multiset(errors) == old(multiset(errors)) + multiset{r.error}
    {
      match r {
        case Ok(entity) => list[index] := entity;
        case Err(err) => errors := errors + [err];
      }
    }

    /** The body of an entity goroutine up to e.Done: the only writes to the shared list. */
    method Settle(t: string, k: nat)
      requires CanTake(ForkJoin.Settle(t, k))
      modifies this, list
      ensures Valid() && View() == Apply(job, old(View()), ForkJoin.Settle(t, k))
    {
      ghost var after := Apply(job, View(), ForkJoin.Settle(t, k));
      var rep := repsMap[t][k];
      group := group[t := group[t].(entity := group[t].entity[k := Settled])];
      Record(rep.index, ResolveEntity(svc, t, rep.entity));
      assert View() == after;
    }

    method EntityDone(t: string, k: nat)
      requires CanTake(ForkJoin.EntityDone(t, k))
      modifies this
      ensures Valid() && View() == Apply(job, old(View()), ForkJoin.EntityDone(t, k))
    {
      var g := group[t];
      group := group[t := g.(inner := g.inner - 1, entity := g.entity[k := Ended])];
    }

    method GroupDone(t: string)
      requires CanTake(ForkJoin.GroupDone(t))
      modifies this
      ensures Valid() && View() == Apply(job, old(View()), ForkJoin.GroupDone(t))
    {
      group := group[t := group[t].(pc := Finished)];
      if |repsMap| >= 2 {
        outer := outer - 1;
      }
    }

    method Return()
      requires CanTake(ForkJoin.Return)
      modifies this
      ensures Valid() && View() == Apply(job, old(View()), ForkJoin.Return)
    {
      main := Returned;
    }

    /** Lets one goroutine of group t move: any of those that can. */
    method Schedule(t: string) returns (ghost step: Step)
      requires Valid() && main.Spawning? && t in group && !group[t].pc.Finished? && GroupOk(group[t])
      modifies this, list
      ensures old(CanTake(step)) && Valid() && View() == Apply(job, old(View()), step)
    {
      var g := group[t];
      PendingExtremes(g.entity);
      if {
        case g.pc.Unspawned? =>
          step := SpawnGroup(t);
          MoveGroup(t, Entered, step);
        case g.pc.Entered? =>
          step := ForkJoin.AddInner(t);
          AddInner(t);
        case g.pc.Forking? && g.pc.next < |repsMap[t]| =>
          step := ForkJoin.ForkEntity(t);
          ForkEntity(t);
        case exists k :: 0 <= k < |g.entity| && g.entity[k].Running? =>
          var k :| 0 <= k < |g.entity| && g.entity[k].Running?;
          step := ForkJoin.Settle(t, k);
          Settle(t, k);
        case exists k :: 0 <= k < |g.entity| && g.entity[k].Settled? =>
          var k :| 0 <= k < |g.entity| && g.entity[k].Settled?;
          step := ForkJoin.EntityDone(t, k);
          EntityDone(t, k);
        case g.pc == Forking(|repsMap[t]|) && g.inner == 0 =>
          step := JoinGroup(t);
          MoveGroup(t, Joined, step);
        case g.pc.Joined? =>
          step := ForkJoin.GroupDone(t);
          GroupDone(t);
      }
    }

    /** One turn of the scheduler: the main goroutine if it can move, else any group that can. */
    method Turn() returns (ghost step: Step)
      requires Valid() && GroupsOk(View()) && OuterOk(job, View()) && !main.Returned?
      modifies this, list
      ensures old(CanTake(step)) && Valid() && View() == Apply(job, old(View()), step)
    {
      if main.Starting? {
        if |repsMap| == 0 {
          step := ForkJoin.Return;
          Return();
        } else {
          step := ForkJoin.Begin;
          Begin();
        }
      } else if t :| t in group && !group[t].pc.Finished? {
        step := Schedule(t);
      } else {
        assert Unfinished(View()) == {};
        step := ForkJoin.Return;
        Return();
      }
    }
  }

  /** The whole call, under a scheduler that is free to choose at every turn. */
  method ResolveEntities<T>(svc: Service<T>, reps: seq<Representation>)
    returns (list: array<Entity<T>>, errors: seq<Error>)
    ensures fresh(list) && list[..] == Expected(MakeJob(svc, reps))
    ensures multiset(errors) == ExpectedErrors(MakeJob(svc, reps))
    ensures AllAnswered(svc, reps, list[..], multiset(errors))
  {
    var repsMap, skipped := BuildRepresentationGroups(reps);
    ghost var job := MakeJob(svc, reps);
    GroupingIsConsistent(svc, reps);
    var call := new Resolution(svc, reps, repsMap, skipped, job);
    ghost var s := call.View();
    InitInv(job);
    while !call.main.Returned?
      invariant call.job == job && fresh(call) && fresh(call.list)
      invariant call.Valid() && call.View() == s && Inv(job, s)
      decreases Runs.Measure(job, s)
    {
      ghost var step := call.Turn();
      StepInv(job, s, step);
      Runs.StepDecreases(job, s, step);
      s := call.View();
    }
    Runs.ReturnedMeansExpected(job, s);
    ExpectedAnswers(job);
    return call.list, call.errors;
  }
}
