/** What holds over whole runs of the address service, however its requests interleave. */
module AddressRuns {
  import opened Wrappers
  import opened AddressRows
  import opened AddressDb
  import opened AddressProtocol

  ghost predicate Follows(trace: seq<State>, n: nat) {
    0 < n < |trace| && Next(trace[n - 1], trace[n])
  }

  ghost predicate Run(trace: seq<State>) {
    && |trace| > 0
    && Initial(trace[0])
    && forall n: nat | 0 < n < |trace| :: Follows(trace, n)
  }

  /** A run goes on with any enabled step. */
  lemma RunExtends(trace: seq<State>, step: Step)
    requires Run(trace) && Enabled(trace[|trace| - 1], step)
    ensures Run(trace + [Apply(trace[|trace| - 1], step)])
  {
    var longer := trace + [Apply(trace[|trace| - 1], step)];
    forall n: nat | 0 < n < |longer| ensures Follows(longer, n) {
      if n < |trace| {
        assert Follows(trace, n);
      }
    }
  }

  lemma NextAt(trace: seq<State>, n: nat)
    requires Run(trace) && 0 < n < |trace|
    ensures Next(trace[n - 1], trace[n])
  {
    assert Follows(trace, n);
  }

  lemma NextInv(s: State, s': State)
    requires Inv(s) && Next(s, s')
    ensures Inv(s')
  {
    var step :| Enabled(s, step) && s' == Apply(s, step);
    StepInv(s, step);
  }

  lemma {:induction false} RunInv(trace: seq<State>, n: nat)
    requires Run(trace) && n < |trace|
    ensures Inv(trace[n])
  {
    if n > 0 {
      RunInv(trace, n - 1);
      NextAt(trace, n);
      NextInv(trace[n - 1], trace[n]);
    }
  }

  lemma RowsKnowTheirKeys(trace: seq<State>, n: nat)
    requires Run(trace) && n < |trace|
    ensures forall id | id in trace[n].db.rows :: trace[n].db.rows[id].id == id
  {
    RunInv(trace, n);
  }

  lemma NextGrows(s: State, s': State)
    requires Inv(s) && Next(s, s')
    ensures RowsGrow(s.db.rows, s'.db.rows)
  {
    var step :| Enabled(s, step) && s' == Apply(s, step);
    StepGrowsRows(s, step);
  }

  lemma GrowOn(a: map<Uuid, Address>, b: map<Uuid, Address>, c: map<Uuid, Address>)
    requires RowsGrow(a, b) && RowsGrow(b, c)
    ensures RowsGrow(a, c)
  {
  }

  lemma RunStepGrows(trace: seq<State>, n: nat)
    requires Run(trace) && 0 < n < |trace|
    ensures RowsGrow(trace[n - 1].db.rows, trace[n].db.rows)
  {
    RunInv(trace, n - 1);
    NextAt(trace, n);
    NextGrows(trace[n - 1], trace[n]);
  }

  lemma {:induction false} RunGrowsRows(trace: seq<State>, m: nat, n: nat)
    requires Run(trace) && m <= n < |trace|
    ensures RowsGrow(trace[m].db.rows, trace[n].db.rows)
    decreases n
  {
    if m < n {
      RunGrowsRows(trace, m, n - 1);
      RunStepGrows(trace, n);
      GrowOn(trace[m].db.rows, trace[n - 1].db.rows, trace[n].db.rows);
    }
  }

  /** What every reachable table satisfies. */
  lemma TableFacts(trace: seq<State>, n: nat, id: Uuid)
    requires Run(trace) && n < |trace| && id in trace[n].db.rows
    ensures var a := trace[n].db.rows[id];
            && a.id == id
            && (a.userId.Some? ==> a.userId.value in trace[n].db.users)
            && (a.IsVendor() ==> a.archivedAt.None?)
            && (a.firstName.Some? <==> a.lastName.Some?)
            && forall other | other in trace[n].db.rows && other != id :: trace[n].db.rows[other].version != a.version
  {
    RunInv(trace, n);
    var s := trace[n];
    assert InsertOk(Original(s.db.rows[id]), s.db);
    forall other | other in s.db.rows && other != id ensures s.db.rows[other].version != s.db.rows[id].version {
      var i :| 0 <= i < |s.inserts| && s.inserts[i] == Original(s.db.rows[id]);
      var j :| 0 <= j < |s.inserts| && s.inserts[j] == Original(s.db.rows[other]);
    }
  }

  /** Later tables hold every earlier row, unchanged but for archivedAt; archiving is for good. */
  lemma RowsAreForever(trace: seq<State>, m: nat, n: nat, id: Uuid)
    requires Run(trace) && m <= n < |trace| && id in trace[m].db.rows
    ensures id in trace[n].db.rows
    ensures trace[n].db.rows[id].(archivedAt := None) == trace[m].db.rows[id].(archivedAt := None)
    ensures trace[m].db.rows[id].archivedAt.Some? ==> trace[n].db.rows[id].archivedAt.Some?
  {
    RunGrowsRows(trace, m, n);
    assert Original(trace[n].db.rows[id]) == Original(trace[m].db.rows[id]);
  }

  /** Every event ever published is about a committed row, and says of it what is so. */
  lemma EventsAreSound(trace: seq<State>, n: nat, e: Event)
    requires Run(trace) && n < |trace| && e in trace[n].log
    ensures e.id in trace[n].db.rows
    ensures e.Created? ==> e.payload == PayloadOf(trace[n].db.rows[e.id])
    ensures e.Created? ==> Describes(e.payload, trace[n].db.rows[e.id])
    ensures e.Archived? ==> trace[n].db.rows[e.id].userId == Some(e.userId) && trace[n].db.rows[e.id].archivedAt.Some?
  {
    RunInv(trace, n);
    assert Sound(trace[n].db.rows, e);
    if e.Created? {
      TableFacts(trace, n, e.id);
      PayloadDescribes(e.payload, trace[n].db.rows[e.id]);
    }
  }

  // ----- Rebuilding the table from the log -----

  /** What a subscriber keeps; it learns from events in whatever order they reach it. */
  datatype Replica = Replica(created: map<Uuid, Payload>, archived: set<Uuid>)

  function Learn(replica: Replica, e: Event): Replica {
    match e
    case Created(id, payload) => replica.(created := replica.created[id := payload])
    case Archived(id, _) => replica.(archived := replica.archived + {id})
  }

  function Rebuild(log: seq<Event>): Replica {
    if log == [] then Replica(map[], {}) else Learn(Rebuild(log[..|log| - 1]), log[|log| - 1])
  }

  function ReplicaOf(rows: map<Uuid, Address>): Replica {
    Replica(map id | id in rows :: PayloadOf(rows[id]), set id | id in rows && rows[id].archivedAt.Some?)
  }

  /** The replica knows every row, every field of it that events carry, and which rows are archived; and no more. */
  ghost predicate Mirrors(replica: Replica, rows: map<Uuid, Address>) {
    && (forall id :: id in replica.created <==> id in rows)
    && (forall id | id in replica.created && id in rows :: Describes(replica.created[id], rows[id]))
    && (forall id :: id in replica.archived <==> id in rows && rows[id].archivedAt.Some?)
  }

  lemma MirrorsIs(replica: Replica, rows: map<Uuid, Address>)
    requires forall id | id in rows :: rows[id].firstName.Some? <==> rows[id].lastName.Some?
    ensures Mirrors(replica, rows) <==> replica == ReplicaOf(rows)
  {
    var meant := ReplicaOf(rows);
    forall p: Payload, id | id in rows ensures Describes(p, rows[id]) <==> p == meant.created[id] {
      PayloadDescribes(p, rows[id]);
    }
    if Mirrors(replica, rows) {
      assert replica.created == meant.created;
      assert replica.archived == meant.archived;
    }
  }

  lemma NamesAreWhole(s: State)
    requires Inv(s)
    ensures forall id | id in s.db.rows :: s.db.rows[id].firstName.Some? <==> s.db.rows[id].lastName.Some?
  {
    forall id | id in s.db.rows ensures s.db.rows[id].firstName.Some? <==> s.db.rows[id].lastName.Some? {
      assert InsertOk(Original(s.db.rows[id]), s.db);
    }
  }

  lemma {:induction false} RebuildKnows(log: seq<Event>, rows: map<Uuid, Address>)
    requires (forall id | id in rows :: rows[id].id == id) && forall e | e in log :: Sound(rows, e)
    ensures forall id :: id in Rebuild(log).created <==> id in rows && CreatedEvent(rows[id]) in log
    ensures forall id | id in Rebuild(log).created :: Rebuild(log).created[id] == PayloadOf(rows[id])
    ensures forall id :: id in Rebuild(log).archived <==>
                         id in rows && rows[id].userId.Some? && ArchivedEvent(rows[id]) in log
    decreases |log|
  {
    if log != [] {
      var before, last := log[..|log| - 1], log[|log| - 1];
      RebuildKnows(before, rows);
      assert log == before + [last];
      assert forall e :: e in log <==> e in before || e == last;
      assert Sound(rows, last);
    }
  }

  /** The order in which the events arrive makes no difference. */
  lemma RebuildIgnoresOrder(log: seq<Event>, log': seq<Event>, rows: map<Uuid, Address>)
    requires (forall id | id in rows :: rows[id].id == id) && forall e | e in log :: Sound(rows, e)
    requires multiset(log) == multiset(log')
    ensures Rebuild(log') == Rebuild(log)
  {
    forall e ensures e in log <==> e in log' {
      assert e in log <==> e in multiset(log);
      assert e in log' <==> e in multiset(log');
    }
    RebuildKnows(log, rows);
    RebuildKnows(log', rows);
  }

  /**
   The log rebuilds the table exactly when every event that some request owes has reached the
   broker; so it does once all requests are over and none of them failed to publish.
   */
  lemma LogRebuildsTable(trace: seq<State>, n: nat)
    requires Run(trace) && n < |trace|
    ensures var s := trace[n];
            Mirrors(Rebuild(s.log), s.db.rows) <==>
            forall r, e | r in s.tasks && Owes(s.tasks[r].pc, e) :: e in s.log
    ensures (forall r | r in trace[n].tasks :: trace[n].tasks[r].pc.Done? || trace[n].tasks[r].pc.Failed?) ==>
            Mirrors(Rebuild(trace[n].log), trace[n].db.rows)
  {
    RunInv(trace, n);
    NamesAreWhole(trace[n]);
    MirrorsIs(Rebuild(trace[n].log), trace[n].db.rows);
    LogRebuildsState(trace[n]);
  }

  lemma LogRebuildsState(s: State)
    requires Inv(s)
    ensures Rebuild(s.log) == ReplicaOf(s.db.rows) <==>
            forall r, e | r in s.tasks && Owes(s.tasks[r].pc, e) :: e in s.log
  {
    RebuildKnows(s.log, s.db.rows);
    if forall r, e | r in s.tasks && Owes(s.tasks[r].pc, e) :: e in s.log {
      NothingOwed(s);
    }
    if Rebuild(s.log) == ReplicaOf(s.db.rows) {
      forall r, e | r in s.tasks && Owes(s.tasks[r].pc, e) ensures e in s.log {
        OwedEventKnown(s, r, e);
      }
    }
  }

  lemma VendorsStayActive(s: State, id: Uuid)
    requires Inv(s) && id in s.db.rows && s.db.rows[id].archivedAt.Some?
    ensures s.db.rows[id].userId.Some?
  {
  }

  lemma NothingOwed(s: State)
    requires Inv(s)
    requires forall r, e | r in s.tasks && Owes(s.tasks[r].pc, e) :: e in s.log
    ensures Rebuild(s.log) == ReplicaOf(s.db.rows)
  {
    RebuildKnows(s.log, s.db.rows);
    forall id | id in s.db.rows
      ensures CreatedEvent(s.db.rows[id]) in s.log
      ensures s.db.rows[id].archivedAt.Some? ==> s.db.rows[id].userId.Some? && ArchivedEvent(s.db.rows[id]) in s.log
    {
      assert Accounted(s, CreatedEvent(s.db.rows[id]));
      if s.db.rows[id].archivedAt.Some? {
        VendorsStayActive(s, id);
        assert Accounted(s, ArchivedEvent(s.db.rows[id]));
      }
    }
    forall id | id in s.db.rows && s.db.rows[id].userId.Some? && ArchivedEvent(s.db.rows[id]) in s.log
      ensures s.db.rows[id].archivedAt.Some?
    {
      assert Sound(s.db.rows, ArchivedEvent(s.db.rows[id]));
    }
    assert Rebuild(s.log).created == ReplicaOf(s.db.rows).created;
    assert Rebuild(s.log).archived == ReplicaOf(s.db.rows).archived;
  }

  lemma OwedEventKnown(s: State, r: nat, e: Event)
    requires Inv(s) && r in s.tasks && Owes(s.tasks[r].pc, e) && Rebuild(s.log) == ReplicaOf(s.db.rows)
    ensures e in s.log
  {
    RebuildKnows(s.log, s.db.rows);
    assert TaskOk(s, s.tasks[r]);
    if !s.tasks[r].pc.Unpublished? {
      OwedIsSound(s, s.tasks[r].pc, s.tasks[r].request);
    }
    assert Sound(s.db.rows, e);
    if e.Created? {
      assert e.id in Rebuild(s.log).created;
    } else {
      assert e.id in Rebuild(s.log).archived;
    }
  }
}
