/** Which request each row and each created event comes from, over whole runs. */
module AddressRequests {
  import opened Wrappers
  import opened AddressRows
  import opened AddressDb
  import opened AddressProtocol
  import opened AddressRuns

  /** A create request, and the row holds its input and its owner. */
  predicate AsksFor(request: Request, a: Address) {
    match request
    case CreateUser(input, userId) => Holds(a, input, Some(userId))
    case CreateVendor(input) => Holds(a, input, None)
    case Archive(_) => false
  }

  /** A create request, and the event tells of its input and its owner. */
  predicate IsTold(request: Request, e: Event) {
    match request
    case CreateUser(input, userId) => Tells(e, e.id, input, Some(userId))
    case CreateVendor(input) => Tells(e, e.id, input, None)
    case Archive(_) => false
  }

  /** The m-th action of the run is the commit of request r, which adds this row. */
  ghost predicate Commits(trace: seq<State>, m: nat, r: nat, a: Address) {
    && 0 < m < |trace|
    && r in trace[m - 1].tasks && trace[m - 1].tasks[r].pc == Inserted(a)
    && trace[m].tasks == trace[m - 1].tasks[r := Task(trace[m - 1].tasks[r].request, Committed(a))]
    && a.id !in trace[m - 1].db.rows && trace[m].db.rows == trace[m - 1].db.rows[a.id := a]
  }

  // ----- An open transaction has written what its request asks for -----

  ghost predicate WritesOwn(s: State) {
    forall r | r in s.tasks && s.tasks[r].pc.Inserted? :: AsksFor(s.tasks[r].request, s.tasks[r].pc.row)
  }

  lemma InsertedAsAsked(request: Request, id: Uuid, version: int)
    requires !request.Archive?
    ensures AsksFor(request, NewRow(request.input, Owner(request), id, version))
  {
    NewRowHolds(request.input, Owner(request), id, version);
  }

  lemma WritesOwnStep(s: State, step: Step)
    requires WritesOwn(s) && Enabled(s, step)
    ensures WritesOwn(Apply(s, step))
  {
    if step.Insert? {
      InsertedAsAsked(s.tasks[step.r].request, step.id, s.db.nextVersion);
    }
  }

  lemma WritesOwnNext(s: State, s': State)
    requires WritesOwn(s) && Next(s, s')
    ensures WritesOwn(s')
  {
    var step :| Enabled(s, step) && s' == Apply(s, step);
    WritesOwnStep(s, step);
  }

  lemma {:induction false} RunWritesOwn(trace: seq<State>, n: nat)
    requires Run(trace) && n < |trace|
    ensures WritesOwn(trace[n])
  {
    if n > 0 {
      RunWritesOwn(trace, n - 1);
      NextAt(trace, n);
      WritesOwnNext(trace[n - 1], trace[n]);
    }
  }

  // ----- Every row has its commit -----

  lemma OnlyCommitAdds(s: State, step: Step, id: Uuid)
    requires Enabled(s, step) && id !in s.db.rows && id in Apply(s, step).db.rows
    ensures step.Commit?
  {
  }

  lemma NewRowCommits(s: State, s': State, id: Uuid) returns (r: nat)
    requires Inv(s) && Next(s, s') && id !in s.db.rows && id in s'.db.rows
    ensures r in s.tasks && s.tasks[r].pc == Inserted(s'.db.rows[id]) && s'.db.rows[id].id == id
    ensures s'.tasks == s.tasks[r := Task(s.tasks[r].request, Committed(s'.db.rows[id]))]
    ensures s'.db.rows == s.db.rows[id := s'.db.rows[id]]
  {
    var step :| Enabled(s, step) && s' == Apply(s, step);
    OnlyCommitAdds(s, step, id);
    r := step.r;
  }

  lemma RowCommitted(trace: seq<State>, n: nat, id: Uuid) returns (r: nat)
    requires Run(trace) && 0 < n < |trace| && id !in trace[n - 1].db.rows && id in trace[n].db.rows
    ensures Commits(trace, n, r, trace[n].db.rows[id]) && r in trace[n].tasks
    ensures AsksFor(trace[n].tasks[r].request, trace[n].db.rows[id])
  {
    RunInv(trace, n - 1);
    RunWritesOwn(trace, n - 1);
    NextAt(trace, n);
    r := NewRowCommits(trace[n - 1], trace[n], id);
  }

  /**
   Every row ever in the table was added by the commit of one create request, and holds, field by
   field, the input of that request and the owner it asks for; archiving aside it still does.
   */
  lemma {:induction false} RowsAreAsRequested(trace: seq<State>, n: nat, id: Uuid) returns (m: nat, r: nat)
    requires Run(trace) && n < |trace| && id in trace[n].db.rows
    ensures m <= n && Commits(trace, m, r, trace[n].db.rows[id].(archivedAt := None)) && r in trace[m].tasks
    ensures AsksFor(trace[m].tasks[r].request, trace[n].db.rows[id].(archivedAt := None))
  {
    if n > 0 && id in trace[n - 1].db.rows {
      m, r := RowsAreAsRequested(trace, n - 1, id);
      RowsAreForever(trace, n - 1, n, id);
    } else {
      r := RowCommitted(trace, n, id);
      m := n;
    }
  }

  lemma ToldAsAsked(request: Request, a: Address, e: Event)
    requires AsksFor(request, Original(a)) && e == Created(a.id, PayloadOf(a))
    ensures IsTold(request, e)
  {
    match request
    case CreateUser(input, userId) => HeldIsTold(Original(a), input, Some(userId));
    case CreateVendor(input) => HeldIsTold(Original(a), input, None);
  }

  /** Every created event ever published tells, field by field, of the request that committed its row. */
  lemma EventsAreAsRequested(trace: seq<State>, n: nat, e: Event) returns (m: nat, r: nat)
    requires Run(trace) && n < |trace| && e in trace[n].log && e.Created?
    ensures e.id in trace[n].db.rows
    ensures m <= n && Commits(trace, m, r, trace[n].db.rows[e.id].(archivedAt := None)) && r in trace[m].tasks
    ensures IsTold(trace[m].tasks[r].request, e)
  {
    EventsAreSound(trace, n, e);
    RowsKnowTheirKeys(trace, n);
    m, r := RowsAreAsRequested(trace, n, e.id);
    ToldAsAsked(trace[m].tasks[r].request, trace[n].db.rows[e.id], e);
  }

  // ----- A request commits one row at most -----

  predicate Past(pc: Pc) {
    pc.Committed? || pc.Done? || pc.Unpublished?
  }

  lemma PastStep(s: State, step: Step, r: nat)
    requires Enabled(s, step) && r in s.tasks && Past(s.tasks[r].pc)
    ensures r in Apply(s, step).tasks && Past(Apply(s, step).tasks[r].pc)
  {
    if !step.Register? && !step.SequenceGap? && step.r == r {
      assert step.Publish? || step.PublishFails?;
    }
  }

  lemma PastStays(s: State, s': State, r: nat)
    requires Next(s, s') && r in s.tasks && Past(s.tasks[r].pc)
    ensures r in s'.tasks && Past(s'.tasks[r].pc)
  {
    var step :| Enabled(s, step) && s' == Apply(s, step);
    PastStep(s, step, r);
  }

  lemma {:induction false} PastOn(trace: seq<State>, m: nat, n: nat, r: nat)
    requires Run(trace) && m <= n < |trace| && r in trace[m].tasks && Past(trace[m].tasks[r].pc)
    ensures r in trace[n].tasks && Past(trace[n].tasks[r].pc)
    decreases n
  {
    if m < n {
      PastOn(trace, m, n - 1, r);
      NextAt(trace, n);
      PastStays(trace[n - 1], trace[n], r);
    }
  }

  /** Two rows never come from one request. */
  lemma OneRowEach(trace: seq<State>, m: nat, n: nat, r: nat, a: Address, b: Address)
    requires Run(trace) && Commits(trace, m, r, a) && Commits(trace, n, r, b)
    ensures m == n && a == b
  {
    if m < n {
      PastOn(trace, m, n - 1, r);
    } else if n < m {
      PastOn(trace, n, m - 1, r);
    }
  }
}
