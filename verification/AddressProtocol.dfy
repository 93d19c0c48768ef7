/**
 The mutations of the address service as a protocol of atomic actions. Any number of requests are
 under way at once; a step is one statement, commit, authorization check or publish of one request,
 and any of them may fail where the code handles a failure.
 */
module AddressProtocol {
  import opened Wrappers
  import opened AddressRows
  import opened AddressDb

  datatype Request = CreateUser(input: Input, userId: Uuid) | CreateVendor(input: Input) | Archive(id: Uuid)

  /** Where a request stands between two of its actions. */
  datatype Pc =
    | Start
    | Authorized
    | UserChecked
    | Inserted(row: Address)       // INSERT done, its transaction still open
    | Committed(row: Address)      // about to publish the created event
    | Loaded(row: Address)
    | MayArchive(row: Address)
    | Updated(row: Address)        // about to publish the archived event
    | Done
    | Failed                       // an error before anything was written
    | Unpublished(event: Event)    // written, but publishing reported an error

  datatype Task = Task(request: Request, pc: Pc)

  /**
   inserts and lastVendor are history: every row any INSERT has produced, in the order the version
   sequence was drawn, and the vendor row committed last.
   */
  datatype State = State(
    db: Db,
    tasks: map<nat, Task>,
    log: seq<Event>,
    inserts: seq<Address>,
    lastVendor: Option<Uuid>)

  datatype Step =
    | Register(user: Uuid)
    | SequenceGap
    | Arrive(r: nat, request: Request)
    | Authorize(r: nat, allowed: bool)
    | CheckUser(r: nat)
    | Load(r: nat)
    | Insert(r: nat, id: Uuid)
    | Commit(r: nat)
    | Update(r: nat, time: int)
    | Fail(r: nat)                             // a database error before the write is committed
    | Publish(r: nat)
    | PublishFails(r: nat, delivered: bool)    // reported as failed; the broker may have it all the same

  predicate CanPublish(pc: Pc) {
    pc.Committed? || (pc.Updated? && pc.row.userId.Some?)
  }

  predicate Enabled(s: State, step: Step) {
    match step
    case Register(user) => user !in s.db.users
    case SequenceGap => true
    case Arrive(r, _) => r !in s.tasks
    case _ =>
      step.r in s.tasks &&
      var task := s.tasks[step.r];
      match step
      case Authorize(_, _) => if task.request.Archive? then task.pc.Loaded? else task.pc.Start?
      case CheckUser(_) => task.request.CreateUser? && task.pc.Authorized?
      case Load(_) => task.request.Archive? && task.pc.Start?
      case Insert(_, id) =>
        && (if task.request.CreateUser? then task.pc.UserChecked? else task.request.CreateVendor? && task.pc.Authorized?)
        && forall a | a in s.inserts :: a.id != id
      case Commit(_) => task.pc.Inserted?
      case Update(_, _) => task.pc.MayArchive?
      case Fail(_) => !(task.pc.Committed? || task.pc.Updated? || task.pc.Done? || task.pc.Unpublished?)
      case Publish(_) => CanPublish(task.pc)
      case PublishFails(_, _) => CanPublish(task.pc)
      case _ => false
  }

  /** The event a request is about to publish. */
  function EventOf(pc: Pc): Event
    requires CanPublish(pc)
  {
    if pc.Committed? then CreatedEvent(pc.row) else ArchivedEvent(pc.row)
  }

  function Goto(s: State, r: nat, pc: Pc): State
    requires r in s.tasks
  {
    s.(tasks := s.tasks[r := s.tasks[r].(pc := pc)])
  }

  function Owner(request: Request): Option<Uuid> {
    if request.CreateUser? then Some(request.userId) else None
  }

  function Apply(s: State, step: Step): State
    requires Enabled(s, step)
  {
    match step
    case Register(user) => s.(db := s.db.(users := s.db.users + {user}))
    case SequenceGap => s.(db := s.db.(nextVersion := s.db.nextVersion + 1))
    case Arrive(r, request) => s.(tasks := s.tasks[r := Task(request, Start)])
    case Authorize(r, allowed) =>
      var task := s.tasks[r];
      Goto(s, r, if !allowed then Failed
                 else if !task.request.Archive? then Authorized
                 else if task.pc.row.IsVendor() then Failed
                 else MayArchive(task.pc.row))
    case CheckUser(r) => Goto(s, r, if s.tasks[r].request.userId in s.db.users then UserChecked else Failed)
    case Load(r) =>
      var id := s.tasks[r].request.id;
      Goto(s, r, if id in s.db.rows then Loaded(s.db.rows[id]) else Failed)
    case Insert(r, id) =>
      var request := s.tasks[r].request;
      var row := NewRow(request.input, Owner(request), id, s.db.nextVersion);
      Goto(s.(db := s.db.(nextVersion := s.db.nextVersion + 1), inserts := s.inserts + [row]), r, Inserted(row))
    case Commit(r) =>
      var row := s.tasks[r].pc.row;
      Goto(s.(db := s.db.(rows := s.db.rows[row.id := row]),
              lastVendor := if row.IsVendor() then Some(row.id) else s.lastVendor), r, Committed(row))
    case Update(r, time) =>
      var row := s.tasks[r].pc.row;
      Goto(s.(db := SetArchived(s.db, row.id, time)), r, Updated(row))
    case Fail(r) => Goto(s, r, Failed)
    case Publish(r) => Goto(s.(log := s.log + [EventOf(s.tasks[r].pc)]), r, Done)
    case PublishFails(r, delivered) =>
      var event := EventOf(s.tasks[r].pc);
      Goto(if delivered then s.(log := s.log + [event]) else s, r, Unpublished(event))
  }

  predicate Initial(s: State) {
    s.db.users == {} && s.db.rows == map[] && s.tasks == map[] && s.log == [] && s.inserts == [] && s.lastVendor == None
  }

  ghost predicate Next(s: State, s': State) {
    exists step :: Enabled(s, step) && s' == Apply(s, step)
  }

  // ----- The invariant -----

  predicate InsertOk(a: Address, db: Db) {
    && (a.userId.Some? ==> a.userId.value in db.users)
    && a.archivedAt.None?
    && a.firstName.Some? == a.lastName.Some?
    && a.version < db.nextVersion
  }

  /** Versions increase and identifiers never repeat along the history of inserts. */
  predicate InsertsOk(s: State) {
    && (forall a | a in s.inserts :: InsertOk(a, s.db))
    && forall i, j | 0 <= i < j < |s.inserts| ::
         s.inserts[i].version < s.inserts[j].version && s.inserts[i].id != s.inserts[j].id
  }

  /** A table row is the row some INSERT wrote, but for its archivedAt, which a vendor row never has. */
  predicate RowsOk(s: State) {
    forall id | id in s.db.rows ::
      var a := s.db.rows[id];
      a.id == id && Original(a) in s.inserts && (a.IsVendor() ==> a.archivedAt.None?)
  }

  predicate TaskOk(s: State, task: Task) {
    match task.pc
    case UserChecked => task.request.CreateUser? && task.request.userId in s.db.users
    case Inserted(a) => a in s.inserts && a.id !in s.db.rows
    case Committed(a) => a in s.inserts && a.id in s.db.rows && Original(s.db.rows[a.id]) == a
    case Loaded(a) => a.id in s.db.rows && Original(s.db.rows[a.id]) == Original(a)
    case MayArchive(a) => a.userId.Some? && a.id in s.db.rows && Original(s.db.rows[a.id]) == Original(a)
    case Updated(a) =>
      a.userId.Some? && a.id in s.db.rows && Original(s.db.rows[a.id]) == Original(a) && s.db.rows[a.id].archivedAt.Some?
    case Unpublished(e) => Sound(s.db.rows, e)
    case _ => true
  }

  predicate TasksOk(s: State) {
    && (forall r | r in s.tasks :: TaskOk(s, s.tasks[r]))
    && forall r, q | r in s.tasks && q in s.tasks && r != q && s.tasks[r].pc.Inserted? && s.tasks[q].pc.Inserted? ::
         s.tasks[r].pc.row.id != s.tasks[q].pc.row.id
  }

  /** An event tells the truth about a row of the table. */
  predicate Sound(rows: map<Uuid, Address>, e: Event) {
    && e.id in rows
    && match e
       case Created(_, payload) => payload == PayloadOf(rows[e.id])
       case Archived(_, userId) => rows[e.id].userId == Some(userId) && rows[e.id].archivedAt.Some?
  }

  predicate LogOk(s: State) {
    forall e | e in s.log :: Sound(s.db.rows, e)
  }

  /** A request that has written still owes the event, or failed to publish it. */
  predicate Owes(pc: Pc, e: Event) {
    match pc
    case Committed(a) => e == CreatedEvent(a)
    case Updated(a) => a.userId.Some? && e == ArchivedEvent(a)
    case Unpublished(owed) => e == owed
    case _ => false
  }

  predicate Accounted(s: State, e: Event) {
    e in s.log || exists r :: r in s.tasks && Owes(s.tasks[r].pc, e)
  }

  /** Every row and every archiving is announced, or some request still owes the announcement. */
  predicate AllAccounted(s: State) {
    forall id | id in s.db.rows ::
      var a := s.db.rows[id];
      Accounted(s, CreatedEvent(a)) && (a.archivedAt.Some? && a.userId.Some? ==> Accounted(s, ArchivedEvent(a)))
  }

  predicate Inv(s: State) {
    InsertsOk(s) && RowsOk(s) && TasksOk(s) && LogOk(s) && AllAccounted(s)
  }

  // ----- Every step keeps it -----

  /** Nothing is deleted, only archivedAt changes, and an archived row stays archived. */
  predicate RowsGrow(rows: map<Uuid, Address>, rows': map<Uuid, Address>) {
    forall id | id in rows ::
      && id in rows'
      && Original(rows'[id]) == Original(rows[id])
      && (rows[id].archivedAt.Some? ==> rows'[id].archivedAt.Some?)
  }

  lemma StepGrowsRows(s: State, step: Step)
    requires RowsOk(s) && TasksOk(s) && Enabled(s, step)
    ensures RowsGrow(s.db.rows, Apply(s, step).db.rows)
  {
    if step.Commit? {
      assert TaskOk(s, s.tasks[step.r]);
    }
  }

  lemma SoundnessGrows(rows: map<Uuid, Address>, rows': map<Uuid, Address>, e: Event)
    requires RowsGrow(rows, rows') && Sound(rows, e)
    ensures Sound(rows', e)
  {
    assert Original(rows'[e.id]) == Original(rows[e.id]);
  }

  lemma InsertsStep(s: State, step: Step)
    requires InsertsOk(s) && TasksOk(s) && Enabled(s, step)
    ensures InsertsOk(Apply(s, step))
    ensures forall a | a in s.inserts :: a in Apply(s, step).inserts
  {
    var s' := Apply(s, step);
    if step.Insert? {
      var row := s'.inserts[|s.inserts|];
      assert TaskOk(s, s.tasks[step.r]);
      assert s'.inserts == s.inserts + [row];
      forall i | 0 <= i < |s.inserts| ensures s.inserts[i].version < row.version && s.inserts[i].id != row.id {
        assert s.inserts[i] in s.inserts;
      }
    } else {
      assert s'.inserts == s.inserts;
      forall a | a in s.inserts ensures InsertOk(a, s'.db) {
        assert InsertOk(a, s.db);
      }
    }
  }

  lemma RowsStep(s: State, step: Step)
    requires InsertsOk(s) && RowsOk(s) && TasksOk(s) && Enabled(s, step)
    requires forall a | a in s.inserts :: a in Apply(s, step).inserts
    ensures RowsOk(Apply(s, step))
  {
    if step.Commit? || step.Update? {
      assert TaskOk(s, s.tasks[step.r]);
    }
    if step.Commit? {
      assert InsertOk(s.tasks[step.r].pc.row, s.db);
    }
  }

  lemma TaskStable(s: State, s': State, task: Task)
    requires RowsGrow(s.db.rows, s'.db.rows) && s.db.users <= s'.db.users && TaskOk(s, task)
    requires forall a | a in s.inserts :: a in s'.inserts
    requires task.pc.Inserted? ==> task.pc.row.id !in s'.db.rows
    ensures TaskOk(s', task)
  {
    match task.pc
    case Unpublished(e) => SoundnessGrows(s.db.rows, s'.db.rows, e);
    case _ =>
  }

  /** The request that moved is again where it may be. */
  lemma MovedTaskOk(s: State, step: Step)
    requires InsertsOk(s) && RowsOk(s) && TasksOk(s) && Enabled(s, step)
    requires !step.Register? && !step.SequenceGap? && !step.Arrive?
    ensures TaskOk(Apply(s, step), Apply(s, step).tasks[step.r])
  {
    var s' := Apply(s, step);
    assert TaskOk(s, s.tasks[step.r]);
    match step
    case Insert(r, id) =>
      assert s'.tasks[r].pc.row == s'.inserts[|s.inserts|];
    case Commit(r) =>
      assert InsertOk(s.tasks[r].pc.row, s.db);
    case _ =>
  }

  lemma OtherTaskOk(s: State, step: Step, q: nat)
    requires InsertsOk(s) && RowsOk(s) && TasksOk(s) && Enabled(s, step) && q in s.tasks
    requires step.Register? || step.SequenceGap? || q != step.r
    requires forall a | a in s.inserts :: a in Apply(s, step).inserts
    ensures TaskOk(Apply(s, step), s.tasks[q])
  {
    StepGrowsRows(s, step);
    assert TaskOk(s, s.tasks[q]);
    if step.Update? {
      assert TaskOk(s, s.tasks[step.r]);
    }
    TaskStable(s, Apply(s, step), s.tasks[q]);
  }

  lemma InsertedStayApart(s: State, step: Step, r: nat, q: nat)
    requires InsertsOk(s) && TasksOk(s) && Enabled(s, step)
    requires var tasks := Apply(s, step).tasks;
             r in tasks && q in tasks && r != q && tasks[r].pc.Inserted? && tasks[q].pc.Inserted?
    ensures Apply(s, step).tasks[r].pc.row.id != Apply(s, step).tasks[q].pc.row.id
  {
    if step.Insert? {
      var other := if r == step.r then q else r;
      assert TaskOk(s, s.tasks[other]);
    }
  }

  lemma TasksStep(s: State, step: Step)
    requires InsertsOk(s) && RowsOk(s) && TasksOk(s) && Enabled(s, step)
    requires forall a | a in s.inserts :: a in Apply(s, step).inserts
    ensures TasksOk(Apply(s, step))
  {
    var s' := Apply(s, step);
    forall q | q in s'.tasks ensures TaskOk(s', s'.tasks[q]) {
      if q in s.tasks && (step.Register? || step.SequenceGap? || q != step.r) {
        OtherTaskOk(s, step, q);
      } else if !step.Arrive? {
        MovedTaskOk(s, step);
      }
    }
    forall r, q | r in s'.tasks && q in s'.tasks && r != q && s'.tasks[r].pc.Inserted? && s'.tasks[q].pc.Inserted?
      ensures s'.tasks[r].pc.row.id != s'.tasks[q].pc.row.id
    {
      InsertedStayApart(s, step, r, q);
    }
  }

  lemma OwedIsSound(s: State, pc: Pc, request: Request)
    requires RowsOk(s) && TaskOk(s, Task(request, pc)) && CanPublish(pc)
    ensures Sound(s.db.rows, EventOf(pc))
  {
    var a := s.db.rows[pc.row.id];
    assert Original(a) == Original(pc.row);
    assert PayloadOf(a) == PayloadOf(Original(a)) == PayloadOf(pc.row);
  }

  lemma LogStep(s: State, step: Step)
    requires RowsOk(s) && TasksOk(s) && LogOk(s) && Enabled(s, step)
    ensures LogOk(Apply(s, step))
  {
    var s' := Apply(s, step);
    StepGrowsRows(s, step);
    if step.Publish? || step.PublishFails? {
      OwedIsSound(s, s.tasks[step.r].pc, s.tasks[step.r].request);
    }
    forall e | e in s'.log ensures Sound(s'.db.rows, e) {
      if e in s.log {
        SoundnessGrows(s.db.rows, s'.db.rows, e);
      }
    }
  }

  /** An announcement that was made or owed stays made or owed. */
  lemma AccountStays(s: State, step: Step, e: Event)
    requires Enabled(s, step) && Accounted(s, e)
    ensures Accounted(Apply(s, step), e)
  {
    var s' := Apply(s, step);
    if e !in s.log {
      var r :| r in s.tasks && Owes(s.tasks[r].pc, e);
      if !step.Register? && !step.SequenceGap? && r == step.r {
        if step.Publish? {
          assert e in s'.log;
        } else {
          assert Owes(s'.tasks[r].pc, e);
        }
      } else {
        assert Owes(s'.tasks[r].pc, e);
      }
    }
  }

  lemma SamePayload(a: Address, b: Address)
    requires Original(a) == Original(b)
    ensures a.id == b.id && PayloadOf(a) == PayloadOf(b) && a.userId == b.userId
  {
    assert PayloadOf(a) == PayloadOf(Original(a)) && PayloadOf(b) == PayloadOf(Original(b));
  }

  lemma CreationAccounted(s: State, step: Step, id: Uuid)
    requires Inv(s) && Enabled(s, step) && id in Apply(s, step).db.rows
    ensures Accounted(Apply(s, step), CreatedEvent(Apply(s, step).db.rows[id]))
  {
    var s' := Apply(s, step);
    if step.Commit? && id == s.tasks[step.r].pc.row.id {
      assert Owes(s'.tasks[step.r].pc, CreatedEvent(s'.db.rows[id]));
    } else {
      StepGrowsRows(s, step);
      SamePayload(s'.db.rows[id], s.db.rows[id]);
      AccountStays(s, step, CreatedEvent(s.db.rows[id]));
    }
  }

  lemma ArchivedBefore(s: State, step: Step, id: Uuid)
    requires InsertsOk(s) && TasksOk(s) && Enabled(s, step) && id in Apply(s, step).db.rows
    requires Apply(s, step).db.rows[id].archivedAt.Some?
    requires step.Update? ==> id != s.tasks[step.r].pc.row.id
    ensures id in s.db.rows && Apply(s, step).db.rows[id] == s.db.rows[id]
  {
    if step.Commit? {
      assert TaskOk(s, s.tasks[step.r]);
      assert InsertOk(s.tasks[step.r].pc.row, s.db);
    }
  }

  lemma ArchivingAccounted(s: State, step: Step, id: Uuid)
    requires Inv(s) && Enabled(s, step) && id in Apply(s, step).db.rows
    requires Apply(s, step).db.rows[id].archivedAt.Some? && Apply(s, step).db.rows[id].userId.Some?
    ensures Accounted(Apply(s, step), ArchivedEvent(Apply(s, step).db.rows[id]))
  {
    var s' := Apply(s, step);
    if step.Update? && id == s.tasks[step.r].pc.row.id {
      assert TaskOk(s, s.tasks[step.r]);
      SamePayload(s.db.rows[id], s.tasks[step.r].pc.row);
      assert Owes(s'.tasks[step.r].pc, ArchivedEvent(s'.db.rows[id]));
    } else {
      ArchivedBefore(s, step, id);
      AccountStays(s, step, ArchivedEvent(s.db.rows[id]));
    }
  }

  lemma AccountStep(s: State, step: Step)
    requires Inv(s) && Enabled(s, step)
    ensures AllAccounted(Apply(s, step))
  {
    var s' := Apply(s, step);
    forall id | id in s'.db.rows
      ensures Accounted(s', CreatedEvent(s'.db.rows[id]))
      ensures s'.db.rows[id].archivedAt.Some? && s'.db.rows[id].userId.Some? ==> Accounted(s', ArchivedEvent(s'.db.rows[id]))
    {
      CreationAccounted(s, step, id);
      if s'.db.rows[id].archivedAt.Some? && s'.db.rows[id].userId.Some? {
        ArchivingAccounted(s, step, id);
      }
    }
  }

  lemma StepInv(s: State, step: Step)
    requires Inv(s) && Enabled(s, step)
    ensures Inv(Apply(s, step))
  {
    InsertsStep(s, step);
    RowsStep(s, step);
    TasksStep(s, step);
    LogStep(s, step);
    AccountStep(s, step);
  }
}
