/**
 The store methods and mutation resolvers as they run: fields changed in place, early returns, and
 the order check, write, publish. Every call extends a run of the protocol, so what holds over all
 runs holds of the service.
 */
module AddressService {
  import opened Wrappers
  import opened AddressRows
  import opened AddressDb
  import opened AddressProtocol
  import opened AddressRuns
  import opened VendorSchedules

  datatype ServiceError = Unauthorized | NoSuchUser | NoSuchAddress | VendorAddress | DatabaseError | PublishError

  /** Which of the calls a request makes report a failure; a failed publish may be delivered all the same. */
  datatype Faults = Faults(read: bool, write: bool, commit: bool, publish: bool, delivered: bool)

  /** Whether a request with this answer has its event in the log. */
  predicate Announced<T>(res: Result<T, ServiceError>, faults: Faults) {
    res.Ok? || (res.error.PublishError? && faults.delivered)
  }

  class AddressService {
    var users: set<Uuid>
    var rows: map<Uuid, Address>
    var nextVersion: int
    var log: seq<Event>
    ghost var trace: seq<State>

    ghost function Now(): State
      requires |trace| > 0
      reads this
    {
      trace[|trace| - 1]
    }

    /** The fields are the last state of a run. */
    ghost predicate Valid()
      reads this
    {
      Run(trace) && Now().db == Db(users, rows, nextVersion) && Now().log == log
    }

    constructor ()
      ensures Valid() && users == {} && rows == map[] && log == []
    {
      users, rows, nextVersion, log := {}, map[], 0, [];
      trace := [State(Db({}, map[], 0), map[], [], [], None)];
    }

    ghost method Take(step: Step)
      requires Run(trace) && Enabled(Now(), step)
      modifies this`trace
      ensures Run(trace) && Now() == Apply(old(Now()), step) && old(trace) <= trace
    {
      RunExtends(trace, step);
      trace := trace + [Apply(Now(), step)];
    }

    /** A plain INSERT: a second delivery of the same user violates the primary key. */
    method RegisterUser(id: Uuid, fault: bool) returns (r: Result<(), ServiceError>)
      requires Valid()
      modifies this
      ensures Valid() && old(trace) <= trace
      ensures r == if fault || id in old(users) then Err(DatabaseError) else Ok(())
      ensures users == (if r.Ok? then old(users) + {id} else old(users))
      ensures rows == old(rows) && nextVersion == old(nextVersion) && log == old(log)
    {
      if fault || id in users {
        return Err(DatabaseError);
      }
      users := users + {id};
      Take(Register(id));
      return Ok(());
    }

    method UserExists(id: Uuid, fault: bool) returns (r: Result<bool, ServiceError>)
      ensures r == if fault then Err(DatabaseError) else Ok(id in users)
    {
      return if fault then Err(DatabaseError) else Ok(id in users);
    }

    method GetAddress(id: Uuid, fault: bool) returns (r: Result<Address, ServiceError>)
      ensures r == if fault then Err(DatabaseError) else if id in rows then Ok(rows[id]) else Err(NoSuchAddress)
    {
      if fault {
        return Err(DatabaseError);
      }
      return if id in rows then Ok(rows[id]) else Err(NoSuchAddress);
    }

    /** The vendor row of highest version; no rows is an answer, not an error. */
    method CurrentVendorAddress(fault: bool) returns (r: Result<Option<Address>, ServiceError>)
      requires Valid()
      ensures fault ==> r == Err(DatabaseError)
      ensures !fault ==> r.Ok?
      ensures r.Ok? && r.value.Some? ==>
                IsCurrentVendor(rows, r.value.value.id) && rows[r.value.value.id] == r.value.value
      ensures r.Ok? && r.value.None? ==> forall id | id in rows :: !rows[id].IsVendor()
    {
      if fault {
        return Err(DatabaseError);
      }
      var id := SelectCurrent(rows);
      if id.None? {
        return Ok(None);
      }
      KeysAreIds();
      return Ok(Some(rows[id.value]));
    }

    lemma KeysAreIds()
      requires Valid()
      ensures forall id | id in rows :: rows[id].id == id
    {
      RowsKnowTheirKeys(trace, |trace| - 1);
    }

    /** The row a create request of this input and owner writes now. */
    function RowFor(input: Input, userId: Option<Uuid>, id: Uuid): Address
      reads this
    {
      NewRow(input, userId, id, nextVersion)
    }

    /** Insert and commit in a transaction of its own; a version drawn is never given back. */
    method CreateAddress(input: Input, userId: Option<Uuid>, id: Uuid, faults: Faults, ghost r: nat)
      returns (res: Result<Address, ServiceError>)
      requires Valid() && r in Now().tasks && Enabled(Now(), Insert(r, id))
      requires Now().tasks[r].request.input == input && Owner(Now().tasks[r].request) == userId
      modifies this
      ensures Valid() && old(trace) <= trace && r in Now().tasks
      ensures res == if faults.write || faults.commit then Err(DatabaseError) else Ok(old(RowFor(input, userId, id)))
      ensures rows == (if res.Ok? then old(rows)[id := res.value] else old(rows))
      ensures nextVersion == (if faults.write then old(nextVersion) else old(nextVersion) + 1)
      ensures users == old(users) && log == old(log)
      ensures res.Ok? ==> Now().tasks[r].pc == Committed(res.value)
      ensures res.Ok? ==> res.value.id == id && Holds(res.value, input, userId)
    {
      if faults.write {
        Take(Fail(r));
        return Err(DatabaseError);
      }
      var a := NewRow(input, userId, id, nextVersion);
      NewRowHolds(input, userId, id, nextVersion);
      nextVersion := nextVersion + 1;
      Take(Insert(r, id));
      if faults.commit {
        Take(Fail(r));
        return Err(DatabaseError);
      }
      rows := rows[id := a];
      Take(Commit(r));
      return Ok(a);
    }

    method ArchiveAddress(id: Uuid, time: int, fault: bool, ghost r: nat) returns (res: Result<(), ServiceError>)
      requires Valid() && r in Now().tasks && Now().tasks[r].pc.MayArchive? && Now().tasks[r].pc.row.id == id
      modifies this
      ensures Valid() && old(trace) <= trace && r in Now().tasks
      ensures res == if fault then Err(DatabaseError) else Ok(())
      ensures rows == (if res.Ok? && id in old(rows) then old(rows)[id := old(rows)[id].(archivedAt := Some(time))] else old(rows))
      ensures users == old(users) && nextVersion == old(nextVersion) && log == old(log)
      ensures res.Ok? ==> Now().tasks[r].pc == Updated(old(Now().tasks[r].pc.row))
    {
      if fault {
        Take(Fail(r));
        return Err(DatabaseError);
      }
      if id in rows {
        rows := rows[id := rows[id].(archivedAt := Some(time))];
      }
      Take(Update(r, time));
      return Ok(());
    }

    method PublishEvent(event: Event, faults: Faults, ghost r: nat) returns (res: Result<(), ServiceError>)
      requires Valid() && r in Now().tasks && CanPublish(Now().tasks[r].pc) && EventOf(Now().tasks[r].pc) == event
      modifies this
      ensures Valid() && old(trace) <= trace
      ensures res == if faults.publish then Err(PublishError) else Ok(())
      ensures log == if Announced(res, faults) then old(log) + [event] else old(log)
      ensures users == old(users) && rows == old(rows) && nextVersion == old(nextVersion)
    {
      if faults.publish {
        if faults.delivered {
          log := log + [event];
        }
        Take(PublishFails(r, faults.delivered));
        return Err(PublishError);
      }
      log := log + [event];
      Take(Publish(r));
      return Ok(());
    }

    /** The common end of the create mutations: write, then publish. */
    method CreateAndPublish(input: Input, userId: Option<Uuid>, id: Uuid, faults: Faults, ghost r: nat)
      returns (res: Result<Address, ServiceError>)
      requires Valid() && r in Now().tasks && Enabled(Now(), Insert(r, id))
      requires Now().tasks[r].request.input == input && Owner(Now().tasks[r].request) == userId
      modifies this
      ensures Valid() && old(trace) <= trace
      ensures res == if faults.write || faults.commit then Err(DatabaseError)
                     else if faults.publish then Err(PublishError)
                     else Ok(old(RowFor(input, userId, id)))
      ensures rows == (if faults.write || faults.commit then old(rows) else old(rows)[id := old(RowFor(input, userId, id))])
      ensures log == (if Announced(res, faults) then old(log) + [CreatedEvent(old(RowFor(input, userId, id)))] else old(log))
      ensures users == old(users)
      ensures res.Ok? ==> res.value.id == id && Holds(res.value, input, userId)
      ensures res.Ok? || res.error.PublishError? ==> id in rows && rows[id].id == id && Holds(rows[id], input, userId)
      ensures Announced(res, faults) ==> |log| == |old(log)| + 1 && Tells(log[|old(log)|], id, input, userId)
    {
      NewRowHolds(input, userId, id, nextVersion);
      HeldIsTold(NewRow(input, userId, id, nextVersion), input, userId);
      var address := CreateAddress(input, userId, id, faults, r);
      if address.Err? {
        return Err(address.error);
      }
      var published := PublishEvent(CreatedEvent(address.value), faults, r);
      if published.Err? {
        return Err(published.error);
      }
      return Ok(address.value);
    }

    /** The answer of createUserAddress: the first check or call that fails decides. */
    function CreateUserAnswer(input: Input, userId: Uuid, allowed: bool, faults: Faults, id: Uuid): Result<Address, ServiceError>
      reads this
    {
      if !allowed then Err(Unauthorized)
      else if faults.read then Err(DatabaseError)
      else if userId !in users then Err(NoSuchUser)
      else if faults.write || faults.commit then Err(DatabaseError)
      else if faults.publish then Err(PublishError)
      else Ok(RowFor(input, Some(userId), id))
    }

    /** Permission first, then whether the user has been replicated here. */
    method CheckUserFor(input: Input, userId: Uuid, allowed: bool, fault: bool, ghost r: nat) returns (res: Result<(), ServiceError>)
      requires Valid() && r !in Now().tasks
      modifies this`trace
      ensures Valid() && old(trace) <= trace && Now().inserts == old(Now().inserts)
      ensures res == if !allowed then Err(Unauthorized)
                     else if fault then Err(DatabaseError)
                     else if userId !in users then Err(NoSuchUser)
                     else Ok(())
      ensures res.Ok? ==> r in Now().tasks && Now().tasks[r] == Task(CreateUser(input, userId), UserChecked)
    {
      Take(Arrive(r, CreateUser(input, userId)));
      if !allowed {
        Take(Authorize(r, false));
        return Err(Unauthorized);
      }
      Take(Authorize(r, true));
      var known := UserExists(userId, fault);
      if known.Err? {
        Take(Fail(r));
        return Err(known.error);
      }
      Take(CheckUser(r));
      return if known.value then Ok(()) else Err(NoSuchUser);
    }

    method CreateUserAddress(input: Input, userId: Uuid, allowed: bool, faults: Faults, id: Uuid, ghost r: nat)
      returns (res: Result<Address, ServiceError>)
      requires Valid() && r !in Now().tasks && forall a | a in Now().inserts :: a.id != id
      modifies this
      ensures Valid() && old(trace) <= trace
      ensures res == old(CreateUserAnswer(input, userId, allowed, faults, id))
      ensures res.Ok? <==> allowed && userId in old(users) && !faults.read && !faults.write && !faults.commit && !faults.publish
      ensures !allowed <==> res == Err(Unauthorized)
      ensures allowed && !faults.read && userId !in old(users) <==> res == Err(NoSuchUser)
      ensures rows == (if res.Ok? || res.error.PublishError? then old(rows)[id := old(RowFor(input, Some(userId), id))] else old(rows))
      ensures log == (if Announced(res, faults) then old(log) + [CreatedEvent(old(RowFor(input, Some(userId), id)))] else old(log))
      ensures users == old(users)
      ensures res.Ok? ==> res.value.id == id && Holds(res.value, input, Some(userId))
      ensures res.Ok? || res.error.PublishError? ==> id in rows && rows[id].id == id && Holds(rows[id], input, Some(userId))
      ensures Announced(res, faults) ==> |log| == |old(log)| + 1 && Tells(log[|old(log)|], id, input, Some(userId))
    {
      var checked := CheckUserFor(input, userId, allowed, faults.read, r);
      if checked.Err? {
        return Err(checked.error);
      }
      res := CreateAndPublish(input, Some(userId), id, faults, r);
    }

    method CreateVendorAddress(input: Input, allowed: bool, faults: Faults, id: Uuid, ghost r: nat)
      returns (res: Result<Address, ServiceError>)
      requires Valid() && r !in Now().tasks && forall a | a in Now().inserts :: a.id != id
      modifies this
      ensures Valid() && old(trace) <= trace
      ensures res == if !allowed then Err(Unauthorized)
                     else if faults.write || faults.commit then Err(DatabaseError)
                     else if faults.publish then Err(PublishError)
                     else Ok(old(RowFor(input, None, id)))
      ensures rows == (if res.Ok? || res.error.PublishError? then old(rows)[id := old(RowFor(input, None, id))] else old(rows))
      ensures log == (if Announced(res, faults) then old(log) + [CreatedEvent(old(RowFor(input, None, id)))] else old(log))
      ensures users == old(users)
      ensures res.Ok? ==> res.value.id == id && Holds(res.value, input, None)
      ensures res.Ok? || res.error.PublishError? ==> id in rows && rows[id].id == id && Holds(rows[id], input, None)
      ensures Announced(res, faults) ==> |log| == |old(log)| + 1 && Tells(log[|old(log)|], id, input, None)
    {
      Take(Arrive(r, CreateVendor(input)));
      if !allowed {
        Take(Authorize(r, false));
        return Err(Unauthorized);
      }
      Take(Authorize(r, true));
      res := CreateAndPublish(input, None, id, faults, r);
    }

    /** The end of archiveUserAddress: write, then publish. */
    method ArchiveAndPublish(address: Address, faults: Faults, time: int, ghost r: nat)
      returns (res: Result<Address, ServiceError>)
      requires Valid() && r in Now().tasks && Now().tasks[r].pc == MayArchive(address)
      requires address.userId.Some? && address.id in rows
      modifies this
      ensures Valid() && old(trace) <= trace
      ensures res == if faults.write then Err(DatabaseError)
                     else if faults.publish then Err(PublishError)
                     else Ok(address.(archivedAt := Some(time)))
      ensures rows == (if faults.write then old(rows)
                       else old(rows)[address.id := old(rows)[address.id].(archivedAt := Some(time))])
      ensures log == (if Announced(res, faults) then old(log) + [ArchivedEvent(address)] else old(log))
      ensures users == old(users) && nextVersion == old(nextVersion)
    {
      var updated := ArchiveAddress(address.id, time, faults.write, r);
      if updated.Err? {
        return Err(updated.error);
      }
      var archived := address.(archivedAt := Some(time));
      var published := PublishEvent(Archived(archived.id, archived.userId.value), faults, r);
      if published.Err? {
        return Err(published.error);
      }
      return Ok(archived);
    }

    /** The row an archive request reads before anything is checked. */
    method LoadForArchive(id: Uuid, fault: bool, ghost r: nat) returns (res: Result<Address, ServiceError>)
      requires Valid() && r !in Now().tasks
      modifies this`trace
      ensures Valid() && old(trace) <= trace
      ensures res == if fault then Err(DatabaseError) else if id in rows then Ok(rows[id]) else Err(NoSuchAddress)
      ensures res.Ok? ==> res.value.id == id && r in Now().tasks && Now().tasks[r] == Task(Archive(id), Loaded(res.value))
    {
      KeysAreIds();
      Take(Arrive(r, Archive(id)));
      res := GetAddress(id, fault);
      if res.Err? {
        Take(Fail(r));
        return;
      }
      Take(Load(r));
    }

    /** The answer of archiveUserAddress: load first, then authorization, then the vendor check. */
    function ArchiveAnswer(id: Uuid, allowed: bool, faults: Faults, time: int): Result<Address, ServiceError>
      reads this
    {
      if faults.read then Err(DatabaseError)
      else if id !in rows then Err(NoSuchAddress)
      else if !allowed then Err(Unauthorized)
      else if rows[id].IsVendor() then Err(VendorAddress)
      else if faults.write then Err(DatabaseError)
      else if faults.publish then Err(PublishError)
      else Ok(rows[id].(archivedAt := Some(time)))
    }

    method ArchiveUserAddress(id: Uuid, allowed: bool, faults: Faults, time: int, ghost r: nat)
      returns (res: Result<Address, ServiceError>)
      requires Valid() && r !in Now().tasks
      modifies this
      ensures Valid() && old(trace) <= trace
      ensures res == old(ArchiveAnswer(id, allowed, faults, time))
      ensures !faults.read && id !in old(rows) <==> res == Err(NoSuchAddress)
      ensures !faults.read && id in old(rows) && !allowed <==> res == Err(Unauthorized)
      ensures !faults.read && id in old(rows) && allowed && old(rows)[id].userId == None <==> res == Err(VendorAddress)
      ensures res.Ok? <==> !faults.read && id in old(rows) && allowed && old(rows)[id].userId != None && !faults.write && !faults.publish
      ensures rows == (if res.Ok? || res.error.PublishError?
                       then old(rows)[id := old(rows)[id].(archivedAt := Some(time))] else old(rows))
      ensures log == (if Announced(res, faults) then old(log) + [Archived(id, old(rows)[id].userId.value)] else old(log))
      ensures users == old(users) && nextVersion == old(nextVersion)
    {
      var loaded := LoadForArchive(id, faults.read, r);
      if loaded.Err? {
        return Err(loaded.error);
      }
      var address := loaded.value;
      if !allowed {
        Take(Authorize(r, false));
        return Err(Unauthorized);
      }
      Take(Authorize(r, true));
      if address.userId.None? {
        return Err(VendorAddress);
      }
      res := ArchiveAndPublish(address, faults, time, r);
    }
  }
}
