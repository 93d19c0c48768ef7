/** The address service's tables, its events, and what single statements do to the tables. */
module AddressDb {
  import opened Wrappers
  import opened AddressRows

  datatype Name = Name(first: string, last: string)

  /** The fields of a create mutation; a name is given whole or not at all. */
  datatype Input = Input(
    name: Option<Name>,
    street1: string,
    street2: string,
    city: string,
    postalCode: string,
    country: string,
    companyName: Option<string>)

  /** userentity, addressentity, and the sequence behind the version column. */
  datatype Db = Db(users: set<Uuid>, rows: map<Uuid, Address>, nextVersion: int)

  /** The payload shared by both created events. */
  datatype Payload = Payload(
    name: Option<Name>,
    street1: string,
    street2: string,
    city: string,
    postalCode: string,
    country: string,
    companyName: Option<string>,
    userId: Option<Uuid>)

  /** payload.userId tells the user topic from the vendor topic. */
  datatype Event = Created(id: Uuid, payload: Payload) | Archived(id: Uuid, userId: Uuid)

  /** The row an INSERT writes: id and version come from the column defaults. */
  function NewRow(input: Input, userId: Option<Uuid>, id: Uuid, version: int): Address {
    var first := match input.name case None => None case Some(n) => Some(n.first);
    var last := match input.name case None => None case Some(n) => Some(n.last);
    Address(id, first, last, input.street1, input.street2, input.city, input.postalCode, input.country,
            input.companyName, userId, None, version)
  }

  /** `eventName`, and likewise `toName`: a name only when both parts are there. */
  function EventName(first: Option<string>, last: Option<string>): Option<Name> {
    if first.None? || last.None? then None else Some(Name(first.value, last.value))
  }

  function PayloadOf(a: Address): Payload {
    Payload(EventName(a.firstName, a.lastName), a.street1, a.street2, a.city, a.postalCode, a.country, a.companyName, a.userId)
  }

  function CreatedEvent(a: Address): Event {
    Created(a.id, PayloadOf(a))
  }

  function ArchivedEvent(a: Address): Event
    requires a.userId.Some?
  {
    Archived(a.id, a.userId.value)
  }

  // ----- What a create mutation must leave behind, field by field -----

  /** The row holds the input, under the names the input gives, for this owner; it is not archived. */
  predicate Holds(a: Address, input: Input, owner: Option<Uuid>) {
    && (input.name.None? ==> a.firstName == None && a.lastName == None)
    && (input.name.Some? ==> a.firstName == Some(input.name.value.first) && a.lastName == Some(input.name.value.last))
    && a.street1 == input.street1
    && a.street2 == input.street2
    && a.city == input.city
    && a.postalCode == input.postalCode
    && a.country == input.country
    && a.companyName == input.companyName
    && a.userId == owner
    && a.archivedAt == None
  }

  /** The event tells of the input, under the names the input gives, and of the owner. */
  predicate Tells(e: Event, id: Uuid, input: Input, owner: Option<Uuid>) {
    && e.Created?
    && e.id == id
    && e.payload.name == input.name
    && e.payload.street1 == input.street1
    && e.payload.street2 == input.street2
    && e.payload.city == input.city
    && e.payload.postalCode == input.postalCode
    && e.payload.country == input.country
    && e.payload.companyName == input.companyName
    && e.payload.userId == owner
  }

  /** The payload and the row agree field by field; a name is in the payload when the row has one. */
  predicate Describes(p: Payload, a: Address) {
    && (p.name.None? ==> a.firstName == None && a.lastName == None)
    && (p.name.Some? ==> a.firstName == Some(p.name.value.first) && a.lastName == Some(p.name.value.last))
    && p.street1 == a.street1
    && p.street2 == a.street2
    && p.city == a.city
    && p.postalCode == a.postalCode
    && p.country == a.country
    && p.companyName == a.companyName
    && p.userId == a.userId
  }

  lemma PayloadDescribes(p: Payload, a: Address)
    requires a.firstName.Some? <==> a.lastName.Some?
    ensures Describes(p, a) <==> p == PayloadOf(a)
  {
  }

  lemma NewRowHolds(input: Input, owner: Option<Uuid>, id: Uuid, version: int)
    ensures var a := NewRow(input, owner, id, version); Holds(a, input, owner) && a.id == id
  {
  }

  lemma HeldIsTold(a: Address, input: Input, owner: Option<Uuid>)
    requires Holds(a, input, owner)
    ensures Tells(CreatedEvent(a), a.id, input, owner)
  {
  }

  /** `UPDATE addressentity SET archivedat = $2 WHERE id = $1`. */
  function SetArchived(db: Db, id: Uuid, time: int): Db {
    if id in db.rows then db.(rows := db.rows[id := db.rows[id].(archivedAt := Some(time))]) else db
  }

  /** The row as it was inserted: archiving is the only change a row can undergo. */
  function Original(a: Address): Address {
    a.(archivedAt := None)
  }

  /** The current vendor address: the highest version among the rows without an owner. */
  predicate IsCurrentVendor(rows: map<Uuid, Address>, id: Uuid) {
    && id in rows && rows[id].IsVendor()
    && forall other | other in rows && rows[other].IsVendor() :: rows[other].version <= rows[id].version
  }
}
