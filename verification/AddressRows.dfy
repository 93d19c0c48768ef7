/** Rows of the addressentity table, and its columns. */
module AddressRows {
  import opened Wrappers

  /** userId None is a vendor address; archivedAt is the soft-delete timestamp. */
  datatype Address = Address(
    id: Uuid,
    firstName: Option<string>,
    lastName: Option<string>,
    street1: string,
    street2: string,
    city: string,
    postalCode: string,
    country: string,
    companyName: Option<string>,
    userId: Option<Uuid>,
    archivedAt: Option<int>,
    version: int)
  {
    predicate IsVendor() { userId.None? }
  }

  datatype Column =
    | IdColumn | FirstName | LastName | Street1 | Street2 | City | PostalCode | Country
    | CompanyName | UserId | ArchivedAt | Version

  function ColumnName(c: Column): string {
    match c
    case IdColumn => "id"
    case FirstName => "firstname"
    case LastName => "lastname"
    case Street1 => "street1"
    case Street2 => "street2"
    case City => "city"
    case PostalCode => "postalcode"
    case Country => "country"
    case CompanyName => "companyname"
    case UserId => "userid"
    case ArchivedAt => "archivedat"
    case Version => "version"
  }

  /** `addressColumns`: the projection of every query that reads whole rows. */
  const ADDRESS_COLUMNS: seq<Column> :=
    [IdColumn, FirstName, LastName, Street1, Street2, City, PostalCode, Country, CompanyName, UserId, ArchivedAt, Version]

  /** A column value or a query argument. */
  datatype Value = Null | UuidValue(id: Uuid) | TextValue(text: string) | IntValue(number: int) | TimeValue(time: int)

  function OptionalText(text: Option<string>): Value {
    match text case None => Null case Some(t) => TextValue(t)
  }

  function ColumnValue(a: Address, c: Column): Value {
    match c
    case IdColumn => UuidValue(a.id)
    case FirstName => OptionalText(a.firstName)
    case LastName => OptionalText(a.lastName)
    case Street1 => TextValue(a.street1)
    case Street2 => TextValue(a.street2)
    case City => TextValue(a.city)
    case PostalCode => TextValue(a.postalCode)
    case Country => TextValue(a.country)
    case CompanyName => OptionalText(a.companyName)
    case UserId => (match a.userId case None => Null case Some(id) => UuidValue(id))
    case ArchivedAt => (match a.archivedAt case None => Null case Some(t) => TimeValue(t))
    case Version => IntValue(a.version)
  }

  function Project(a: Address, columns: seq<Column>): seq<Value> {
    seq(|columns|, i requires 0 <= i < |columns| => ColumnValue(a, columns[i]))
  }

  predicate TextOrNull(v: Value) {
    v.Null? || v.TextValue?
  }

  function ScanText(v: Value): Option<string>
    requires TextOrNull(v)
  {
    if v.Null? then None else Some(v.text)
  }

  /** `scanAddress`: the scan targets in their order, each of its own type. */
  function ScanAddress(v: seq<Value>): Option<Address> {
    if |v| == 12 && v[0].UuidValue? && TextOrNull(v[1]) && TextOrNull(v[2]) && v[3].TextValue? && v[4].TextValue? &&
       v[5].TextValue? && v[6].TextValue? && v[7].TextValue? && TextOrNull(v[8]) &&
       (v[9].Null? || v[9].UuidValue?) && (v[10].Null? || v[10].TimeValue?) && v[11].IntValue?
    then Some(Address(
      v[0].id, ScanText(v[1]), ScanText(v[2]), v[3].text, v[4].text, v[5].text, v[6].text, v[7].text, ScanText(v[8]),
      if v[9].Null? then None else Some(v[9].id),
      if v[10].Null? then None else Some(v[10].time),
      v[11].number))
    else None
  }

  /** The projection and the scan targets agree, column by column. */
  lemma ScanReadsProjection(a: Address)
    ensures ScanAddress(Project(a, ADDRESS_COLUMNS)) == Some(a)
  {
  }
}
