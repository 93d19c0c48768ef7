/** The part of the address schema whose results are completed by hand-checkable code. */
module Schema {
  import opened Wrappers

  datatype ObjectType = User | UserAddress | UserAddressConnection | VendorAddress | Name

  datatype FieldName =
    | Typename | Id | Addresses | ArchivedAt | City | CompanyName | Country | IsArchived | NameField
    | PostalCode | Street1 | Street2 | UserField | HasNextPage | Nodes | TotalCount | FirstName | LastName

  datatype Type = Scalar | Composite(o: ObjectType) | ListOf(of: Type) | NonNull(of: Type)

  /** The declared type of a field; None is no such field. */
  function FieldType(o: ObjectType, f: FieldName): Option<Type> {
    match o
    case User =>
      (match f
       case Addresses => Some(NonNull(Composite(UserAddressConnection)))
       case Id => Some(NonNull(Scalar))
       case _ => None)
    case UserAddress =>
      (match f
       case ArchivedAt => Some(Scalar)
       case CompanyName => Some(Scalar)
       case NameField => Some(Composite(Name))
       case UserField => Some(NonNull(Composite(User)))
       case City | Country | Id | IsArchived | PostalCode | Street1 | Street2 => Some(NonNull(Scalar))
       case _ => None)
    case UserAddressConnection =>
      (match f
       case HasNextPage => Some(NonNull(Scalar))
       case Nodes => Some(NonNull(ListOf(NonNull(Composite(UserAddress)))))
       case TotalCount => Some(NonNull(Scalar))
       case _ => None)
    case VendorAddress =>
      (match f
       case CompanyName => Some(Scalar)
       case NameField => Some(Composite(Name))
       case City | Country | Id | PostalCode | Street1 | Street2 => Some(NonNull(Scalar))
       case _ => None)
    case Name =>
      (match f
       case FirstName => Some(NonNull(Scalar))
       case LastName => Some(NonNull(Scalar))
       case _ => None)
  }

  /** A collected field: its own selections, and the labels of the @defer directives it is under. */
  datatype Field = Field(name: FieldName, sub: seq<Field>, labels: seq<string>)

  /** Only the fields with a resolver of their own are taken out of the initial response. */
  predicate Deferred(o: ObjectType, f: Field) {
    |f.labels| > 0 && ((o.User? && f.name.Addresses?) || (o.UserAddress? && f.name.UserField?))
  }

  predicate Known(o: ObjectType, f: Field) {
    f.name.Typename? || FieldType(o, f.name).Some?
  }

  /** What resolving gave, down to the leaves: one outcome for each field selected. */
  datatype Outcome =
    | Failed                                        // an error, or a panic that was recovered
    | Nil
    | Leaf(value: int)
    | Obj(o: ObjectType, fields: seq<Outcome>)
    | Items(items: seq<Outcome>)

  /** Responses; Absent is a field left for later, RequiredNull a null the library marks as an error. */
  datatype Response =
    | Null
    | RequiredNull
    | Absent
    | ScalarValue(value: int)
    | TypenameValue(o: ObjectType)
    | Object(o: ObjectType, fields: seq<Response>)
    | List(items: seq<Response>)

  /** The elements of a list are Go values: they cannot be nil, and only their own fields can fail. */
  predicate IsValue(out: Outcome) {
    !out.Nil? && !out.Failed?
  }

  /** The outcome has the shape the types and the selections ask for. */
  ghost predicate Fits(t: Type, sel: seq<Field>, out: Outcome)
    decreases out, 0, t
  {
    match t
    case NonNull(of) => Fits(of, sel, out)
    case Scalar => out.Failed? || out.Nil? || out.Leaf?
    case Composite(o) =>
      out.Failed? || out.Nil? ||
      (out.Obj? && out.o == o && |out.fields| == |sel| && forall k | 0 <= k < |sel| :: FitsField(o, sel[k], out.fields[k]))
    case ListOf(of) =>
      out.Failed? || (out.Items? && forall k | 0 <= k < |out.items| :: IsValue(out.items[k]) && Fits(of, sel, out.items[k]))
  }

  ghost predicate FitsField(o: ObjectType, f: Field, out: Outcome)
    decreases out, 1
  {
    Known(o, f) && (!f.name.Typename? ==> Fits(FieldType(o, f.name).value, f.sub, out))
  }
}
