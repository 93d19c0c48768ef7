/** What the database answers to a text and its arguments. */
module SqlEval {
  import opened Wrappers
  import opened SqlText
  import opened AddressRows
  import opened SqlQuery
  import opened Sorting

  datatype SqlError = SyntaxError | WrongArgumentCount | NoArgumentZero | WrongType | NegativeOffset | NegativeLimit | NotCollated | UndeterminedType
    | ConnectionLost

  datatype Answer = Table(rows: seq<seq<Value>>) | Number(n: nat) | Truth(b: bool)

  /** The highest `$n` in a statement; the driver insists that it is the number of arguments. */
  function MaxArg(a: nat, b: nat): nat { if a < b then b else a }

  function HighestInWhere(ps: seq<Predicate>): nat {
    if ps == [] then 0 else MaxArg(if ps[0].Equals? then ps[0].arg else 0, HighestInWhere(ps[1..]))
  }

  function Highest(q: Query): nat {
    match q
    case SelectCount(where) => HighestInWhere(where)
    case SelectExists(where, _, offset) => MaxArg(HighestInWhere(where), offset)
    case SelectRows(_, where, _, offset, limit) =>
      MaxArg(MaxArg(HighestInWhere(where), offset), match limit case All => 0 case UpTo(n) => n)
  }

  predicate UsedInWhere(ps: seq<Predicate>, n: nat) {
    exists i :: 0 <= i < |ps| && ps[i].Equals? && ps[i].arg == n
  }

  predicate Used(q: Query, n: nat) {
    || UsedInWhere(q.where, n)
    || (!q.SelectCount? && q.offset == n)
    || (q.SelectRows? && q.limit == UpTo(n))
  }

  /** A parameter that occurs nowhere has no type, and the database refuses the statement. */
  predicate UsesAll(q: Query) {
    forall n | 1 <= n <= Highest(q) :: Used(q, n)
  }

  predicate HoldsType(c: Column, v: Value) {
    match c
    case IdColumn => v.UuidValue?
    case UserId => v.UuidValue?
    case ArchivedAt => v.TimeValue?
    case Version => v.IntValue?
    case _ => v.TextValue?
  }

  /** A predicate's placeholder is bound to an argument of the column's type. */
  function CheckPredicates(ps: seq<Predicate>, args: seq<Value>): (r: Option<SqlError>)
    ensures r.None? ==> forall p | p in ps && p.Equals? :: 1 <= p.arg <= |args| && HoldsType(p.column, args[p.arg - 1])
  {
    if ps == [] then None else
      match ps[0]
      case Equals(c, n) =>
        if n < 1 then Some(NoArgumentZero)
        else if n > |args| then Some(WrongArgumentCount)
        else if !HoldsType(c, args[n - 1]) then Some(WrongType)
        else CheckPredicates(ps[1..], args)
      case _ => CheckPredicates(ps[1..], args)
  }

  /** Three-valued logic comes to this: a comparison with NULL does not keep the row. */
  predicate Keeps(p: Predicate, args: seq<Value>, a: Address) {
    match p
    case Equals(c, n) => 1 <= n <= |args| && !ColumnValue(a, c).Null? && ColumnValue(a, c) == args[n - 1]
    case IsNull(c) => ColumnValue(a, c).Null?
    case IsNotNull(c) => !ColumnValue(a, c).Null?
  }

  predicate KeepsAll(ps: seq<Predicate>, args: seq<Value>, a: Address) {
    forall p | p in ps :: Keeps(p, args, a)
  }

  function Matching(rows: seq<Address>, ps: seq<Predicate>, args: seq<Value>): seq<Address> {
    Filter(rows, a => KeepsAll(ps, args, a))
  }

  /** A LIMIT or OFFSET argument. */
  function Count(args: seq<Value>, n: nat, negative: SqlError): Result<nat, SqlError> {
    if n < 1 then Err(NoArgumentZero)
    else if n > |args| then Err(WrongArgumentCount)
    else match args[n - 1]
         case IntValue(i) => if i < 0 then Err(negative) else Ok(i)
         case _ => Err(WrongType)
  }

  function Drop<T>(s: seq<T>, n: nat): (r: seq<T>)
    ensures |r| == if n < |s| then |s| - n else 0
    ensures forall i | 0 <= i < |r| :: r[i] == s[n + i]
  {
    if n < |s| then s[n..] else []
  }

  function Take<T>(s: seq<T>, n: nat): (r: seq<T>)
    ensures |r| == if n < |s| then n else |s|
    ensures r <= s
  {
    if n < |s| then s[..n] else s
  }

  function ProjectAll(rows: seq<Address>, columns: seq<Column>): (r: seq<seq<Value>>)
    ensures |r| == |rows| && forall i | 0 <= i < |rows| :: r[i] == Project(rows[i], columns)
  {
    seq(|rows|, i requires 0 <= i < |rows| => Project(rows[i], columns))
  }

  /** Only the columns that are never NULL and compare as numbers have an order here. */
  predicate Collated(order: seq<OrderItem>) {
    forall item | item in order :: item.column.IdColumn? || item.column.Version?
  }

  function ExecuteQuery(rows: seq<Address>, q: Query, args: seq<Value>): Result<Answer, SqlError> {
    if Highest(q) != |args| then Err(WrongArgumentCount)
    else if !UsesAll(q) then Err(UndeterminedType)
    else
      match CheckPredicates(q.where, args)
      case Some(e) => Err(e)
      case None =>
        match q
        case SelectCount(where) => Ok(Number(|Matching(rows, where, args)|))
        case SelectExists(where, order, offset) =>
          if !Collated(order) then Err(NotCollated) else
            (match Count(args, offset, NegativeOffset)
             case Err(e) => Err(e)
             case Ok(skip) => Ok(Truth(Drop(Sort(order, Matching(rows, where, args)), skip) != [])))
        case SelectRows(columns, where, order, offset, limit) =>
          if !Collated(order) then Err(NotCollated) else
            match Count(args, offset, NegativeOffset)
            case Err(e) => Err(e)
            case Ok(skip) =>
              var rest := Drop(Sort(order, Matching(rows, where, args)), skip);
              match limit
              case All => Ok(Table(ProjectAll(rest, columns)))
              case UpTo(n) =>
                match Count(args, n, NegativeLimit)
                case Err(e) => Err(e)
                case Ok(first) => Ok(Table(ProjectAll(Take(rest, first), columns)))
  }

  /** Sending a text with arguments. */
  function Execute(rows: seq<Address>, text: string, args: seq<Value>): Result<Answer, SqlError> {
    match ParseQuery(Split(text))
    case None => Err(SyntaxError)
    case Some(q) => ExecuteQuery(rows, q, args)
  }

  /** Sending it when the connection may be lost. */
  function Send(rows: seq<Address>, text: string, args: seq<Value>, lost: bool): Result<Answer, SqlError> {
    if lost then Err(ConnectionLost) else Execute(rows, text, args)
  }
}
