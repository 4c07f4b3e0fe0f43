/** The `Status` record (models/Status.js): one row per device id, holding a status drawn
    from a six-value enumeration that may not be null, and an `updatedAt` stamp but no
    `createdAt`. */
module Statuses {
  import opened Optional

  /** The values the `status` column's enumeration admits. */
  datatype StatusValue = Off | On | Closed | Open | Opening | Closing

  /** The text the enumeration stores for each value. */
  function Name(v: StatusValue): string
  {
    match v
    case Off => "off"
    case On => "on"
    case Closed => "closed"
    case Open => "open"
    case Opening => "opening"
    case Closing => "closing"
  }

  /** The enumeration value a text denotes, if any. */
  function Parse(s: string): (r: Option<StatusValue>)
    ensures r.Some? ==> Name(r.value) == s
    ensures r.None? <==> forall v: StatusValue :: Name(v) != s
  {
    if s == "off" then Some(Off)
    else if s == "on" then Some(On)
    else if s == "closed" then Some(Closed)
    else if s == "open" then Some(Open)
    else if s == "opening" then Some(Opening)
    else if s == "closing" then Some(Closing)
    else None
  }

  /** Every value survives being stored as text and read back. */
  lemma ParseName(v: StatusValue)
    ensures Parse(Name(v)) == Some(v)
  {
  }

  /** A row of the table. The record disables `createdAt`, so `updatedAt` is the only stamp. */
  datatype StatusRow = StatusRow(status: StatusValue, updatedAt: int)

  /** The table, keyed by its primary key `id`: a map holds at most one row per id. */
  type StatusTable = map<string, StatusRow>

  /** Why the record definition refuses a row. */
  datatype RowError = NullStatus | NotInEnumeration(given: string)

  /** The row the record definition admits for a `status` written at `now`: the status
      must be present (allowNull: false) and be one of the enumeration's values. */
  function ValidateRow(status: Option<string>, now: int): (r: Result<StatusRow, RowError>)
    ensures r.Success? <==> status.Some? && exists v: StatusValue :: Name(v) == status.value
    ensures r.Success? ==> Name(r.value.status) == status.value && r.value.updatedAt == now
    ensures status.None? ==> r == Failure(NullStatus)
  {
    match status
    case None => Failure(NullStatus)
    case Some(s) =>
      match Parse(s)
      case Some(v) => Success(StatusRow(v, now))
      case None => Failure(NotInEnumeration(s))
  }

  /** Insert-or-replace by primary key: the row for `id` becomes `row` and no other row
      changes, appears or disappears. */
  function Upsert(table: StatusTable, id: string, row: StatusRow): (t: StatusTable)
    ensures t.Keys == table.Keys + {id}
    ensures t[id] == row
    ensures forall k :: k in table && k != id ==> t[k] == table[k]
  {
    table[id := row]
  }
}
