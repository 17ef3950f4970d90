/**
 * The records of the star ledger. Timestamps are whole milliseconds since the
 * epoch (what `Date.prototype.getTime` returns); an optional field of the
 * source (`lastStarDate?`, `reason?`) is an `Option`.
 */
module Types {

  datatype Option<T> = None | Some(value: T)

  /** A tracked individual. */
  datatype Person = Person(
    id: string,
    name: string,
    stars: int,
    dateAdded: int,
    lastStarDate: Option<int>)

  /** The `action` field of an audit-log entry. */
  datatype ActionKind = Add | Remove

  /** An audit-log entry recording one star granted or revoked. */
  datatype StarAction = StarAction(
    id: string,
    personId: string,
    action: ActionKind,
    timestamp: int,
    reason: Option<string>)

  datatype SortBy = Name | Stars | DateAdded | LastStarDate

  datatype SortOrder = Asc | Desc

  /** The star glyph the views repeat, U+2B50. */
  const StarGlyph: char := '\U{2B50}'
}
