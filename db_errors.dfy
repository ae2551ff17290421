/**
 * Errors of the SQLite adapter (crates/garden-db/src/error.rs) and their
 * translation into repository errors. A driver or library error is
 * represented by the text it displays.
 */
module DbErrors {
  import opened Strings
  import Errors

  /** Database-specific errors. */
  datatype DbError =
    | Sqlx(driverMessage: string)
    | Migration(cause: string)
    | Serialization(cause: string)
    | NotFound
    | Duplicate
    | Pool(message: string)
    | InvalidDatetime(field: string, value: string)
    | SchemaInvalid(message: string)

  /** The driver's message for a violated uniqueness constraint contains this. */
  const UniqueViolation: string := "UNIQUE constraint failed"

  /** The display text of each error. */
  function Display(err: DbError): (text: string)
  {
    match err
    case Sqlx(m) => "database error: " + m
    case Migration(m) => "migration error: " + m
    case Serialization(m) => "serialization error: " + m
    case NotFound => "record not found"
    case Duplicate => "duplicate record"
    case Pool(m) => "connection pool error: " + m
    case InvalidDatetime(field, value) => "invalid datetime format in field '" + field + "': " + value
    case SchemaInvalid(m) => "database schema invalid: " + m
  }

  /** Every display text carries the error's own message. */
  lemma DisplayCarriesDetails(err: DbError)
    ensures err.Sqlx? ==> Contains(Display(err), err.driverMessage)
    ensures err.Migration? || err.Serialization? ==> Contains(Display(err), err.cause)
    ensures err.Pool? || err.SchemaInvalid? ==> Contains(Display(err), err.message)
  {
    match err
    case Sqlx(m) => ContainsBothParts("database error: ", m);
    case Migration(m) => ContainsBothParts("migration error: ", m);
    case Serialization(m) => ContainsBothParts("serialization error: ", m);
    case Pool(m) => ContainsBothParts("connection pool error: ", m);
    case SchemaInvalid(m) => ContainsBothParts("database schema invalid: ", m);
    case _ =>
  }

  /** The display text of a bad datetime names both the field and the value. */
  lemma DisplayCarriesDatetime(field: string, value: string)
    ensures Contains(Display(InvalidDatetime(field, value)), field)
    ensures Contains(Display(InvalidDatetime(field, value)), value)
  {
    var text := Display(InvalidDatetime(field, value));
    var head := "invalid datetime format in field '";
    var tail := "': " + value;
    assert text == head + field + tail;
    ContainsMiddle(head, field, tail);
    ContainsMiddle(head + field + "': ", value, "");
    assert head + field + "': " + value + "" == text;
  }

  /**
   * `From<DbError> for RepoError`: the two record errors carry over; a
   * driver error whose message reports a violated uniqueness constraint is a
   * duplicate, any other keeps the driver's message; every other error
   * becomes a database error with its display text.
   */
  function ToRepoError(err: DbError): (r: Errors.RepoError)
    ensures r.NotFound? <==> err.NotFound?
    ensures r.Duplicate? <==> err.Duplicate? || (err.Sqlx? && Contains(err.driverMessage, UniqueViolation))
    ensures !r.Serialization?
    ensures r.Database? && err.Sqlx? ==> r.message == err.driverMessage
    ensures r.Database? && !err.Sqlx? ==> r.message == Display(err)
  {
    match err
    case NotFound => Errors.NotFound
    case Duplicate => Errors.Duplicate
    case Sqlx(m) => if Contains(m, UniqueViolation) then Errors.Duplicate else Errors.Database(m)
    case _ => Errors.Database(Display(err))
  }

  /**
   * A serialization failure in the adapter is not reported as a
   * serialization error of the repository: it arrives as a database error
   * whose text names it.
   */
  lemma SerializationBecomesDatabase(cause: string)
    ensures ToRepoError(Serialization(cause)) == Errors.Database("serialization error: " + cause)
    ensures Contains(ToRepoError(Serialization(cause)).message, cause)
  {
    DisplayCarriesDetails(Serialization(cause));
  }
}
