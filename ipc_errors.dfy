/**
 * The errors the desktop shell returns to its frontend
 * (crates/garden-tauri/src/error.rs): a machine-readable code, a message
 * for display and, for a missing channel or block, the identifier.
 */
module IpcErrors {
  import opened Common
  import opened Strings
  import opened Channels
  import opened Blocks
  import Errors
  import DbErrors

  /** Machine-readable error codes. */
  datatype ErrorCode =
    | ChannelNotFound
    | BlockNotFound
    | ConnectionNotFound
    | ValidationError
    | DuplicateError
    | DatabaseError
    | InitializationError
    | MediaError
    | InternalError

  /** An error as the frontend receives it. */
  datatype TauriError = TauriError(code: ErrorCode, message: string, entityId: Option<string>)

  /** `TauriError::new`: an error about no particular entity. */
  function New(code: ErrorCode, message: string): (e: TauriError)
    ensures e.code == code && e.message == message && e.entityId.None?
  {
    TauriError(code, message, None)
  }

  /** `TauriError::with_entity`: an error naming the entity it concerns. */
  function WithEntity(code: ErrorCode, message: string, entityId: string): (e: TauriError)
    ensures e.code == code && e.message == message && e.entityId == Some(entityId)
  {
    TauriError(code, message, Some(entityId))
  }

  /** `TauriError::initialization`. */
  function Initialization(message: string): (e: TauriError)
    ensures e == New(InitializationError, message)
  {
    New(InitializationError, message)
  }

  /** `TauriError::internal`. */
  function Internal(message: string): (e: TauriError)
    ensures e == New(InternalError, message)
  {
    New(InternalError, message)
  }

  /** `TauriError::media`. */
  function Media(message: string): (e: TauriError)
    ensures e == New(MediaError, message)
  {
    New(MediaError, message)
  }

  /**
   * `From<RepoError>`: a duplicate is `DuplicateError`, a missing record and
   * a database failure are `DatabaseError` (the latter with the database's
   * message), a serialization failure is `InternalError`; no entity is named.
   */
  function FromRepoError(err: Errors.RepoError): (e: TauriError)
    ensures e.entityId.None?
    ensures e.code == DuplicateError <==> err.Duplicate?
    ensures e.code == DatabaseError <==> err.NotFound? || err.Database?
    ensures e.code == InternalError <==> err.Serialization?
    ensures err.NotFound? ==> e.message == "Record not found"
    ensures err.Duplicate? ==> e.message == "Record already exists"
    ensures err.Database? ==> e.message == err.message
    ensures err.Serialization? ==> e.message == "Serialization error: " + err.message && Contains(e.message, err.message)
  {
    match err
    case NotFound => New(DatabaseError, "Record not found")
    case Duplicate => New(DuplicateError, "Record already exists")
    case Database(msg) => New(DatabaseError, msg)
    case Serialization(msg) =>
      ContainsBothParts("Serialization error: ", msg);
      New(InternalError, "Serialization error: " + msg)
  }

  /**
   * `From<DomainError>`: each not-found error gets its own code and names
   * what is missing in the message; a missing channel or block is also
   * named as the entity. Invalid input keeps its message, and repository
   * errors are translated as above.
   */
  function FromDomainError(err: Errors.DomainError): (e: TauriError)
    ensures e.entityId.Some? <==> err.ChannelNotFound? || err.BlockNotFound?
    ensures err.ChannelNotFound? ==>
      e.code == ChannelNotFound && e.entityId == Some(err.channelId.value)
      && e.message == "Channel not found: " + err.channelId.value && Contains(e.message, err.channelId.value)
    ensures err.BlockNotFound? ==>
      e.code == BlockNotFound && e.entityId == Some(err.blockId.value)
      && e.message == "Block not found: " + err.blockId.value && Contains(e.message, err.blockId.value)
    ensures err.ConnectionNotFound? ==>
      e.code == ConnectionNotFound
      && e.message == "Connection not found: block " + err.missingBlock.value + " in channel " + err.inChannel.value
      && Contains(e.message, err.missingBlock.value) && Contains(e.message, err.inChannel.value)
    ensures err.InvalidInput? ==> e == New(ValidationError, err.message)
    ensures err.Repository? ==> e == FromRepoError(err.cause)
  {
    match err
    case ChannelNotFound(id) =>
      ContainsBothParts("Channel not found: ", id.value);
      WithEntity(ChannelNotFound, "Channel not found: " + id.value, id.value)
    case BlockNotFound(id) =>
      ContainsBothParts("Block not found: ", id.value);
      WithEntity(BlockNotFound, "Block not found: " + id.value, id.value)
    case ConnectionNotFound(blockId, channelId) =>
      var message := "Connection not found: block " + blockId.value + " in channel " + channelId.value;
      ContainsMiddle("Connection not found: block ", blockId.value, " in channel " + channelId.value);
      assert message == "Connection not found: block " + blockId.value + (" in channel " + channelId.value);
      ContainsBothParts("Connection not found: block " + blockId.value + " in channel ", channelId.value);
      New(ConnectionNotFound, message)
    case InvalidInput(msg) => New(ValidationError, msg)
    case Repository(repoErr) => FromRepoError(repoErr)
  }

  /**
   * The code tells the frontend which kind of domain error occurred: each
   * not-found kind and invalid input have a code of their own, repository
   * errors use the database codes, and initialization and media codes never
   * come from the domain.
   */
  lemma CodeIdentifiesKind(err: Errors.DomainError)
    ensures FromDomainError(err).code == ChannelNotFound <==> err.ChannelNotFound?
    ensures FromDomainError(err).code == BlockNotFound <==> err.BlockNotFound?
    ensures FromDomainError(err).code == ConnectionNotFound <==> err.ConnectionNotFound?
    ensures FromDomainError(err).code == ValidationError <==> err.InvalidInput?
    ensures FromDomainError(err).code in {DuplicateError, DatabaseError, InternalError} <==> err.Repository?
    ensures FromDomainError(err).code != InitializationError && FromDomainError(err).code != MediaError
  {
    if err.Repository? {
      var e := FromRepoError(err.cause);
      assert e.code == DuplicateError || e.code == DatabaseError || e.code == InternalError;
    }
  }

  /** `From<DbError>`: every adapter error is a `DatabaseError` carrying its display text. */
  function FromDbError(err: DbErrors.DbError): (e: TauriError)
    ensures e.code == DatabaseError && e.entityId.None?
    ensures e.message == DbErrors.Display(err)
  {
    New(DatabaseError, DbErrors.Display(err))
  }

  /**
   * The two paths from an adapter error disagree on duplicates: converted
   * directly it is a `DatabaseError`, converted through the repository error
   * it is a `DuplicateError`.
   */
  lemma DuplicateCodeDependsOnPath(err: DbErrors.DbError)
    ensures FromRepoError(DbErrors.ToRepoError(err)).code == DuplicateError <==>
      err.Duplicate? || (err.Sqlx? && Contains(err.driverMessage, DbErrors.UniqueViolation))
    ensures FromDbError(err).code == DatabaseError
  {
  }

  /** `Display for TauriError`: the code's name in brackets, then the message. */
  function Display(e: TauriError): (text: string)
    ensures Contains(text, e.message)
    ensures StartsWith(text, "[")
  {
    var prefix := "[" + CodeName(e.code) + "] ";
    ContainsBothParts(prefix, e.message);
    prefix + e.message
  }

  /** The name `{:?}` prints for a code. */
  function CodeName(code: ErrorCode): (name: string)
    ensures name != []
  {
    match code
    case ChannelNotFound => "ChannelNotFound"
    case BlockNotFound => "BlockNotFound"
    case ConnectionNotFound => "ConnectionNotFound"
    case ValidationError => "ValidationError"
    case DuplicateError => "DuplicateError"
    case DatabaseError => "DatabaseError"
    case InitializationError => "InitializationError"
    case MediaError => "MediaError"
    case InternalError => "InternalError"
  }
}
