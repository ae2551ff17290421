/** Domain and repository errors (crates/garden-core/src/error.rs). */
module Errors {
  import opened Channels
  import opened Blocks

  /** Errors of domain operations. */
  datatype DomainError =
    | ChannelNotFound(channelId: ChannelId)
    | BlockNotFound(blockId: BlockId)
    | ConnectionNotFound(missingBlock: BlockId, inChannel: ChannelId)
    | InvalidInput(message: string)
    | Repository(cause: RepoError)

  /** Errors of repository operations. */
  datatype RepoError =
    | NotFound
    | Duplicate
    | Database(message: string)
    | Serialization(message: string)
}
