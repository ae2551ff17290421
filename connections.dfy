/** Connections link blocks to channels (crates/garden-core/src/models/connection.rs). */
module Connections {
  import opened Common
  import opened Channels
  import opened Blocks

  /** One block in one channel, at a position that orders the channel. */
  datatype Connection = Connection(
    blockId: BlockId,
    channelId: ChannelId,
    position: i32,
    connectedAt: Timestamp)

  /** `Connection::new`: stamped with the current time, which is a parameter. */
  function NewConnectionAt(blockId: BlockId, channelId: ChannelId, position: i32, now: Timestamp): (c: Connection)
    ensures c.blockId == blockId && c.channelId == channelId
    ensures c.position == position && c.connectedAt == now
  {
    Connection(blockId, channelId, position, now)
  }

  /** Input of connecting; a `None` position means "append to the end". */
  datatype NewConnection = NewConnection(blockId: BlockId, channelId: ChannelId, position: Option<i32>)

  /** The connection is the one between `blockId` and `channelId`. */
  predicate Links(c: Connection, blockId: BlockId, channelId: ChannelId)
  {
    c.blockId == blockId && c.channelId == channelId
  }
}
