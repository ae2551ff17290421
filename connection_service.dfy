/**
 * Connection operations (crates/garden-core/src/services/connection.rs):
 * existence checks against the block and channel stores, then a write to
 * the connection list. `GardenService` takes the same steps and calls these.
 */
module ConnectionService {
  import opened Common
  import opened Channels
  import opened Blocks
  import opened Connections
  import opened Errors
  import opened Memory

  /** The checks of `connect_block` pass: both exist and the pair is not yet connected. */
  ghost predicate CanConnect(store: MemoryStore, blockId: BlockId, channelId: ChannelId)
    reads store
  {
    blockId in store.blocks && channelId in store.channels
    && !HasPair(store.connections, blockId, channelId)
  }

  /**
   * `connect_block`: `BlockNotFound`, then `ChannelNotFound`, then
   * `InvalidInput` for a pair already connected, each leaving the store as it
   * was. Otherwise one connection is appended, at the given position or at
   * the channel's next position, and returned as read back from the store.
   * The next position must fit in an `i32`.
   */
  method ConnectBlock(store: MemoryStore, blockId: BlockId, channelId: ChannelId, position: Option<i32>, now: Timestamp)
    returns (r: Result<Connection, DomainError>)
    requires store.Valid()
    requires position.None? && CanConnect(store, blockId, channelId) ==> RoomAfter(store.connections, channelId)
    modifies store
    ensures store.Valid()
    ensures blockId !in old(store.blocks) ==> r == Err(BlockNotFound(blockId)) && unchanged(store)
    ensures blockId in old(store.blocks) && channelId !in old(store.channels) ==>
      r == Err(ChannelNotFound(channelId)) && unchanged(store)
    ensures blockId in old(store.blocks) && channelId in old(store.channels)
            && HasPair(old(store.connections), blockId, channelId) ==>
      r == Err(InvalidInput("block is already connected to this channel")) && unchanged(store)
    ensures old(CanConnect(store, blockId, channelId)) ==>
      r == Ok(NewConnectionAt(blockId, channelId,
                if position.Some? then position.value else NextPositionIn(old(store.connections), channelId), now))
      && store.connections == old(store.connections) + [r.value]
      && store.channels == old(store.channels) && store.blocks == old(store.blocks)
    ensures PairsUnique(old(store.connections)) ==> PairsUnique(store.connections)
  {
    var block := store.GetBlock(blockId);
    if block.None? {
      return Err(BlockNotFound(blockId));
    }
    var channel := store.GetChannel(channelId);
    if channel.None? {
      return Err(ChannelNotFound(channelId));
    }
    var existing := store.GetConnection(blockId, channelId);
    if existing.Some? {
      return Err(InvalidInput("block is already connected to this channel"));
    }
    var pos := if position.Some? then position.value else store.NextPosition(channelId);
    var connected := store.Connect(blockId, channelId, pos, now);
    match connected {
      case Err(e) => return Err(Repository(e));
      case Ok(_) =>
    }
    FindAfterAppend(old(store.connections), NewConnectionAt(blockId, channelId, pos, now));
    var created := store.GetConnection(blockId, channelId);
    match created {
      case None => return Err(ConnectionNotFound(blockId, channelId));
      case Some(c) => return Ok(c);
    }
  }

  /**
   * `disconnect_block`: a pair that is not connected is `ConnectionNotFound`
   * and nothing changes; otherwise the pair's connections are removed.
   */
  method DisconnectBlock(store: MemoryStore, blockId: BlockId, channelId: ChannelId) returns (r: Result<(), DomainError>)
    requires store.Valid()
    modifies store
    ensures store.Valid()
    ensures !HasPair(old(store.connections), blockId, channelId) ==>
      r == Err(ConnectionNotFound(blockId, channelId)) && unchanged(store)
    ensures HasPair(old(store.connections), blockId, channelId) ==>
      r == Ok(()) && store.connections == WithoutPair(old(store.connections), blockId, channelId)
      && store.channels == old(store.channels) && store.blocks == old(store.blocks)
    ensures PairsUnique(old(store.connections)) ==> PairsUnique(store.connections)
  {
    var existing := store.GetConnection(blockId, channelId);
    if existing.None? {
      return Err(ConnectionNotFound(blockId, channelId));
    }
    var disconnected := store.Disconnect(blockId, channelId);
    match disconnected {
      case Err(e) => return Err(Repository(e));
      case Ok(_) => return Ok(());
    }
  }

  /** The blocks of (block, position) entries, in the same order. */
  function BlocksOf(entries: seq<(Block, i32)>): (r: seq<Block>)
    ensures |r| == |entries|
    ensures forall i :: 0 <= i < |entries| ==> r[i] == entries[i].0
  {
    seq(|entries|, i requires 0 <= i < |entries| => entries[i].0)
  }

  /**
   * `get_blocks_in_channel`: the channel's blocks in the repository's
   * position order, without the positions.
   */
  function GetBlocksInChannel(store: MemoryStore, channelId: ChannelId): (r: Result<seq<Block>, DomainError>)
    reads store
    ensures r.Ok? && r.value == BlocksOf(store.GetBlocksInChannel(channelId))
  {
    Ok(BlocksOf(store.GetBlocksInChannel(channelId)))
  }

  /** `get_channels_for_block`: the repository's answer, never an error. */
  function GetChannelsForBlock(store: MemoryStore, blockId: BlockId): (r: Result<seq<Channel>, DomainError>)
    reads store
    ensures r.Ok? && r.value == ChannelsForBlock(store.connections, store.channels, blockId)
  {
    Ok(store.GetChannelsForBlock(blockId))
  }

  /**
   * `reorder_block`: a pair that is not connected is `ConnectionNotFound`
   * and nothing changes; otherwise the pair's connection gets the new
   * position, which a lookup then reports.
   */
  method ReorderBlock(store: MemoryStore, channelId: ChannelId, blockId: BlockId, newPosition: i32)
    returns (r: Result<(), DomainError>)
    requires store.Valid()
    modifies store
    ensures store.Valid()
    ensures !HasPair(old(store.connections), blockId, channelId) ==>
      r == Err(ConnectionNotFound(blockId, channelId)) && unchanged(store)
    ensures HasPair(old(store.connections), blockId, channelId) ==>
      var i := FirstMatch(old(store.connections), blockId, channelId);
      r == Ok(())
      && store.connections == old(store.connections)[i := old(store.connections)[i].(position := newPosition)]
      && store.channels == old(store.channels) && store.blocks == old(store.blocks)
    ensures HasPair(old(store.connections), blockId, channelId) ==>
      var found := FindConnection(store.connections, blockId, channelId);
      found.Some? && found.value.position == newPosition
    ensures PairsUnique(old(store.connections)) ==> PairsUnique(store.connections)
  {
    var existing := store.GetConnection(blockId, channelId);
    if existing.None? {
      return Err(ConnectionNotFound(blockId, channelId));
    }
    FindAfterReposition(store.connections, blockId, channelId, newPosition);
    var reordered := store.Reorder(channelId, blockId, newPosition);
    match reordered {
      case Err(e) => return Err(Repository(e));
      case Ok(_) => return Ok(());
    }
  }
}
