/**
 * `GardenService` (crates/garden-core/src/services/garden.rs): the domain
 * operations over the channel, block and connection repositories, here the
 * shared in-memory store. Where the service takes exactly the steps of the
 * free functions in services/channel.rs, services/block.rs and
 * services/connection.rs it calls their models; `update_block`,
 * `create_blocks`, `connect_blocks` and the lookups are modelled here.
 */
module Garden {
  import opened Common
  import opened Strings
  import opened Channels
  import opened Blocks
  import opened Connections
  import opened Errors
  import opened Validation
  import opened Memory
  import ChannelService
  import BlockService
  import ConnectionService

  /**
   * What the service's validation keeps true of a store once it holds: keys
   * match identifiers, every channel title has a visible character and every
   * block's content passes validation. Repositories filled by other means
   * need not satisfy it, and the service works over them all the same.
   */
  ghost predicate WellFormed(store: MemoryStore)
    reads store
  {
    store.Valid()
    && (forall id :: id in store.channels ==> !IsBlank(store.channels[id].title))
    && (forall id :: id in store.blocks ==> ContentAccepted(store.blocks[id].content))
  }

  // ---------------------------------------------------------------------
  // Specification functions of the service's own operations
  // ---------------------------------------------------------------------

  /**
   * The block after `update_block`: content replaced when supplied, each of
   * the five metadata fields updated independently of the others, a new
   * update time, and identifier and creation time kept.
   */
  function UpdatedBlock(block: Block, update: BlockUpdate, now: Timestamp): (b: Block)
    ensures b.id == block.id && b.createdAt == block.createdAt && b.updatedAt == now
    ensures b.content == (if update.content.Some? then update.content.value else block.content)
    ensures b.sourceUrl == ApplyMetadata(update.sourceUrl, block.sourceUrl)
    ensures b.sourceTitle == ApplyMetadata(update.sourceTitle, block.sourceTitle)
    ensures b.creator == ApplyMetadata(update.creator, block.creator)
    ensures b.originalDate == ApplyMetadata(update.originalDate, block.originalDate)
    ensures b.notes == ApplyMetadata(update.notes, block.notes)
  {
    Block(block.id,
          if update.content.Some? then update.content.value else block.content,
          block.createdAt, now,
          ApplyMetadata(update.sourceUrl, block.sourceUrl),
          ApplyMetadata(update.sourceTitle, block.sourceTitle),
          ApplyMetadata(update.creator, block.creator),
          ApplyMetadata(update.originalDate, block.originalDate),
          ApplyMetadata(update.notes, block.notes))
  }

  /** The default update changes nothing but the update time. */
  lemma DefaultBlockUpdateOnlyTouchesTime(block: Block, now: Timestamp)
    ensures UpdatedBlock(block, DefaultBlockUpdate, now) == block.(updatedAt := now)
  {
  }

  /**
   * The service's `update_block` and the older one in services/block.rs agree
   * exactly when the update carries no metadata changes; a metadata change
   * the service applies is dropped by the older one.
   */
  lemma UpdateBlockAgreesWithLegacyWithoutMetadata(block: Block, update: BlockUpdate, now: Timestamp)
    ensures update.sourceUrl.None? && update.sourceTitle.None? && update.creator.None?
            && update.originalDate.None? && update.notes.None? ==>
      UpdatedBlock(block, update, now) == BlockService.ContentUpdated(block, update.content, now)
    ensures update.notes.Some? && update.notes.value.Apply(block.notes) != block.notes ==>
      UpdatedBlock(block, update, now).notes != BlockService.ContentUpdated(block, update.content, now).notes
  {
  }

  /** A block request whose content passes validation. */
  ghost predicate RequestAccepted(newBlock: NewBlock)
  {
    ContentAccepted(newBlock.content)
  }

  /** Index of the first request whose content does not validate, or the number of requests. */
  ghost function FirstInvalid(newBlocks: seq<NewBlock>): (i: nat)
    ensures i <= |newBlocks|
    ensures forall j :: 0 <= j < i ==> RequestAccepted(newBlocks[j])
    ensures i < |newBlocks| ==> !RequestAccepted(newBlocks[i])
  {
    if newBlocks == [] then 0
    else if !RequestAccepted(newBlocks[0]) then 0
    else 1 + FirstInvalid(newBlocks[1..])
  }

  /**
   * The outcome of validating the requests in order and stopping at the
   * first failure, as the `?` in the validation loop of `create_blocks` does.
   */
  function FirstError(newBlocks: seq<NewBlock>): (r: Check)
    ensures r.Err? ==> r.error.InvalidInput?
  {
    if newBlocks == [] then Ok(())
    else
      var valid := ValidateBlockContent(newBlocks[0].content);
      if valid.Err? then valid else FirstError(newBlocks[1..])
  }

  /**
   * `FirstError` succeeds exactly when every request is accepted, and
   * otherwise is the failure of the first request that is not.
   */
  lemma {:induction false} FirstErrorIsFirstInvalid(newBlocks: seq<NewBlock>)
    ensures FirstError(newBlocks).Ok? <==> FirstInvalid(newBlocks) == |newBlocks|
    ensures FirstError(newBlocks).Err? ==>
      FirstError(newBlocks) == ValidateBlockContent(newBlocks[FirstInvalid(newBlocks)].content)
  {
    if newBlocks != [] && RequestAccepted(newBlocks[0]) {
      FirstErrorIsFirstInvalid(newBlocks[1..]);
    }
  }

  /** The validation loop of `create_blocks`, returning the first failure. */
  method ValidateRequests(newBlocks: seq<NewBlock>) returns (r: Check)
    ensures r == FirstError(newBlocks)
  {
    for i := 0 to |newBlocks|
      invariant FirstError(newBlocks[i..]) == FirstError(newBlocks)
    {
      assert newBlocks[i..][1..] == newBlocks[i + 1..];
      var valid := ValidateBlockContent(newBlocks[i].content);
      if valid.Err? {
        return valid;
      }
    }
    return Ok(());
  }

  /** The blocks `create_blocks` builds: one per request, in order, with content only. */
  function BlocksFrom(newBlocks: seq<NewBlock>, ids: seq<BlockId>, now: Timestamp): (r: seq<Block>)
    requires |ids| == |newBlocks|
    ensures |r| == |newBlocks|
    ensures forall i :: 0 <= i < |r| ==> r[i] == NewBlockWithContent(ids[i], newBlocks[i].content, now)
  {
    seq(|newBlocks|, i requires 0 <= i < |newBlocks| => NewBlockWithContent(ids[i], newBlocks[i].content, now))
  }

  /** Inserting blocks whose content is accepted into a map of such blocks keeps every stored content accepted. */
  lemma InsertAllKeepsContentAccepted(m: map<BlockId, Block>, newBlocks: seq<NewBlock>, ids: seq<BlockId>, now: Timestamp)
    requires |ids| == |newBlocks|
    requires forall id :: id in m ==> ContentAccepted(m[id].content)
    requires forall j :: 0 <= j < |newBlocks| ==> RequestAccepted(newBlocks[j])
    ensures forall id :: id in InsertAll(m, BlocksFrom(newBlocks, ids, now)) ==>
      ContentAccepted(InsertAll(m, BlocksFrom(newBlocks, ids, now))[id].content)
  {
    var batch := BlocksFrom(newBlocks, ids, now);
    var r := InsertAll(m, batch);
    forall id | id in r
      ensures ContentAccepted(r[id].content)
    {
      if !(id in m && r[id] == m[id]) {
        var j :| 0 <= j < |batch| && batch[j] == r[id];
        assert r[id].content == newBlocks[j].content;
      }
    }
  }

  /** The block exists and is not yet in the channel. */
  ghost predicate Connectable(store: MemoryStore, blockId: BlockId, channelId: ChannelId)
    reads store
  {
    blockId in store.blocks && !HasPair(store.connections, blockId, channelId)
  }

  /** Index of the first block `connect_blocks` rejects, or the number of blocks. */
  ghost function FirstUnconnectable(store: MemoryStore, blockIds: seq<BlockId>, channelId: ChannelId): (k: nat)
    reads store
    ensures k <= |blockIds|
    ensures forall j :: 0 <= j < k ==> Connectable(store, blockIds[j], channelId)
    ensures k < |blockIds| ==> !Connectable(store, blockIds[k], channelId)
  {
    if blockIds == [] then 0
    else if !Connectable(store, blockIds[0], channelId) then 0
    else 1 + FirstUnconnectable(store, blockIds[1..], channelId)
  }

  /**
   * The outcome of the per-block checks of `connect_blocks`, in input order:
   * the first block that is missing or already in the channel decides the
   * error.
   */
  function FirstConnectError(store: MemoryStore, blockIds: seq<BlockId>, channelId: ChannelId): (r: Result<(), DomainError>)
    reads store
  {
    if blockIds == [] then Ok(())
    else if blockIds[0] !in store.blocks then Err(BlockNotFound(blockIds[0]))
    else if HasPair(store.connections, blockIds[0], channelId) then
      Err(InvalidInput(AlreadyConnectedMessage(blockIds[0])))
    else FirstConnectError(store, blockIds[1..], channelId)
  }

  /**
   * The checks pass exactly when every block is connectable; otherwise the
   * error names the first block that is not, as missing or as already
   * connected.
   */
  lemma {:induction false} FirstConnectErrorIsFirstUnconnectable(store: MemoryStore, blockIds: seq<BlockId>, channelId: ChannelId)
    ensures FirstConnectError(store, blockIds, channelId).Ok? <==> FirstUnconnectable(store, blockIds, channelId) == |blockIds|
    ensures FirstConnectError(store, blockIds, channelId).Err? ==>
      var bad := blockIds[FirstUnconnectable(store, blockIds, channelId)];
      FirstConnectError(store, blockIds, channelId)
        == if bad !in store.blocks then Err(BlockNotFound(bad)) else Err(InvalidInput(AlreadyConnectedMessage(bad)))
  {
    if blockIds != [] && Connectable(store, blockIds[0], channelId) {
      FirstConnectErrorIsFirstUnconnectable(store, blockIds[1..], channelId);
    }
  }

  /**
   * The read-back of `connect_blocks`: the connection of each block in the
   * channel, in input order, skipping a block that has none.
   */
  function FoundConnections(conns: seq<Connection>, blockIds: seq<BlockId>, channelId: ChannelId): (r: seq<Connection>)
    ensures |r| <= |blockIds|
  {
    if blockIds == [] then []
    else
      var found := FindConnection(conns, blockIds[0], channelId);
      (if found.Some? then [found.value] else []) + FoundConnections(conns, blockIds[1..], channelId)
  }

  /** When every block is in the channel, the read-back has one connection per block, each the one a lookup finds. */
  lemma {:induction false} FoundConnectionsWhenAllPresent(conns: seq<Connection>, blockIds: seq<BlockId>, channelId: ChannelId)
    requires forall i :: 0 <= i < |blockIds| ==> HasPair(conns, blockIds[i], channelId)
    ensures |FoundConnections(conns, blockIds, channelId)| == |blockIds|
    ensures forall i :: 0 <= i < |blockIds| ==>
      Some(FoundConnections(conns, blockIds, channelId)[i]) == FindConnection(conns, blockIds[i], channelId)
  {
    if blockIds != [] {
      var rest := blockIds[1..];
      assert forall i :: 0 <= i < |rest| ==> rest[i] == blockIds[i + 1];
      FoundConnectionsWhenAllPresent(conns, rest, channelId);
    }
  }

  /** The position of the first block of a batch: the given one, or the channel's next position. */
  function BatchStart(conns: seq<Connection>, channelId: ChannelId, startingPosition: Option<i32>): (p: i32)
    requires startingPosition.None? ==> RoomAfter(conns, channelId)
  {
    if startingPosition.Some? then startingPosition.value else NextPositionIn(conns, channelId)
  }

  /** The positions of a batch of `n` blocks can be computed and fit in an `i32`. */
  ghost predicate BatchFits(conns: seq<Connection>, channelId: ChannelId, startingPosition: Option<i32>, n: nat)
  {
    (startingPosition.None? ==> RoomAfter(conns, channelId))
    && BatchStart(conns, channelId, startingPosition) + n <= I32_MAX + 1
  }

  /** The triples of `connect_blocks`: block `i` goes to position `start + i`. */
  function BatchTriples(blockIds: seq<BlockId>, channelId: ChannelId, start: i32): (r: seq<ConnectionTriple>)
    requires start + |blockIds| <= I32_MAX + 1
    ensures |r| == |blockIds|
    ensures forall i :: 0 <= i < |r| ==> r[i] == (blockIds[i], channelId, start + i)
  {
    seq(|blockIds|, i requires 0 <= i < |blockIds| => (blockIds[i], channelId, start + i))
  }

  /**
   * The batch `connect_blocks` writes repeats no pair when the blocks are
   * distinct, and meets no existing pair when none of the blocks is in the
   * channel yet.
   */
  lemma BatchTriplesFree(before: seq<Connection>, blockIds: seq<BlockId>, channelId: ChannelId, start: i32)
    requires start + |blockIds| <= I32_MAX + 1
    ensures (forall i :: 0 <= i < |blockIds| ==> !HasPair(before, blockIds[i], channelId)) ==>
      forall t :: t in BatchTriples(blockIds, channelId, start) ==> !HasPair(before, t.0, t.1)
    ensures (forall i, j :: 0 <= i < j < |blockIds| ==> blockIds[i] != blockIds[j]) ==>
      TriplePairsDistinct(BatchTriples(blockIds, channelId, start))
  {
    var triples := BatchTriples(blockIds, channelId, start);
    if forall i :: 0 <= i < |blockIds| ==> !HasPair(before, blockIds[i], channelId) {
      forall t | t in triples
        ensures !HasPair(before, t.0, t.1)
      {
        var i :| 0 <= i < |triples| && triples[i] == t;
        assert t.0 == blockIds[i];
      }
    }
  }

  /**
   * The read-back after a batch finds one connection per block, the one a
   * lookup finds; when the blocks are distinct and none was in the channel
   * before, these are exactly the batch's connections, in input order.
   */
  lemma BatchReadBack(before: seq<Connection>, blockIds: seq<BlockId>, channelId: ChannelId, start: i32, now: Timestamp)
    requires start + |blockIds| <= I32_MAX + 1
    ensures var all := before + ConnectionsOf(BatchTriples(blockIds, channelId, start), now);
      var found := FoundConnections(all, blockIds, channelId);
      |found| == |blockIds|
      && forall i :: 0 <= i < |blockIds| ==> Some(found[i]) == FindConnection(all, blockIds[i], channelId)
    ensures (forall i :: 0 <= i < |blockIds| ==> !HasPair(before, blockIds[i], channelId))
            && (forall i, j :: 0 <= i < j < |blockIds| ==> blockIds[i] != blockIds[j]) ==>
      var found := FoundConnections(before + ConnectionsOf(BatchTriples(blockIds, channelId, start), now), blockIds, channelId);
      forall i :: 0 <= i < |blockIds| ==> found[i] == NewConnectionAt(blockIds[i], channelId, start + i, now)
  {
    var triples := BatchTriples(blockIds, channelId, start);
    var all := before + ConnectionsOf(triples, now);
    BatchPairsPresent(before, triples, now);
    forall i | 0 <= i < |blockIds|
      ensures HasPair(all, blockIds[i], channelId)
    {
      assert triples[i] == (blockIds[i], channelId, start + i);
    }
    FoundConnectionsWhenAllPresent(all, blockIds, channelId);
    var found := FoundConnections(all, blockIds, channelId);
    if (forall i :: 0 <= i < |blockIds| ==> !HasPair(before, blockIds[i], channelId))
       && (forall i, j :: 0 <= i < j < |blockIds| ==> blockIds[i] != blockIds[j]) {
      forall i | 0 <= i < |blockIds|
        ensures found[i] == NewConnectionAt(blockIds[i], channelId, start + i, now)
      {
        BatchLookupAt(before, blockIds, channelId, start, now, i);
      }
    }
  }

  /** The lookup of block `i`'s pair after the batch finds the connection at `start + i`. */
  lemma BatchLookupAt(before: seq<Connection>, blockIds: seq<BlockId>, channelId: ChannelId, start: i32, now: Timestamp, i: nat)
    requires start + |blockIds| <= I32_MAX + 1
    requires i < |blockIds|
    requires !HasPair(before, blockIds[i], channelId)
    requires forall j :: 0 <= j < i ==> blockIds[j] != blockIds[i]
    ensures FindConnection(before + ConnectionsOf(BatchTriples(blockIds, channelId, start), now), blockIds[i], channelId)
            == Some(NewConnectionAt(blockIds[i], channelId, start + i, now))
  {
    var triples := BatchTriples(blockIds, channelId, start);
    assert triples[i] == (blockIds[i], channelId, start + i);
    assert forall j :: 0 <= j < i ==> triples[j].0 == blockIds[j];
    FindInBatch(before, triples, now, i);
  }

  /** The message of `connect_blocks` for a block already in the channel. */
  function AlreadyConnectedMessage(blockId: BlockId): (m: string)
    ensures OccursAt(m, blockId.value, 6)
  {
    var m := "block " + blockId.value + " is already connected to this channel";
    assert m[6..6 + |blockId.value|] == blockId.value;
    m
  }

  // ---------------------------------------------------------------------
  // The service
  // ---------------------------------------------------------------------

  class GardenService {
    const store: MemoryStore

    /** The service needs only a consistent store; its validation keeps `WellFormed` once it holds. */
    ghost predicate Valid()
      reads store
    {
      store.Valid()
    }

    /** `GardenService::new` over any repositories, here any consistent store. */
    constructor (store: MemoryStore)
      requires store.Valid()
      ensures this.store == store
      ensures Valid()
    {
      this.store := store;
    }

    // ----- channels -----

    /** `create_channel`: as services/channel.rs. */
    method CreateChannel(newChannel: NewChannel, id: ChannelId, now: Timestamp) returns (r: Result<Channel, DomainError>)
      requires Valid()
      modifies store
      ensures Valid()
      ensures old(WellFormed(store)) ==> WellFormed(store)
      ensures IsBlank(newChannel.title) ==> r == Err(InvalidInput("channel title cannot be empty")) && unchanged(store)
      ensures !IsBlank(newChannel.title) && id in old(store.channels) ==>
        r == Err(Repository(Duplicate)) && unchanged(store)
      ensures !IsBlank(newChannel.title) && id !in old(store.channels) ==>
        r == Ok(ChannelService.ChannelFrom(newChannel, id, now))
        && store.channels == old(store.channels)[id := r.value]
        && store.blocks == old(store.blocks) && store.connections == old(store.connections)
    {
      r := ChannelService.CreateChannel(store, newChannel, id, now);
    }

    /** `get_channel`: a missing identifier is `ChannelNotFound`. */
    function GetChannel(id: ChannelId): (r: Result<Channel, DomainError>)
      reads store
      ensures r.Ok? <==> id in store.channels
      ensures r.Ok? ==> r.value == store.channels[id]
      ensures r.Err? ==> r.error == ChannelNotFound(id)
    {
      ChannelService.GetChannel(store, id)
    }

    /** `list_channels`: the repository's page. */
    method ListChannels(limit: nat, offset: nat) returns (r: Result<Page<Channel>, DomainError>, ghost ordered: seq<Channel>)
      requires Valid()
      ensures r.Ok?
      ensures r.value.total == |store.channels| && r.value.offset == offset && r.value.limit == limit
      ensures r.value.items == SkipTake(ordered, offset, limit)
      ensures forall i, j :: 0 <= i < j < |ordered| ==> ordered[i].createdAt >= ordered[j].createdAt
      ensures |ordered| == |store.channels|
      ensures forall c :: c in ordered <==> c in store.channels.Values
    {
      r, ordered := ChannelService.ListChannels(store, limit, offset);
    }

    /** `update_channel`: as services/channel.rs. */
    method UpdateChannel(id: ChannelId, update: ChannelUpdate, now: Timestamp) returns (r: Result<Channel, DomainError>)
      requires Valid()
      modifies store
      ensures Valid()
      ensures old(WellFormed(store)) ==> WellFormed(store)
      ensures id !in old(store.channels) ==> r == Err(ChannelNotFound(id)) && unchanged(store)
      ensures id in old(store.channels) && update.title.Some? && IsBlank(update.title.value) ==>
        r == Err(InvalidInput("channel title cannot be empty")) && unchanged(store)
      ensures id in old(store.channels) && !(update.title.Some? && IsBlank(update.title.value)) ==>
        r == Ok(ChannelService.UpdatedChannel(old(store.channels[id]), update, now))
        && store.channels == old(store.channels)[id := r.value]
        && store.blocks == old(store.blocks) && store.connections == old(store.connections)
    {
      r := ChannelService.UpdateChannel(store, id, update, now);
    }

    /** `delete_channel`: as services/channel.rs; the channel's connections stay. */
    method DeleteChannel(id: ChannelId) returns (r: Result<(), DomainError>)
      requires Valid()
      modifies store
      ensures Valid()
      ensures old(WellFormed(store)) ==> WellFormed(store)
      ensures id !in old(store.channels) ==> r == Err(ChannelNotFound(id)) && unchanged(store)
      ensures id in old(store.channels) ==>
        r == Ok(()) && store.channels == old(store.channels) - {id}
        && store.blocks == old(store.blocks) && store.connections == old(store.connections)
    {
      r := ChannelService.DeleteChannel(store, id);
    }

    /** `count_channels`: the number of channels. */
    function CountChannels(): (r: Result<nat, DomainError>)
      reads store
      ensures r.Ok? && r.value == |store.channels.Keys|
    {
      Ok(store.CountChannels())
    }

    // ----- blocks -----

    /** `create_block`: as services/block.rs; the request's metadata is not stored. */
    method CreateBlock(newBlock: NewBlock, id: BlockId, now: Timestamp) returns (r: Result<Block, DomainError>)
      requires Valid()
      modifies store
      ensures Valid()
      ensures old(WellFormed(store)) ==> WellFormed(store)
      ensures !ContentAccepted(newBlock.content) ==>
        r == Err(ValidateBlockContent(newBlock.content).error) && unchanged(store)
      ensures ContentAccepted(newBlock.content) && id in old(store.blocks) ==>
        r == Err(Repository(Duplicate)) && unchanged(store)
      ensures ContentAccepted(newBlock.content) && id !in old(store.blocks) ==>
        r == Ok(NewBlockWithContent(id, newBlock.content, now))
        && store.blocks == old(store.blocks)[id := r.value]
        && store.channels == old(store.channels) && store.connections == old(store.connections)
    {
      r := BlockService.CreateBlock(store, newBlock, id, now);
    }

    /**
     * `create_blocks`: every request is validated before anything is built
     * or written, so the first invalid one fails the whole batch; then the
     * batch is inserted all or nothing, and the built blocks are returned in
     * request order. One fresh identifier per request is a parameter.
     */
    method CreateBlocks(newBlocks: seq<NewBlock>, ids: seq<BlockId>, now: Timestamp) returns (r: Result<seq<Block>, DomainError>)
      requires Valid()
      requires |ids| == |newBlocks|
      modifies store
      ensures Valid()
      ensures old(WellFormed(store)) ==> WellFormed(store)
      ensures FirstInvalid(newBlocks) < |newBlocks| ==>
        r == Err(ValidateBlockContent(newBlocks[FirstInvalid(newBlocks)].content).error) && unchanged(store)
      ensures FirstInvalid(newBlocks) == |newBlocks| && (exists i :: 0 <= i < |ids| && ids[i] in old(store.blocks)) ==>
        r == Err(Repository(Duplicate)) && unchanged(store)
      ensures FirstInvalid(newBlocks) == |newBlocks| && (forall i :: 0 <= i < |ids| ==> ids[i] !in old(store.blocks)) ==>
        r == Ok(BlocksFrom(newBlocks, ids, now))
        && store.blocks == InsertAll(old(store.blocks), r.value)
        && store.channels == old(store.channels) && store.connections == old(store.connections)
    {
      var valid := ValidateRequests(newBlocks);
      FirstErrorIsFirstInvalid(newBlocks);
      if valid.Err? {
        return Err(valid.error);
      }
      r := InsertRequests(newBlocks, ids, now);
    }

    /**
     * The writing half of `create_blocks`, once every request has passed
     * validation: build one block per request and insert them all or none.
     */
    method InsertRequests(newBlocks: seq<NewBlock>, ids: seq<BlockId>, now: Timestamp) returns (r: Result<seq<Block>, DomainError>)
      requires Valid()
      requires |ids| == |newBlocks|
      requires forall j :: 0 <= j < |newBlocks| ==> RequestAccepted(newBlocks[j])
      modifies store
      ensures Valid()
      ensures old(WellFormed(store)) ==> WellFormed(store)
      ensures (exists i :: 0 <= i < |ids| && ids[i] in old(store.blocks)) ==>
        r == Err(Repository(Duplicate)) && unchanged(store)
      ensures (forall i :: 0 <= i < |ids| ==> ids[i] !in old(store.blocks)) ==>
        r == Ok(BlocksFrom(newBlocks, ids, now))
        && store.blocks == InsertAll(old(store.blocks), r.value)
        && store.channels == old(store.channels) && store.connections == old(store.connections)
    {
      var blocks := BlocksFrom(newBlocks, ids, now);
      assert forall i :: 0 <= i < |blocks| ==> blocks[i].id == ids[i];
      ghost var wasWellFormed := WellFormed(store);
      if wasWellFormed {
        InsertAllKeepsContentAccepted(store.blocks, newBlocks, ids, now);
      }
      var created := store.CreateBlockBatch(blocks);
      if created.Err? {
        return Err(Repository(created.error));
      }
      assert store.blocks == InsertAll(old(store.blocks), blocks);
      return Ok(blocks);
    }

    /** `get_block`: a missing identifier is `BlockNotFound`. */
    function GetBlock(id: BlockId): (r: Result<Block, DomainError>)
      reads store
      ensures r.Ok? <==> id in store.blocks
      ensures r.Ok? ==> r.value == store.blocks[id]
      ensures r.Err? ==> r.error == BlockNotFound(id)
    {
      BlockService.GetBlock(store, id)
    }

    /**
     * `update_block`: an unknown identifier is `BlockNotFound`; supplied
     * content that does not validate is rejected; otherwise the content and
     * each metadata field are updated and the block is stored and returned.
     */
    method UpdateBlock(id: BlockId, update: BlockUpdate, now: Timestamp) returns (r: Result<Block, DomainError>)
      requires Valid()
      modifies store
      ensures Valid()
      ensures old(WellFormed(store)) ==> WellFormed(store)
      ensures id !in old(store.blocks) ==> r == Err(BlockNotFound(id)) && unchanged(store)
      ensures id in old(store.blocks) && update.content.Some? && !ContentAccepted(update.content.value) ==>
        r == Err(ValidateBlockContent(update.content.value).error) && unchanged(store)
      ensures id in old(store.blocks) && !(update.content.Some? && !ContentAccepted(update.content.value)) ==>
        r == Ok(UpdatedBlock(old(store.blocks[id]), update, now))
        && store.blocks == old(store.blocks)[id := r.value]
        && store.channels == old(store.channels) && store.connections == old(store.connections)
    {
      var got := GetBlock(id);
      if got.Err? {
        return Err(got.error);
      }
      var block := got.value;
      if update.content.Some? {
        var valid := ValidateBlockContent(update.content.value);
        if valid.Err? {
          return Err(valid.error);
        }
        block := block.(content := update.content.value);
      }
      block := block.(sourceUrl := ApplyMetadata(update.sourceUrl, block.sourceUrl),
                      sourceTitle := ApplyMetadata(update.sourceTitle, block.sourceTitle),
                      creator := ApplyMetadata(update.creator, block.creator),
                      originalDate := ApplyMetadata(update.originalDate, block.originalDate),
                      notes := ApplyMetadata(update.notes, block.notes));
      block := block.(updatedAt := now);
      var updated := store.UpdateBlock(block);
      match updated {
        case Err(e) => return Err(Repository(e));
        case Ok(_) => return Ok(block);
      }
    }

    /** `delete_block`: as services/block.rs; the block's connections stay. */
    method DeleteBlock(id: BlockId) returns (r: Result<(), DomainError>)
      requires Valid()
      modifies store
      ensures Valid()
      ensures old(WellFormed(store)) ==> WellFormed(store)
      ensures id !in old(store.blocks) ==> r == Err(BlockNotFound(id)) && unchanged(store)
      ensures id in old(store.blocks) ==>
        r == Ok(()) && store.blocks == old(store.blocks) - {id}
        && store.channels == old(store.channels) && store.connections == old(store.connections)
    {
      r := BlockService.DeleteBlock(store, id);
    }

    // ----- connections -----

    /** `connect_block`: as services/connection.rs. */
    method ConnectBlock(blockId: BlockId, channelId: ChannelId, position: Option<i32>, now: Timestamp)
      returns (r: Result<Connection, DomainError>)
      requires Valid()
      requires position.None? && ConnectionService.CanConnect(store, blockId, channelId) ==>
        RoomAfter(store.connections, channelId)
      modifies store
      ensures Valid()
      ensures old(WellFormed(store)) ==> WellFormed(store)
      ensures blockId !in old(store.blocks) ==> r == Err(BlockNotFound(blockId)) && unchanged(store)
      ensures blockId in old(store.blocks) && channelId !in old(store.channels) ==>
        r == Err(ChannelNotFound(channelId)) && unchanged(store)
      ensures blockId in old(store.blocks) && channelId in old(store.channels)
              && HasPair(old(store.connections), blockId, channelId) ==>
        r == Err(InvalidInput("block is already connected to this channel")) && unchanged(store)
      ensures old(ConnectionService.CanConnect(store, blockId, channelId)) ==>
        r == Ok(NewConnectionAt(blockId, channelId,
                  if position.Some? then position.value else NextPositionIn(old(store.connections), channelId), now))
        && store.connections == old(store.connections) + [r.value]
        && store.channels == old(store.channels) && store.blocks == old(store.blocks)
      ensures PairsUnique(old(store.connections)) ==> PairsUnique(store.connections)
    {
      r := ConnectionService.ConnectBlock(store, blockId, channelId, position, now);
    }

    /**
     * `connect_blocks`: the channel must exist; then each block in turn must
     * exist and not yet be in the channel, and the first that fails decides
     * the error. Nothing is written unless every check passes. Then block `i`
     * is connected at `start + i`, where `start` is the given position or the
     * channel's next one, in one batch, and the connections are read back in
     * input order. The positions must fit in an `i32`.
     */
    method ConnectBlocks(blockIds: seq<BlockId>, channelId: ChannelId, startingPosition: Option<i32>, now: Timestamp)
      returns (r: Result<seq<Connection>, DomainError>)
      requires Valid()
      requires channelId in store.channels && FirstUnconnectable(store, blockIds, channelId) == |blockIds| ==>
        BatchFits(store.connections, channelId, startingPosition, |blockIds|)
      modifies store
      ensures Valid()
      ensures old(WellFormed(store)) ==> WellFormed(store)
      ensures channelId !in old(store.channels) ==> r == Err(ChannelNotFound(channelId)) && unchanged(store)
      ensures channelId in old(store.channels) && old(FirstUnconnectable(store, blockIds, channelId)) < |blockIds| ==>
        var bad := blockIds[old(FirstUnconnectable(store, blockIds, channelId))];
        r == (if bad !in old(store.blocks) then Err(BlockNotFound(bad)) else Err(InvalidInput(AlreadyConnectedMessage(bad))))
        && unchanged(store)
      ensures channelId in old(store.channels) && old(FirstUnconnectable(store, blockIds, channelId)) == |blockIds| ==>
        var start := BatchStart(old(store.connections), channelId, startingPosition);
        store.connections == old(store.connections) + ConnectionsOf(BatchTriples(blockIds, channelId, start), now)
        && store.channels == old(store.channels) && store.blocks == old(store.blocks)
        && r.Ok? && r.value == FoundConnections(store.connections, blockIds, channelId)
      ensures r.Ok? ==>
        |r.value| == |blockIds|
        && (forall i :: 0 <= i < |blockIds| ==> Some(r.value[i]) == FindConnection(store.connections, blockIds[i], channelId))
      ensures r.Ok? && (forall i, j :: 0 <= i < j < |blockIds| ==> blockIds[i] != blockIds[j]) ==>
        var start := BatchStart(old(store.connections), channelId, startingPosition);
        forall i :: 0 <= i < |blockIds| ==> r.value[i] == NewConnectionAt(blockIds[i], channelId, start + i, now)
      ensures PairsUnique(old(store.connections)) && (forall i, j :: 0 <= i < j < |blockIds| ==> blockIds[i] != blockIds[j]) ==>
        PairsUnique(store.connections)
    {
      var channel := GetChannel(channelId);
      if channel.Err? {
        return Err(channel.error);
      }
      var checked := CheckBlocks(blockIds, channelId);
      FirstConnectErrorIsFirstUnconnectable(store, blockIds, channelId);
      if checked.Err? {
        return Err(checked.error);
      }
      r := ConnectChecked(blockIds, channelId, startingPosition, now);
    }

    /**
     * The writing half of `connect_blocks`, once every check has passed: one
     * batch at consecutive positions from `start`, then the read-back.
     */
    method ConnectChecked(blockIds: seq<BlockId>, channelId: ChannelId, startingPosition: Option<i32>, now: Timestamp)
      returns (r: Result<seq<Connection>, DomainError>)
      requires Valid()
      requires channelId in store.channels && FirstUnconnectable(store, blockIds, channelId) == |blockIds|
      requires BatchFits(store.connections, channelId, startingPosition, |blockIds|)
      modifies store
      ensures Valid()
      ensures old(WellFormed(store)) ==> WellFormed(store)
      ensures var start := BatchStart(old(store.connections), channelId, startingPosition);
        store.connections == old(store.connections) + ConnectionsOf(BatchTriples(blockIds, channelId, start), now)
        && store.channels == old(store.channels) && store.blocks == old(store.blocks)
        && r.Ok? && r.value == FoundConnections(store.connections, blockIds, channelId)
      ensures r.Ok? ==>
        |r.value| == |blockIds|
        && (forall i :: 0 <= i < |blockIds| ==> Some(r.value[i]) == FindConnection(store.connections, blockIds[i], channelId))
      ensures r.Ok? && (forall i, j :: 0 <= i < j < |blockIds| ==> blockIds[i] != blockIds[j]) ==>
        var start := BatchStart(old(store.connections), channelId, startingPosition);
        forall i :: 0 <= i < |blockIds| ==> r.value[i] == NewConnectionAt(blockIds[i], channelId, start + i, now)
      ensures PairsUnique(old(store.connections)) && (forall i, j :: 0 <= i < j < |blockIds| ==> blockIds[i] != blockIds[j]) ==>
        PairsUnique(store.connections)
    {
      var start := if startingPosition.Some? then startingPosition.value else store.NextPosition(channelId);
      assert start == BatchStart(store.connections, channelId, startingPosition);
      var triples := BatchTriples(blockIds, channelId, start);
      ghost var before := store.connections;
      assert forall i :: 0 <= i < |blockIds| ==> Connectable(store, blockIds[i], channelId);
      BatchTriplesFree(before, blockIds, channelId, start);
      var batch := store.ConnectBatch(triples, now);
      match batch {
        case Err(e) => return Err(Repository(e));
        case Ok(_) =>
      }
      BatchReadBack(before, blockIds, channelId, start, now);
      var result := ReadBack(blockIds, channelId);
      return Ok(result);
    }

    /** The check loop of `connect_blocks`: each block must exist and not yet be in the channel. */
    method CheckBlocks(blockIds: seq<BlockId>, channelId: ChannelId) returns (r: Result<(), DomainError>)
      ensures r == FirstConnectError(store, blockIds, channelId)
    {
      for i := 0 to |blockIds|
        invariant FirstConnectError(store, blockIds[i..], channelId) == FirstConnectError(store, blockIds, channelId)
      {
        assert blockIds[i..][1..] == blockIds[i + 1..];
        var block := GetBlock(blockIds[i]);
        if block.Err? {
          return Err(block.error);
        }
        var existing := store.GetConnection(blockIds[i], channelId);
        if existing.Some? {
          return Err(InvalidInput(AlreadyConnectedMessage(blockIds[i])));
        }
      }
      return Ok(());
    }

    /** The read-back loop of `connect_blocks`: each block's connection in the channel, skipping any not found. */
    method ReadBack(blockIds: seq<BlockId>, channelId: ChannelId) returns (result: seq<Connection>)
      ensures result == FoundConnections(store.connections, blockIds, channelId)
    {
      result := [];
      for i := 0 to |blockIds|
        invariant result + FoundConnections(store.connections, blockIds[i..], channelId)
                  == FoundConnections(store.connections, blockIds, channelId)
      {
        assert blockIds[i..][1..] == blockIds[i + 1..];
        var found := store.GetConnection(blockIds[i], channelId);
        if found.Some? {
          result := result + [found.value];
        }
      }
    }

    /** `disconnect_block`: as services/connection.rs. */
    method DisconnectBlock(blockId: BlockId, channelId: ChannelId) returns (r: Result<(), DomainError>)
      requires Valid()
      modifies store
      ensures Valid()
      ensures old(WellFormed(store)) ==> WellFormed(store)
      ensures !HasPair(old(store.connections), blockId, channelId) ==>
        r == Err(ConnectionNotFound(blockId, channelId)) && unchanged(store)
      ensures HasPair(old(store.connections), blockId, channelId) ==>
        r == Ok(()) && store.connections == WithoutPair(old(store.connections), blockId, channelId)
        && store.channels == old(store.channels) && store.blocks == old(store.blocks)
      ensures PairsUnique(old(store.connections)) ==> PairsUnique(store.connections)
    {
      r := ConnectionService.DisconnectBlock(store, blockId, channelId);
    }

    /** `get_blocks_in_channel`: as services/connection.rs. */
    function GetBlocksInChannel(channelId: ChannelId): (r: Result<seq<Block>, DomainError>)
      reads store
      ensures r.Ok? && r.value == ConnectionService.BlocksOf(BlocksInChannel(store.connections, store.blocks, channelId))
    {
      ConnectionService.GetBlocksInChannel(store, channelId)
    }

    /** `get_blocks_in_channel_with_positions`: the repository's listing, positions included. */
    function GetBlocksInChannelWithPositions(channelId: ChannelId): (r: Result<seq<(Block, i32)>, DomainError>)
      reads store
      ensures r.Ok? && r.value == BlocksInChannel(store.connections, store.blocks, channelId)
    {
      Ok(store.GetBlocksInChannel(channelId))
    }

    /** `get_channels_for_block`: as services/connection.rs. */
    function GetChannelsForBlock(blockId: BlockId): (r: Result<seq<Channel>, DomainError>)
      reads store
      ensures r.Ok? && r.value == ChannelsForBlock(store.connections, store.channels, blockId)
    {
      ConnectionService.GetChannelsForBlock(store, blockId)
    }

    /** `reorder_block`: as services/connection.rs. */
    method ReorderBlock(channelId: ChannelId, blockId: BlockId, newPosition: i32) returns (r: Result<(), DomainError>)
      requires Valid()
      modifies store
      ensures Valid()
      ensures old(WellFormed(store)) ==> WellFormed(store)
      ensures !HasPair(old(store.connections), blockId, channelId) ==>
        r == Err(ConnectionNotFound(blockId, channelId)) && unchanged(store)
      ensures HasPair(old(store.connections), blockId, channelId) ==>
        var i := FirstMatch(old(store.connections), blockId, channelId);
        r == Ok(())
        && store.connections == old(store.connections)[i := old(store.connections)[i].(position := newPosition)]
        && store.channels == old(store.channels) && store.blocks == old(store.blocks)
      ensures HasPair(old(store.connections), blockId, channelId) ==>
        var found := FindConnection(store.connections, blockId, channelId);
        found.Some? && found.value.position == newPosition
      ensures PairsUnique(old(store.connections)) ==> PairsUnique(store.connections)
    {
      r := ConnectionService.ReorderBlock(store, channelId, blockId, newPosition);
    }

    /** `get_connection`: the pair's connection, or `ConnectionNotFound`. */
    function GetConnection(blockId: BlockId, channelId: ChannelId): (r: Result<Connection, DomainError>)
      reads store
      ensures r.Ok? <==> HasPair(store.connections, blockId, channelId)
      ensures r.Ok? ==> Links(r.value, blockId, channelId) && r.value in store.connections
      ensures r.Err? ==> r.error == ConnectionNotFound(blockId, channelId)
    {
      var found := store.GetConnection(blockId, channelId);
      if found.Some? then Ok(found.value) else Err(ConnectionNotFound(blockId, channelId))
    }
  }
}
