/**
 * Block operations (crates/garden-core/src/services/block.rs). Creation,
 * lookup and deletion take the same steps as in `GardenService`, which calls
 * these; this `update_block` replaces content only and never touches the
 * archive metadata.
 */
module BlockService {
  import opened Common
  import opened Blocks
  import opened Errors
  import opened Validation
  import opened Memory

  /**
   * `create_block`: invalid content is rejected before anything is written;
   * a taken identifier is the repository's `Duplicate`; otherwise a block
   * holding the content, and none of the request's metadata, is stored and
   * returned.
   */
  method CreateBlock(store: MemoryStore, newBlock: NewBlock, id: BlockId, now: Timestamp)
    returns (r: Result<Block, DomainError>)
    requires store.Valid()
    modifies store
    ensures store.Valid()
    ensures !ContentAccepted(newBlock.content) ==>
      r == Err(ValidateBlockContent(newBlock.content).error) && unchanged(store)
    ensures ContentAccepted(newBlock.content) && id in old(store.blocks) ==>
      r == Err(Repository(Duplicate)) && unchanged(store)
    ensures ContentAccepted(newBlock.content) && id !in old(store.blocks) ==>
      r == Ok(NewBlockWithContent(id, newBlock.content, now))
      && store.blocks == old(store.blocks)[id := r.value]
      && store.channels == old(store.channels) && store.connections == old(store.connections)
  {
    var valid := ValidateBlockContent(newBlock.content);
    if valid.Err? {
      return Err(valid.error);
    }
    var block := NewBlockWithContent(id, newBlock.content, now);
    var created := store.CreateBlock(block);
    if created.Err? {
      return Err(Repository(created.error));
    }
    return Ok(block);
  }

  /** `get_block`: a missing identifier is `BlockNotFound`. */
  function GetBlock(store: MemoryStore, id: BlockId): (r: Result<Block, DomainError>)
    reads store
    ensures r.Ok? <==> id in store.blocks
    ensures r.Ok? ==> r.value == store.blocks[id]
    ensures r.Err? ==> r.error == BlockNotFound(id)
  {
    var found := store.GetBlock(id);
    if found.Some? then Ok(found.value) else Err(BlockNotFound(id))
  }

  /** The block after this `update_block`: new content when supplied, a new update time, nothing else. */
  function ContentUpdated(block: Block, content: Option<BlockContent>, now: Timestamp): (b: Block)
    ensures content.Some? ==> b.content == content.value
    ensures content.None? ==> b.content == block.content
    ensures b == block.(content := b.content, updatedAt := now)
  {
    var withContent := if content.Some? then block.(content := content.value) else block;
    withContent.(updatedAt := now)
  }

  /**
   * `update_block`: an unknown identifier is `BlockNotFound`; supplied
   * content that does not validate is rejected; otherwise the block with the
   * new content is stored and returned. The metadata updates in the request
   * are ignored.
   */
  method UpdateBlock(store: MemoryStore, id: BlockId, update: BlockUpdate, now: Timestamp)
    returns (r: Result<Block, DomainError>)
    requires store.Valid()
    modifies store
    ensures store.Valid()
    ensures id !in old(store.blocks) ==> r == Err(BlockNotFound(id)) && unchanged(store)
    ensures id in old(store.blocks) && update.content.Some? && !ContentAccepted(update.content.value) ==>
      r == Err(ValidateBlockContent(update.content.value).error) && unchanged(store)
    ensures id in old(store.blocks) && !(update.content.Some? && !ContentAccepted(update.content.value)) ==>
      r == Ok(ContentUpdated(old(store.blocks[id]), update.content, now))
      && store.blocks == old(store.blocks)[id := r.value]
      && store.channels == old(store.channels) && store.connections == old(store.connections)
  {
    var got := GetBlock(store, id);
    if got.Err? {
      return Err(got.error);
    }
    var block := got.value;
    if update.content.Some? {
      var valid := ValidateBlockContent(update.content.value);
      if valid.Err? {
        return Err(valid.error);
      }
      block := block.(content := update.content.value);
    }
    block := block.(updatedAt := now);
    var updated := store.UpdateBlock(block);
    match updated {
      case Err(e) => return Err(Repository(e));
      case Ok(_) => return Ok(block);
    }
  }

  /** `delete_block`: an unknown identifier is `BlockNotFound`; otherwise it is removed. */
  method DeleteBlock(store: MemoryStore, id: BlockId) returns (r: Result<(), DomainError>)
    requires store.Valid()
    modifies store
    ensures store.Valid()
    ensures id !in old(store.blocks) ==> r == Err(BlockNotFound(id)) && unchanged(store)
    ensures id in old(store.blocks) ==>
      r == Ok(()) && store.blocks == old(store.blocks) - {id}
      && store.channels == old(store.channels) && store.connections == old(store.connections)
  {
    var got := GetBlock(store, id);
    if got.Err? {
      return Err(got.error);
    }
    var deleted := store.DeleteBlock(id);
    match deleted {
      case Err(e) => return Err(Repository(e));
      case Ok(_) => return Ok(());
    }
  }
}
