/**
 * Channel operations (crates/garden-core/src/services/channel.rs): validate,
 * build the channel, then write through the channel repository. The
 * `GardenService` channel operations take the same steps and call these.
 */
module ChannelService {
  import opened Common
  import opened Strings
  import opened Channels
  import opened Errors
  import opened Validation
  import opened Memory

  /**
   * The channel `create_channel` builds: the description is set exactly
   * when one is supplied.
   */
  function ChannelFrom(newChannel: NewChannel, id: ChannelId, now: Timestamp): (c: Channel)
    ensures c.id == id && c.title == newChannel.title
    ensures c.description == newChannel.description
    ensures c.createdAt == c.updatedAt == now
  {
    if newChannel.description.Some? then
      NewChannelWithDescription(id, newChannel.title, newChannel.description.value, now)
    else
      NewChannelWithTitle(id, newChannel.title, now)
  }

  /**
   * The channel after `update_channel`: the title is replaced only when one
   * is supplied, the description follows its field update, and the update
   * time is the current time.
   */
  function UpdatedChannel(channel: Channel, update: ChannelUpdate, now: Timestamp): (c: Channel)
    ensures c.id == channel.id && c.createdAt == channel.createdAt && c.updatedAt == now
    ensures update.title.None? ==> c.title == channel.title
    ensures update.title.Some? ==> c.title == update.title.value
    ensures c.description == update.description.Apply(channel.description)
  {
    var titled := if update.title.Some? then channel.(title := update.title.value) else channel;
    titled.(description := update.description.Apply(titled.description), updatedAt := now)
  }

  /** The default update changes nothing but the update time. */
  lemma DefaultUpdateOnlyTouchesTime(channel: Channel, now: Timestamp)
    ensures UpdatedChannel(channel, DefaultChannelUpdate, now) == channel.(updatedAt := now)
  {
    ApplyLaws(channel.description, "");
  }

  /** Applying the same update twice at the same instant is applying it once. */
  lemma UpdatedChannelIdempotent(channel: Channel, update: ChannelUpdate, now: Timestamp)
    ensures UpdatedChannel(UpdatedChannel(channel, update, now), update, now) == UpdatedChannel(channel, update, now)
  {
    ApplyOverwritesAndIsIdempotent(update.description, channel.description, update.description.Apply(channel.description));
  }

  /**
   * `create_channel`: a blank title is rejected before anything is written;
   * a taken identifier is the repository's `Duplicate`; otherwise the built
   * channel is stored and returned.
   */
  method CreateChannel(store: MemoryStore, newChannel: NewChannel, id: ChannelId, now: Timestamp)
    returns (r: Result<Channel, DomainError>)
    requires store.Valid()
    modifies store
    ensures store.Valid()
    ensures IsBlank(newChannel.title) ==> r == Err(InvalidInput("channel title cannot be empty")) && unchanged(store)
    ensures !IsBlank(newChannel.title) && id in old(store.channels) ==>
      r == Err(Repository(Duplicate)) && unchanged(store)
    ensures !IsBlank(newChannel.title) && id !in old(store.channels) ==>
      r == Ok(ChannelFrom(newChannel, id, now))
      && store.channels == old(store.channels)[id := r.value]
      && store.blocks == old(store.blocks) && store.connections == old(store.connections)
  {
    var valid := ValidateChannelTitle(newChannel.title);
    if valid.Err? {
      return Err(valid.error);
    }
    var channel := ChannelFrom(newChannel, id, now);
    var created := store.CreateChannel(channel);
    if created.Err? {
      return Err(Repository(created.error));
    }
    return Ok(channel);
  }

  /** `get_channel`: a missing identifier is `ChannelNotFound`. */
  function GetChannel(store: MemoryStore, id: ChannelId): (r: Result<Channel, DomainError>)
    reads store
    ensures r.Ok? <==> id in store.channels
    ensures r.Ok? ==> r.value == store.channels[id]
    ensures r.Err? ==> r.error == ChannelNotFound(id)
  {
    var found := store.GetChannel(id);
    if found.Some? then Ok(found.value) else Err(ChannelNotFound(id))
  }

  /** `list_channels`: the repository's page, never an error. */
  method ListChannels(store: MemoryStore, limit: nat, offset: nat)
    returns (r: Result<Page<Channel>, DomainError>, ghost ordered: seq<Channel>)
    requires store.Valid()
    ensures r.Ok?
    ensures r.value.total == |store.channels| && r.value.offset == offset && r.value.limit == limit
    ensures r.value.items == SkipTake(ordered, offset, limit)
    ensures forall i, j :: 0 <= i < j < |ordered| ==> ordered[i].createdAt >= ordered[j].createdAt
    ensures |ordered| == |store.channels|
    ensures forall c :: c in ordered <==> c in store.channels.Values
  {
    var page;
    page, ordered := store.ListChannels(limit, offset);
    return Ok(page), ordered;
  }

  /**
   * `update_channel`: an unknown identifier is `ChannelNotFound`; a supplied
   * blank title is rejected; otherwise the updated channel is stored and
   * returned.
   */
  method UpdateChannel(store: MemoryStore, id: ChannelId, update: ChannelUpdate, now: Timestamp)
    returns (r: Result<Channel, DomainError>)
    requires store.Valid()
    modifies store
    ensures store.Valid()
    ensures id !in old(store.channels) ==> r == Err(ChannelNotFound(id)) && unchanged(store)
    ensures id in old(store.channels) && update.title.Some? && IsBlank(update.title.value) ==>
      r == Err(InvalidInput("channel title cannot be empty")) && unchanged(store)
    ensures id in old(store.channels) && !(update.title.Some? && IsBlank(update.title.value)) ==>
      r == Ok(UpdatedChannel(old(store.channels[id]), update, now))
      && store.channels == old(store.channels)[id := r.value]
      && store.blocks == old(store.blocks) && store.connections == old(store.connections)
  {
    var got := GetChannel(store, id);
    if got.Err? {
      return Err(got.error);
    }
    var channel := got.value;
    if update.title.Some? {
      var valid := ValidateChannelTitle(update.title.value);
      if valid.Err? {
        return Err(valid.error);
      }
      channel := channel.(title := update.title.value);
    }
    channel := channel.(description := update.description.Apply(channel.description));
    channel := channel.(updatedAt := now);
    var updated := store.UpdateChannel(channel);
    match updated {
      case Err(e) => return Err(Repository(e));
      case Ok(_) => return Ok(channel);
    }
  }

  /** `delete_channel`: an unknown identifier is `ChannelNotFound`; otherwise it is removed. */
  method DeleteChannel(store: MemoryStore, id: ChannelId) returns (r: Result<(), DomainError>)
    requires store.Valid()
    modifies store
    ensures store.Valid()
    ensures id !in old(store.channels) ==> r == Err(ChannelNotFound(id)) && unchanged(store)
    ensures id in old(store.channels) ==>
      r == Ok(()) && store.channels == old(store.channels) - {id}
      && store.blocks == old(store.blocks) && store.connections == old(store.connections)
  {
    var got := GetChannel(store, id);
    if got.Err? {
      return Err(got.error);
    }
    var deleted := store.DeleteChannel(id);
    match deleted {
      case Err(e) => return Err(Repository(e));
      case Ok(_) => return Ok(());
    }
  }
}
