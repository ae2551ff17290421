/** Channels: named collections of blocks (crates/garden-core/src/models/channel.rs). */
module Channels {
  import opened Common

  /** A channel identifier wraps the string form of a UUID. */
  datatype ChannelId = ChannelId(value: string)

  function ChannelIdFromString(s: string): (id: ChannelId)
    ensures id.value == s
  {
    ChannelId(s)
  }

  datatype Channel = Channel(
    id: ChannelId,
    title: string,
    description: Option<string>,
    createdAt: Timestamp,
    updatedAt: Timestamp)

  /**
   * `Channel::new`: a fresh identifier and the current time are parameters.
   * The channel starts without a description and has not been updated since
   * it was created.
   */
  function NewChannelWithTitle(id: ChannelId, title: string, now: Timestamp): (c: Channel)
    ensures c.id == id && c.title == title
    ensures c.description == None
    ensures c.createdAt == c.updatedAt == now
  {
    Channel(id, title, None, now, now)
  }

  /** `Channel::with_description`: a new channel whose description is set. */
  function NewChannelWithDescription(id: ChannelId, title: string, description: string, now: Timestamp): (c: Channel)
    ensures c == NewChannelWithTitle(id, title, now).(description := Some(description))
  {
    var channel := NewChannelWithTitle(id, title, now);
    channel.(description := Some(description))
  }

  /** Input of channel creation. */
  datatype NewChannel = NewChannel(title: string, description: Option<string>)

  /** A partial update: `None` title keeps the current one. */
  datatype ChannelUpdate = ChannelUpdate(title: Option<string>, description: FieldUpdate<string>)

  /** `ChannelUpdate::default()`: changes nothing. */
  const DefaultChannelUpdate: ChannelUpdate := ChannelUpdate(None, Keep)
}
