/**
 * The in-memory repositories (crates/garden-core/src/ports/memory.rs), in the
 * configuration of its test fixture: one store of channels, one of blocks and
 * one list of connections, shared by the channel, block and connection
 * repositories. The pure functions below say what the repository operations
 * compute; the class `MemoryStore` holds the state and updates it in place.
 */
module Memory {
  import opened Common
  import opened Channels
  import opened Blocks
  import opened Connections
  import opened Errors
  import opened Ordering

  // ---------------------------------------------------------------------
  // Connection lists
  // ---------------------------------------------------------------------

  /** Some connection links `blockId` to `channelId` (`iter().any`). */
  predicate HasPair(conns: seq<Connection>, blockId: BlockId, channelId: ChannelId)
  {
    exists i :: 0 <= i < |conns| && Links(conns[i], blockId, channelId)
  }

  /** Index of the first connection between the two, or `|conns|` when there is none. */
  function FirstMatch(conns: seq<Connection>, blockId: BlockId, channelId: ChannelId): (i: nat)
    ensures i <= |conns|
    ensures i < |conns| ==> Links(conns[i], blockId, channelId)
    ensures forall j :: 0 <= j < i ==> !Links(conns[j], blockId, channelId)
    ensures i < |conns| <==> HasPair(conns, blockId, channelId)
  {
    if conns == [] then 0
    else if Links(conns[0], blockId, channelId) then 0
    else 1 + FirstMatch(conns[1..], blockId, channelId)
  }

  /** `iter().find`: the first connection between the two, if any. */
  function FindConnection(conns: seq<Connection>, blockId: BlockId, channelId: ChannelId): (r: Option<Connection>)
    ensures r.Some? <==> HasPair(conns, blockId, channelId)
    ensures r.Some? ==> Links(r.value, blockId, channelId) && r.value in conns
  {
    var i := FirstMatch(conns, blockId, channelId);
    if i < |conns| then Some(conns[i]) else None
  }

  /** At most one connection per (block, channel) pair. */
  ghost predicate PairsUnique(conns: seq<Connection>)
  {
    forall i, j :: 0 <= i < j < |conns| ==>
      !(conns[i].blockId == conns[j].blockId && conns[i].channelId == conns[j].channelId)
  }

  /**
   * `retain` of the connections that do not link the two: every other
   * connection is kept, in order, and only the pair's are dropped.
   */
  function WithoutPair(conns: seq<Connection>, blockId: BlockId, channelId: ChannelId): (r: seq<Connection>)
    ensures forall c :: c in r <==> c in conns && !Links(c, blockId, channelId)
    ensures !HasPair(r, blockId, channelId)
    ensures |r| == |conns| <==> !HasPair(conns, blockId, channelId)
    ensures |r| <= |conns|
    ensures !HasPair(conns, blockId, channelId) ==> r == conns
  {
    if conns == [] then []
    else
      var rest := WithoutPair(conns[1..], blockId, channelId);
      assert forall c :: c in conns <==> c == conns[0] || c in conns[1..] by {
        assert conns == [conns[0]] + conns[1..];
      }
      if Links(conns[0], blockId, channelId) then
        rest
      else
        assert HasPair(conns, blockId, channelId) ==> HasPair(conns[1..], blockId, channelId) by {
          if HasPair(conns, blockId, channelId) {
            var i :| 0 <= i < |conns| && Links(conns[i], blockId, channelId);
            assert conns[1..][i - 1] == conns[i];
          }
        }
        assert HasPair(conns[1..], blockId, channelId) ==> HasPair(conns, blockId, channelId) by {
          if HasPair(conns[1..], blockId, channelId) {
            var i :| 0 <= i < |conns[1..]| && Links(conns[1..][i], blockId, channelId);
            assert conns[i + 1] == conns[1..][i];
          }
        }
        assert conns == [conns[0]] + conns[1..];
        [conns[0]] + rest
  }

  /**
   * Removing a pair works piecewise: the survivors of a concatenation are
   * the survivors of each part, in the same order and with their repeats.
   */
  lemma {:induction false} WithoutPairAppend(a: seq<Connection>, b: seq<Connection>, blockId: BlockId, channelId: ChannelId)
    ensures WithoutPair(a + b, blockId, channelId) == WithoutPair(a, blockId, channelId) + WithoutPair(b, blockId, channelId)
  {
    if a == [] {
      assert a + b == b;
    } else {
      assert (a + b)[1..] == a[1..] + b;
      WithoutPairAppend(a[1..], b, blockId, channelId);
    }
  }

  /** Removing a pair keeps the other pairs unique, as `retain` only drops connections. */
  lemma {:induction false} WithoutPairKeepsPairsUnique(conns: seq<Connection>, blockId: BlockId, channelId: ChannelId)
    requires PairsUnique(conns)
    ensures PairsUnique(WithoutPair(conns, blockId, channelId))
  {
    if conns != [] {
      UniqueTail(conns);
      WithoutPairKeepsPairsUnique(conns[1..], blockId, channelId);
      if !Links(conns[0], blockId, channelId) {
        UniqueCons(conns[0], WithoutPair(conns[1..], blockId, channelId));
      }
    }
  }

  /** The tail of a list with unique pairs has unique pairs, none of them the head's. */
  lemma UniqueTail(conns: seq<Connection>)
    requires PairsUnique(conns) && conns != []
    ensures PairsUnique(conns[1..])
    ensures forall c :: c in conns[1..] ==> !Links(c, conns[0].blockId, conns[0].channelId)
  {
    forall c | c in conns[1..]
      ensures !Links(c, conns[0].blockId, conns[0].channelId)
    {
      var k :| 0 <= k < |conns[1..]| && conns[1..][k] == c;
      assert conns[k + 1] == c;
    }
  }

  /** A connection whose pair is not in a unique list can head it. */
  lemma UniqueCons(head: Connection, rest: seq<Connection>)
    requires PairsUnique(rest)
    requires forall c :: c in rest ==> !Links(c, head.blockId, head.channelId)
    ensures PairsUnique([head] + rest)
  {
    var all := [head] + rest;
    forall i, j | 0 <= i < j < |all|
      ensures !(all[i].blockId == all[j].blockId && all[i].channelId == all[j].channelId)
    {
      assert all[j] == rest[j - 1];
      if i == 0 {
        assert rest[j - 1] in rest;
      } else {
        assert all[i] == rest[i - 1];
      }
    }
  }

  /**
   * Searching a concatenation: the first half's match when it has one,
   * otherwise the second half's, shifted past the first.
   */
  lemma FirstMatchAppend(a: seq<Connection>, b: seq<Connection>, blockId: BlockId, channelId: ChannelId)
    ensures FirstMatch(a + b, blockId, channelId) ==
      if HasPair(a, blockId, channelId) then FirstMatch(a, blockId, channelId)
      else |a| + FirstMatch(b, blockId, channelId)
  {
    var ab := a + b;
    var i := FirstMatch(ab, blockId, channelId);
    var ia := FirstMatch(a, blockId, channelId);
    var ib := FirstMatch(b, blockId, channelId);
    assert forall j :: 0 <= j < |a| ==> ab[j] == a[j];
    assert forall j :: 0 <= j < |b| ==> ab[|a| + j] == b[j];
    if HasPair(a, blockId, channelId) {
      assert Links(ab[ia], blockId, channelId);
    } else if ib < |b| {
      assert Links(ab[|a| + ib], blockId, channelId);
    }
  }

  /** Once a pair is absent, the connection appended for it is the one found. */
  lemma FindAfterAppend(conns: seq<Connection>, conn: Connection)
    requires !HasPair(conns, conn.blockId, conn.channelId)
    ensures FindConnection(conns + [conn], conn.blockId, conn.channelId) == Some(conn)
  {
    FirstMatchAppend(conns, [conn], conn.blockId, conn.channelId);
  }

  /**
   * Changing the position of the matching connection leaves it the match:
   * a lookup after `reorder` finds the new position.
   */
  lemma FindAfterReposition(conns: seq<Connection>, blockId: BlockId, channelId: ChannelId, position: i32)
    requires HasPair(conns, blockId, channelId)
    ensures var i := FirstMatch(conns, blockId, channelId);
      FindConnection(conns[i := conns[i].(position := position)], blockId, channelId) ==
        Some(conns[i].(position := position))
  {
    var i := FirstMatch(conns, blockId, channelId);
    var after := conns[i := conns[i].(position := position)];
    assert Links(after[i], blockId, channelId);
    assert forall j :: 0 <= j < i ==> after[j] == conns[j];
  }

  /** Positions of the channel's connections stay below `i32::MAX`, so one more fits. */
  ghost predicate RoomAfter(conns: seq<Connection>, channelId: ChannelId)
  {
    forall i :: 0 <= i < |conns| && conns[i].channelId == channelId ==> conns[i].position < I32_MAX
  }

  /** `filter(channel).map(position).max()`. */
  function MaxPosition(conns: seq<Connection>, channelId: ChannelId): (m: Option<i32>)
    ensures m.None? <==> forall i :: 0 <= i < |conns| ==> conns[i].channelId != channelId
    ensures m.Some? ==> forall i :: 0 <= i < |conns| && conns[i].channelId == channelId ==>
      conns[i].position <= m.value
    ensures m.Some? ==> exists i :: 0 <= i < |conns| && conns[i].channelId == channelId && conns[i].position == m.value
  {
    if conns == [] then None
    else
      var rest := MaxPosition(conns[1..], channelId);
      assert forall i :: 1 <= i < |conns| ==> conns[i] == conns[1..][i - 1];
      if conns[0].channelId != channelId then
        if rest.Some? then
          var i :| 0 <= i < |conns[1..]| && conns[1..][i].channelId == channelId && conns[1..][i].position == rest.value;
          assert conns[i + 1] == conns[1..][i];
          rest
        else
          rest
      else if rest.None? || rest.value < conns[0].position then
        Some(conns[0].position)
      else
        var i :| 0 <= i < |conns[1..]| && conns[1..][i].channelId == channelId && conns[1..][i].position == rest.value;
        assert conns[i + 1] == conns[1..][i];
        rest
  }

  /**
   * `next_position`: one past the highest position in the channel, 0 for an
   * empty channel. It is above every position in the channel, and it is the
   * least such value when the channel has connections.
   */
  function NextPositionIn(conns: seq<Connection>, channelId: ChannelId): (p: i32)
    requires RoomAfter(conns, channelId)
    ensures forall i :: 0 <= i < |conns| && conns[i].channelId == channelId ==> conns[i].position < p
    ensures (forall i :: 0 <= i < |conns| ==> conns[i].channelId != channelId) ==> p == 0
    ensures (exists i :: 0 <= i < |conns| && conns[i].channelId == channelId) ==>
      exists i :: 0 <= i < |conns| && conns[i].channelId == channelId && conns[i].position == p - 1
  {
    var maxPos := MaxPosition(conns, channelId);
    (if maxPos.Some? then maxPos.value else -1) + 1
  }

  /** Some connection belongs to the channel. */
  predicate InChannel(conns: seq<Connection>, channelId: ChannelId)
  {
    exists i :: 0 <= i < |conns| && conns[i].channelId == channelId
  }

  /**
   * Appending a connection moves the next position of its own channel past
   * it (to exactly one after it when the channel was empty, positions may be
   * negative) and leaves every other channel's next position alone.
   */
  lemma NextPositionAfterAppend(conns: seq<Connection>, conn: Connection, channelId: ChannelId)
    requires RoomAfter(conns + [conn], channelId)
    ensures RoomAfter(conns, channelId)
    ensures conn.channelId != channelId ==> NextPositionIn(conns + [conn], channelId) == NextPositionIn(conns, channelId)
    ensures conn.channelId == channelId && !InChannel(conns, channelId) ==>
      NextPositionIn(conns + [conn], channelId) == conn.position + 1
    ensures conn.channelId == channelId && InChannel(conns, channelId) ==>
      NextPositionIn(conns + [conn], channelId) ==
        (if conn.position + 1 > NextPositionIn(conns, channelId) then conn.position + 1
         else NextPositionIn(conns, channelId))
  {
    var all := conns + [conn];
    assert forall i :: 0 <= i < |conns| ==> all[i] == conns[i];
    assert all[|conns|] == conn;
    var before := NextPositionIn(conns, channelId);
    var after := NextPositionIn(all, channelId);
    if InChannel(conns, channelId) {
      var ib :| 0 <= ib < |conns| && conns[ib].channelId == channelId && conns[ib].position == before - 1;
      assert all[ib] == conns[ib];
      var ia :| 0 <= ia < |all| && all[ia].channelId == channelId && all[ia].position == after - 1;
      if ia < |conns| {
        assert all[ia] == conns[ia];
      }
    }
  }

  // ---------------------------------------------------------------------
  // Joins with the block and channel stores
  // ---------------------------------------------------------------------

  /** The position component of a `(block, position)` entry. */
  function PositionKey(entry: (Block, i32)): int
  {
    entry.1
  }

  /**
   * `filter(channel).filter_map(block lookup)`: the channel's connections whose
   * block still exists, in connection order, as (block, position) entries.
   */
  function ChannelEntries(conns: seq<Connection>, blocks: map<BlockId, Block>, channelId: ChannelId): (r: seq<(Block, i32)>)
    ensures |r| <= |conns|
  {
    if conns == [] then []
    else
      var c := conns[0];
      (if c.channelId == channelId && c.blockId in blocks then [(blocks[c.blockId], c.position)] else [])
        + ChannelEntries(conns[1..], blocks, channelId)
  }

  /** The entries are exactly those of the channel's connections whose block exists. */
  lemma {:induction false} ChannelEntriesMembers(conns: seq<Connection>, blocks: map<BlockId, Block>, channelId: ChannelId)
    ensures forall e :: e in ChannelEntries(conns, blocks, channelId) <==> exists c :: c in conns && EntryOf(c, blocks, channelId, e)
  {
    if conns != [] {
      var c := conns[0];
      var head := if c.channelId == channelId && c.blockId in blocks then [(blocks[c.blockId], c.position)] else [];
      ChannelEntriesMembers(conns[1..], blocks, channelId);
      assert conns == [c] + conns[1..];
      forall e
        ensures e in ChannelEntries(conns, blocks, channelId) <==> exists d :: d in conns && EntryOf(d, blocks, channelId, e)
      {
        assert e in ChannelEntries(conns, blocks, channelId) <==> e in head || e in ChannelEntries(conns[1..], blocks, channelId);
        assert e in head <==> EntryOf(c, blocks, channelId, e);
      }
    }
  }

  /** `e` is the entry that connection `c` contributes to the channel's listing. */
  predicate EntryOf(c: Connection, blocks: map<BlockId, Block>, channelId: ChannelId, e: (Block, i32))
  {
    c.channelId == channelId && c.blockId in blocks && e == (blocks[c.blockId], c.position)
  }

  /**
   * `get_blocks_in_channel`: the channel's entries stably sorted by position
   * (`sort_by_key`).
   */
  function BlocksInChannel(conns: seq<Connection>, blocks: map<BlockId, Block>, channelId: ChannelId): seq<(Block, i32)>
  {
    StableSort(ChannelEntries(conns, blocks, channelId), PositionKey)
  }

  /**
   * The listing is ordered by position, holds exactly the entries of the
   * channel's connections whose block exists (with multiplicity), and keeps
   * connection order among equal positions.
   */
  lemma BlocksInChannelSpec(conns: seq<Connection>, blocks: map<BlockId, Block>, channelId: ChannelId)
    ensures var r := BlocksInChannel(conns, blocks, channelId);
      && (forall i, j :: 0 <= i < j < |r| ==> r[i].1 <= r[j].1)
      && multiset(r) == multiset(ChannelEntries(conns, blocks, channelId))
      && (forall p :: WithKey(r, PositionKey, p) == WithKey(ChannelEntries(conns, blocks, channelId), PositionKey, p))
      && (forall e :: e in r <==> exists c :: c in conns && EntryOf(c, blocks, channelId, e))
  {
    var entries := ChannelEntries(conns, blocks, channelId);
    var r := BlocksInChannel(conns, blocks, channelId);
    StableSortIsStableSort(entries, PositionKey);
    ChannelEntriesMembers(conns, blocks, channelId);
    forall e
      ensures e in r <==> e in entries
    {
      assert e in r <==> e in multiset(r);
      assert e in entries <==> e in multiset(entries);
    }
    forall i, j | 0 <= i < j < |r|
      ensures r[i].1 <= r[j].1
    {
      assert PositionKey(r[i]) <= PositionKey(r[j]);
    }
  }

  /**
   * `get_channels_for_block`: the channels of the block's connections that
   * still exist, in connection order.
   */
  function ChannelsForBlock(conns: seq<Connection>, channels: map<ChannelId, Channel>, blockId: BlockId): (r: seq<Channel>)
    ensures |r| <= |conns|
    ensures forall ch :: ch in r <==>
      exists c :: c in conns && c.blockId == blockId && c.channelId in channels && ch == channels[c.channelId]
  {
    if conns == [] then []
    else
      var c := conns[0];
      assert conns == [c] + conns[1..];
      (if c.blockId == blockId && c.channelId in channels then [channels[c.channelId]] else [])
        + ChannelsForBlock(conns[1..], channels, blockId)
  }

  /**
   * The in-memory store does not cascade: once a block is removed from the
   * block map it drops out of every channel listing, while its connections,
   * and so a lookup of the pair, remain.
   */
  lemma DeletedBlockLeavesListings(conns: seq<Connection>, blocks: map<BlockId, Block>, channelId: ChannelId, blockId: BlockId)
    requires forall id :: id in blocks ==> blocks[id].id == id
    ensures forall e :: e in BlocksInChannel(conns, blocks - {blockId}, channelId) ==> e.0.id != blockId
    ensures HasPair(conns, blockId, channelId) ==> FindConnection(conns, blockId, channelId).Some?
  {
    BlocksInChannelSpec(conns, blocks - {blockId}, channelId);
  }

  // ---------------------------------------------------------------------
  // Batches
  // ---------------------------------------------------------------------

  /** A batch connection request: block, channel, position. */
  type ConnectionTriple = (BlockId, ChannelId, i32)

  /** The connections `connect_batch` pushes, one per triple, in order. */
  function ConnectionsOf(triples: seq<ConnectionTriple>, now: Timestamp): (r: seq<Connection>)
    ensures |r| == |triples|
    ensures forall i :: 0 <= i < |triples| ==>
      r[i] == NewConnectionAt(triples[i].0, triples[i].1, triples[i].2, now)
  {
    seq(|triples|, i requires 0 <= i < |triples| => NewConnectionAt(triples[i].0, triples[i].1, triples[i].2, now))
  }

  /** No two triples name the same (block, channel) pair. */
  ghost predicate TriplePairsDistinct(triples: seq<ConnectionTriple>)
  {
    forall i, j :: 0 <= i < j < |triples| ==> !(triples[i].0 == triples[j].0 && triples[i].1 == triples[j].1)
  }

  /** Connecting a pair that is not yet connected keeps pairs unique. */
  lemma ConnectKeepsPairsUnique(conns: seq<Connection>, conn: Connection)
    requires PairsUnique(conns)
    requires !HasPair(conns, conn.blockId, conn.channelId)
    ensures PairsUnique(conns + [conn])
  {
    var all := conns + [conn];
    forall i, j | 0 <= i < j < |all|
      ensures !(all[i].blockId == all[j].blockId && all[i].channelId == all[j].channelId)
    {
      if j == |conns| {
        assert all[i] == conns[i];
        assert !Links(conns[i], conn.blockId, conn.channelId);
      } else {
        assert all[i] == conns[i] && all[j] == conns[j];
      }
    }
  }

  /**
   * A batch that passed the duplicate check keeps pairs unique provided its
   * own pairs are distinct; the check only looks at existing connections.
   */
  lemma BatchKeepsPairsUnique(conns: seq<Connection>, triples: seq<ConnectionTriple>, now: Timestamp)
    requires PairsUnique(conns)
    requires forall t :: t in triples ==> !HasPair(conns, t.0, t.1)
    requires TriplePairsDistinct(triples)
    ensures PairsUnique(conns + ConnectionsOf(triples, now))
  {
    var added := ConnectionsOf(triples, now);
    var all := conns + added;
    forall i, j | 0 <= i < j < |all|
      ensures !(all[i].blockId == all[j].blockId && all[i].channelId == all[j].channelId)
    {
      if j < |conns| {
        assert all[i] == conns[i] && all[j] == conns[j];
      } else if i < |conns| {
        var t := triples[j - |conns|];
        assert t in triples;
        assert all[j] == added[j - |conns|];
        assert all[i] == conns[i];
        assert !Links(conns[i], t.0, t.1);
      } else {
        assert all[i] == added[i - |conns|] && all[j] == added[j - |conns|];
      }
    }
  }

  /**
   * The duplicate check of a batch does not look inside the batch: the same
   * pair named twice is pushed twice.
   */
  lemma BatchRepeatingPairBreaksUniqueness(blockId: BlockId, channelId: ChannelId, now: Timestamp)
    ensures var triples := [(blockId, channelId, 0), (blockId, channelId, 1)];
      (forall t :: t in triples ==> !HasPair([], t.0, t.1))
      && !PairsUnique([] + ConnectionsOf(triples, now))
  {
    var triples: seq<ConnectionTriple> := [(blockId, channelId, 0), (blockId, channelId, 1)];
    var all := [] + ConnectionsOf(triples, now);
    assert all[0].blockId == all[1].blockId && all[0].channelId == all[1].channelId;
  }

  /**
   * After a batch is appended, the lookup of a triple's pair finds that
   * triple's connection, provided the pair was absent before and no earlier
   * triple names it.
   */
  lemma FindInBatch(conns: seq<Connection>, triples: seq<ConnectionTriple>, now: Timestamp, i: nat)
    requires i < |triples|
    requires !HasPair(conns, triples[i].0, triples[i].1)
    requires forall j :: 0 <= j < i ==> !(triples[j].0 == triples[i].0 && triples[j].1 == triples[i].1)
    ensures FindConnection(conns + ConnectionsOf(triples, now), triples[i].0, triples[i].1) ==
      Some(ConnectionsOf(triples, now)[i])
  {
    var added := ConnectionsOf(triples, now);
    FirstMatchAppend(conns, added, triples[i].0, triples[i].1);
    assert Links(added[i], triples[i].0, triples[i].1);
    assert forall j :: 0 <= j < i ==> !Links(added[j], triples[i].0, triples[i].1);
  }

  /** After a batch is appended, every triple's pair is connected. */
  lemma BatchPairsPresent(conns: seq<Connection>, triples: seq<ConnectionTriple>, now: Timestamp)
    ensures forall i :: 0 <= i < |triples| ==> HasPair(conns + ConnectionsOf(triples, now), triples[i].0, triples[i].1)
  {
    var all := conns + ConnectionsOf(triples, now);
    forall i | 0 <= i < |triples|
      ensures HasPair(all, triples[i].0, triples[i].1)
    {
      assert Links(all[|conns| + i], triples[i].0, triples[i].1);
    }
  }

  /** The map after inserting the batch's blocks in order (later ones win). */
  function InsertAll(m: map<BlockId, Block>, batch: seq<Block>): (r: map<BlockId, Block>)
    ensures forall k :: k in r <==> k in m || exists i :: 0 <= i < |batch| && batch[i].id == k
    ensures (forall k :: k in m ==> m[k].id == k) ==> forall k :: k in r ==> r[k].id == k
    ensures forall k :: k in r ==> (k in m && r[k] == m[k]) || r[k] in batch
    decreases |batch|
  {
    if batch == [] then m
    else
      assert forall i :: 1 <= i < |batch| ==> batch[i] == batch[1..][i - 1];
      InsertAll(m[batch[0].id := batch[0]], batch[1..])
  }

  /** A block of the batch whose identifier does not recur later in the batch is stored as given. */
  lemma {:induction false} InsertAllLastWins(m: map<BlockId, Block>, batch: seq<Block>, i: nat)
    requires i < |batch|
    requires forall j :: i < j < |batch| ==> batch[j].id != batch[i].id
    ensures batch[i].id in InsertAll(m, batch) && InsertAll(m, batch)[batch[i].id] == batch[i]
    decreases |batch|
  {
    assert forall j :: 1 <= j < |batch| ==> batch[j] == batch[1..][j - 1];
    if i > 0 {
      InsertAllLastWins(m[batch[0].id := batch[0]], batch[1..], i - 1);
    } else {
      InsertAllKeepsOthers(m[batch[0].id := batch[0]], batch[1..], batch[0].id);
    }
  }

  /** A stored block whose identifier the batch does not name is left as it was. */
  lemma {:induction false} InsertAllKeepsOthers(m: map<BlockId, Block>, batch: seq<Block>, k: BlockId)
    requires k in m
    requires forall i :: 0 <= i < |batch| ==> batch[i].id != k
    ensures k in InsertAll(m, batch) && InsertAll(m, batch)[k] == m[k]
    decreases |batch|
  {
    if batch != [] {
      assert forall j :: 1 <= j < |batch| ==> batch[1..][j - 1] == batch[j];
      InsertAllKeepsOthers(m[batch[0].id := batch[0]], batch[1..], k);
    }
  }

  /** `skip(offset).take(limit)`. */
  function SkipTake<T>(s: seq<T>, offset: nat, limit: nat): (r: seq<T>)
    ensures |r| == if offset >= |s| then 0 else if limit < |s| - offset then limit else |s| - offset
    ensures offset <= |s| ==> r == s[offset..offset + |r|]
  {
    if offset >= |s| then []
    else if limit < |s| - offset then s[offset..offset + limit]
    else s[offset..]
  }

  /**
   * A page cut from a listing of `total` items has a next page exactly when
   * the window ends before the listing does.
   */
  lemma PageOfListingHasNext<T>(s: seq<T>, offset: nat, limit: nat)
    ensures NewPage(SkipTake(s, offset, limit), |s|, offset, limit).HasNext() <==> offset + limit < |s|
  {
  }

  /** Sort key of `list`: newest first. */
  function NewestFirstKey(c: Channel): int
  {
    -c.createdAt
  }

  // ---------------------------------------------------------------------
  // The store
  // ---------------------------------------------------------------------

  /**
   * The shared state of the three in-memory repositories. Channels and
   * blocks are maps keyed by identifier; connections are kept in insertion
   * order.
   */
  class MemoryStore {
    var channels: map<ChannelId, Channel>
    var blocks: map<BlockId, Block>
    var connections: seq<Connection>

    /** Every stored channel and block sits under its own identifier. */
    ghost predicate Valid()
      reads this
    {
      (forall id :: id in channels ==> channels[id].id == id)
      && (forall id :: id in blocks ==> blocks[id].id == id)
    }

    /** The empty store of a fresh test fixture. */
    constructor ()
      ensures Valid()
      ensures channels == map[] && blocks == map[] && connections == []
    {
      channels := map[];
      blocks := map[];
      connections := [];
    }

    // ----- channel repository -----

    /** `create`: insert a channel whose identifier is not taken. */
    method CreateChannel(channel: Channel) returns (r: Result<(), RepoError>)
      requires Valid()
      modifies this
      ensures Valid()
      ensures channel.id in old(channels) ==> r == Err(Duplicate) && unchanged(this)
      ensures channel.id !in old(channels) ==>
        r == Ok(()) && channels == old(channels)[channel.id := channel]
        && blocks == old(blocks) && connections == old(connections)
    {
      if channel.id in channels {
        return Err(Duplicate);
      }
      channels := channels[channel.id := channel];
      return Ok(());
    }

    /** `get`: the channel stored under `id`, if any. */
    function GetChannel(id: ChannelId): (r: Option<Channel>)
      reads this
      ensures r.Some? <==> id in channels
      ensures r.Some? ==> r.value == channels[id]
    {
      if id in channels then Some(channels[id]) else None
    }

    /**
     * `list`: the total number of channels and the window
     * `[offset, offset + limit)` of all channels ordered newest first. The
     * order among channels created at the same instant is the unspecified
     * order in which the map yields its values, which `ordered` records.
     */
    method ListChannels(limit: nat, offset: nat) returns (page: Page<Channel>, ghost ordered: seq<Channel>)
      requires Valid()
      ensures page.total == |channels| && page.offset == offset && page.limit == limit
      ensures page.items == SkipTake(ordered, offset, limit)
      ensures forall i, j :: 0 <= i < j < |ordered| ==> ordered[i].createdAt >= ordered[j].createdAt
      ensures |ordered| == |channels|
      ensures forall c :: c in ordered <==> c in channels.Values
    {
      var remaining := channels.Keys;
      var collected: seq<Channel> := [];
      while remaining != {}
        invariant remaining <= channels.Keys
        invariant |collected| + |remaining| == |channels.Keys|
        invariant forall c :: c in collected ==> c.id in channels && channels[c.id] == c && c.id !in remaining
        invariant forall id :: id in channels && id !in remaining ==> channels[id] in collected
        decreases |remaining|
      {
        var id :| id in remaining;
        collected := collected + [channels[id]];
        remaining := remaining - {id};
      }
      var sorted := StableSort(collected, NewestFirstKey);
      ordered := sorted;
      StableSortIsStableSort(collected, NewestFirstKey);
      forall c
        ensures c in ordered <==> c in collected
      {
        assert c in ordered <==> c in multiset(ordered);
        assert c in collected <==> c in multiset(collected);
      }
      forall i, j | 0 <= i < j < |ordered|
        ensures ordered[i].createdAt >= ordered[j].createdAt
      {
        assert NewestFirstKey(ordered[i]) <= NewestFirstKey(ordered[j]);
      }
      page := NewPage(SkipTake(sorted, offset, limit), |channels|, offset, limit);
    }

    /** `update`: replace a stored channel. */
    method UpdateChannel(channel: Channel) returns (r: Result<(), RepoError>)
      requires Valid()
      modifies this
      ensures Valid()
      ensures channel.id !in old(channels) ==> r == Err(NotFound) && unchanged(this)
      ensures channel.id in old(channels) ==>
        r == Ok(()) && channels == old(channels)[channel.id := channel]
        && blocks == old(blocks) && connections == old(connections)
    {
      if channel.id !in channels {
        return Err(NotFound);
      }
      channels := channels[channel.id := channel];
      return Ok(());
    }

    /** `delete`: remove a channel; its connections are left in place. */
    method DeleteChannel(id: ChannelId) returns (r: Result<(), RepoError>)
      requires Valid()
      modifies this
      ensures Valid()
      ensures id !in old(channels) ==> r == Err(NotFound) && unchanged(this)
      ensures id in old(channels) ==>
        r == Ok(()) && channels == old(channels) - {id}
        && blocks == old(blocks) && connections == old(connections)
    {
      if id !in channels {
        return Err(NotFound);
      }
      channels := channels - {id};
      return Ok(());
    }

    /** `count`: the number of channels. */
    function CountChannels(): (n: nat)
      reads this
      ensures n == |channels.Keys|
    {
      |channels|
    }

    // ----- block repository -----

    /** `create`: insert a block whose identifier is not taken. */
    method CreateBlock(block: Block) returns (r: Result<(), RepoError>)
      requires Valid()
      modifies this
      ensures Valid()
      ensures block.id in old(blocks) ==> r == Err(Duplicate) && unchanged(this)
      ensures block.id !in old(blocks) ==>
        r == Ok(()) && blocks == old(blocks)[block.id := block]
        && channels == old(channels) && connections == old(connections)
    {
      if block.id in blocks {
        return Err(Duplicate);
      }
      blocks := blocks[block.id := block];
      return Ok(());
    }

    /**
     * `create_batch`: all or nothing. When any identifier is taken nothing is
     * inserted; otherwise every block is inserted in order.
     */
    method CreateBlockBatch(batch: seq<Block>) returns (r: Result<(), RepoError>)
      requires Valid()
      modifies this
      ensures Valid()
      ensures (exists i :: 0 <= i < |batch| && batch[i].id in old(blocks)) ==> r == Err(Duplicate) && unchanged(this)
      ensures (forall i :: 0 <= i < |batch| ==> batch[i].id !in old(blocks)) ==>
        r == Ok(()) && blocks == InsertAll(old(blocks), batch)
        && channels == old(channels) && connections == old(connections)
    {
      for i := 0 to |batch|
        invariant forall j :: 0 <= j < i ==> batch[j].id !in blocks
      {
        if batch[i].id in blocks {
          return Err(Duplicate);
        }
      }
      InsertBatch(batch);
      return Ok(());
    }

    /** The insertion half of `create_batch`: each block in turn, later ones replacing earlier. */
    method InsertBatch(batch: seq<Block>)
      requires Valid()
      modifies this
      ensures Valid()
      ensures blocks == InsertAll(old(blocks), batch)
      ensures channels == old(channels) && connections == old(connections)
    {
      for i := 0 to |batch|
        invariant InsertAll(blocks, batch[i..]) == InsertAll(old(blocks), batch)
        invariant Valid()
        invariant channels == old(channels) && connections == old(connections)
      {
        assert batch[i..][1..] == batch[i + 1..];
        blocks := blocks[batch[i].id := batch[i]];
      }
    }

    /** `get`: the block stored under `id`, if any. */
    function GetBlock(id: BlockId): (r: Option<Block>)
      reads this
      ensures r.Some? <==> id in blocks
      ensures r.Some? ==> r.value == blocks[id]
    {
      if id in blocks then Some(blocks[id]) else None
    }

    /** `update`: replace a stored block. */
    method UpdateBlock(block: Block) returns (r: Result<(), RepoError>)
      requires Valid()
      modifies this
      ensures Valid()
      ensures block.id !in old(blocks) ==> r == Err(NotFound) && unchanged(this)
      ensures block.id in old(blocks) ==>
        r == Ok(()) && blocks == old(blocks)[block.id := block]
        && channels == old(channels) && connections == old(connections)
    {
      if block.id !in blocks {
        return Err(NotFound);
      }
      blocks := blocks[block.id := block];
      return Ok(());
    }

    /** `delete`: remove a block; its connections are left in place. */
    method DeleteBlock(id: BlockId) returns (r: Result<(), RepoError>)
      requires Valid()
      modifies this
      ensures Valid()
      ensures id !in old(blocks) ==> r == Err(NotFound) && unchanged(this)
      ensures id in old(blocks) ==>
        r == Ok(()) && blocks == old(blocks) - {id}
        && channels == old(channels) && connections == old(connections)
    {
      if id !in blocks {
        return Err(NotFound);
      }
      blocks := blocks - {id};
      return Ok(());
    }

    // ----- connection repository -----

    /** `connect`: append a connection unless the pair is already connected. */
    method Connect(blockId: BlockId, channelId: ChannelId, position: i32, now: Timestamp)
      returns (r: Result<(), RepoError>)
      requires Valid()
      modifies this
      ensures Valid()
      ensures HasPair(old(connections), blockId, channelId) ==> r == Err(Duplicate) && unchanged(this)
      ensures !HasPair(old(connections), blockId, channelId) ==>
        r == Ok(()) && connections == old(connections) + [NewConnectionAt(blockId, channelId, position, now)]
        && channels == old(channels) && blocks == old(blocks)
      ensures PairsUnique(old(connections)) ==> PairsUnique(connections)
    {
      if HasPair(connections, blockId, channelId) {
        return Err(Duplicate);
      }
      if PairsUnique(connections) {
        ConnectKeepsPairsUnique(connections, NewConnectionAt(blockId, channelId, position, now));
      }
      connections := connections + [NewConnectionAt(blockId, channelId, position, now)];
      return Ok(());
    }

    /**
     * `connect_batch`: all or nothing. When any triple's pair is already
     * connected nothing changes; otherwise one connection per triple is
     * appended in order.
     */
    method ConnectBatch(triples: seq<ConnectionTriple>, now: Timestamp) returns (r: Result<(), RepoError>)
      requires Valid()
      modifies this
      ensures Valid()
      ensures (exists t :: t in triples && HasPair(old(connections), t.0, t.1)) ==> r == Err(Duplicate) && unchanged(this)
      ensures (forall t :: t in triples ==> !HasPair(old(connections), t.0, t.1)) ==>
        r == Ok(()) && connections == old(connections) + ConnectionsOf(triples, now)
        && channels == old(channels) && blocks == old(blocks)
      ensures PairsUnique(old(connections)) && TriplePairsDistinct(triples) ==> PairsUnique(connections)
    {
      for i := 0 to |triples|
        invariant forall j :: 0 <= j < i ==> !HasPair(connections, triples[j].0, triples[j].1)
      {
        if HasPair(connections, triples[i].0, triples[i].1) {
          return Err(Duplicate);
        }
      }
      assert forall t :: t in triples ==> !HasPair(connections, t.0, t.1);
      ghost var before := connections;
      for i := 0 to |triples|
        invariant connections == before + ConnectionsOf(triples[..i], now)
        invariant Valid() && channels == old(channels) && blocks == old(blocks)
      {
        assert ConnectionsOf(triples[..i + 1], now) == ConnectionsOf(triples[..i], now)
          + [NewConnectionAt(triples[i].0, triples[i].1, triples[i].2, now)];
        connections := connections + [NewConnectionAt(triples[i].0, triples[i].1, triples[i].2, now)];
      }
      assert triples[..|triples|] == triples;
      if PairsUnique(before) && TriplePairsDistinct(triples) {
        BatchKeepsPairsUnique(before, triples, now);
      }
      return Ok(());
    }

    /** `disconnect`: drop the pair's connections; `NotFound` when there were none. */
    method Disconnect(blockId: BlockId, channelId: ChannelId) returns (r: Result<(), RepoError>)
      requires Valid()
      modifies this
      ensures Valid()
      ensures connections == WithoutPair(old(connections), blockId, channelId)
      ensures PairsUnique(old(connections)) ==> PairsUnique(connections)
      ensures channels == old(channels) && blocks == old(blocks)
      ensures r.Err? <==> !HasPair(old(connections), blockId, channelId)
      ensures r.Err? ==> r.error == NotFound
    {
      if PairsUnique(connections) {
        WithoutPairKeepsPairsUnique(connections, blockId, channelId);
      }
      var initialLen := |connections|;
      connections := WithoutPair(connections, blockId, channelId);
      if |connections| == initialLen {
        return Err(NotFound);
      }
      return Ok(());
    }

    /** `get_blocks_in_channel`: the channel's blocks with positions, by position. */
    function GetBlocksInChannel(channelId: ChannelId): (r: seq<(Block, i32)>)
      reads this
      ensures r == BlocksInChannel(connections, blocks, channelId)
    {
      BlocksInChannel(connections, blocks, channelId)
    }

    /** `get_channels_for_block`: the block's channels, in connection order. */
    function GetChannelsForBlock(blockId: BlockId): (r: seq<Channel>)
      reads this
      ensures r == ChannelsForBlock(connections, channels, blockId)
    {
      ChannelsForBlock(connections, channels, blockId)
    }

    /** `get_connection`: the first connection between the two, if any. */
    function GetConnection(blockId: BlockId, channelId: ChannelId): (r: Option<Connection>)
      reads this
      ensures r == FindConnection(connections, blockId, channelId)
    {
      FindConnection(connections, blockId, channelId)
    }

    /**
     * `reorder`: set the position of the first connection between the two;
     * every other connection, and every other field, is unchanged.
     */
    method Reorder(channelId: ChannelId, blockId: BlockId, newPosition: i32) returns (r: Result<(), RepoError>)
      requires Valid()
      modifies this
      ensures Valid()
      ensures channels == old(channels) && blocks == old(blocks)
      ensures !HasPair(old(connections), blockId, channelId) ==> r == Err(NotFound) && connections == old(connections)
      ensures HasPair(old(connections), blockId, channelId) ==>
        var i := FirstMatch(old(connections), blockId, channelId);
        r == Ok(()) && connections == old(connections)[i := old(connections)[i].(position := newPosition)]
      ensures PairsUnique(old(connections)) ==> PairsUnique(connections)
    {
      var i := FirstMatch(connections, blockId, channelId);
      if i == |connections| {
        return Err(NotFound);
      }
      connections := connections[i := connections[i].(position := newPosition)];
      return Ok(());
    }

    /** `next_position`: one past the channel's highest position, 0 when empty. */
    function NextPosition(channelId: ChannelId): (p: i32)
      reads this
      requires RoomAfter(connections, channelId)
      ensures p == NextPositionIn(connections, channelId)
    {
      NextPositionIn(connections, channelId)
    }
  }
}
