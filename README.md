# Garden domain core in Dafny

Garden is a personal archive. It has **channels**, which are named collections, and **blocks**, which are pieces of content. A block holds one of:

- text;
- a link;
- an image, a video or an audio file, stored under a media root.

A **connection** places a block in a channel at an integer position. A connection has no identifier of its own. It is the pair (block, channel), and the same block can sit in many channels.

This project models the domain crate `garden-core` and proves properties of the model. It covers:

- the value types;
- the tri-state `FieldUpdate` and `Page`;
- input validation;
- the in-memory repositories;
- the service layer (`GardenService` and the older free-function services);
- the pure part of the media service.

It also models two error-translation tables:

- domain and repository errors to the IPC error codes (garden-tauri);
- database errors to repository errors (garden-db).

## Modules, file by file

| file | module | models |
|---|---|---|
| `common.dfy` | `Common` | `Option`/`Result`, `i32`/`u32`, `FieldUpdate`, `Page`, timestamps |
| `strings.dfy` | `Strings` | Unicode whitespace, `trim`, `contains`, `starts_with`, `lines().next()` |
| `utf8.dfy` | `Utf8` | UTF-8 byte length, char boundaries, the longest prefix that fits a byte budget |
| `url_parse.dfy` | `UrlParse` | a reduced URL parser: scheme, special-scheme authority, host |
| `errors.dfy` | `Errors` | `DomainError`, `RepoError` |
| `channels.dfy`, `blocks.dfy`, `connections.dfy` | `Channels`, `Blocks`, `Connections` | the models and their helpers |
| `validation.dfy` | `Validation` | every validator, each with a predicate saying what it accepts |
| `ordering.dfy` | `Ordering` | the stable sort (`sort_by_key`) used to order a channel's blocks |
| `memory.dfy` | `Memory` | the in-memory repositories, as class `MemoryStore` |
| `channel_service.dfy`, `block_service.dfy`, `connection_service.dfy` | `ChannelService`, `BlockService`, `ConnectionService` | the free-function services |
| `garden.dfy` | `Garden` | class `GardenService` |
| `media.dfy` | `Media` | MIME classification, the extension table, `into_block_content`, the path precheck |
| `db_errors.dfy` | `DbErrors` | `DbError`, its display text, and the conversion to `RepoError` |
| `ipc_errors.dfy` | `IpcErrors` | `ErrorCode`, `TauriError`, and the `From` conversions |

## The in-memory store

The repositories are modelled as they are set up by the test fixture in `ports/memory.rs`. There is one store with three parts:

- a map of channels;
- a map of blocks;
- a list of connections.

The channel, block and connection repositories all share this store, so the connection repository sees deletions.

`MemoryStore` is a class with these three fields. Its methods update them in place and state the whole new state. Read-only operations are functions with `reads` clauses. `GardenService` holds a store, and its methods modify it.

Some behaviours of the source are worth knowing when reading the contracts. The model keeps each one, and a contract or lemma states it.

- **Deletion does not cascade.** Deleting a channel or a block in the in-memory store leaves its connections in the list. Listings filter out blocks that no longer exist (`Memory.DeletedBlockLeavesListings`), but `get_connection` still finds such a connection.
- **Block creation drops metadata.** `create_block` and `create_blocks` build the block from the request's content only. Any `source_url` or other archive metadata in a `NewBlock` is dropped, and the stored block has none.
- **Two different `update_block` functions.** The free function in `services/block.rs` replaces content only and ignores metadata updates. `GardenService::update_block` also applies them (`Garden.UpdateBlockAgreesWithLegacyWithoutMetadata`).
- **Repeated ids in `connect_blocks`.** Only pairs that already exist are checked, so a batch that names the same block twice creates two connections for one pair (`Memory.BatchRepeatingPairBreaksUniqueness`). Pair uniqueness is proved for batches of distinct block ids.
- **The media path precheck is weaker than block validation.** It allows a leading `\` and the empty path (`Media.PrecheckWeakerThanValidation`).
- **The error code for a duplicate depends on the conversion path.** A unique-constraint failure reaches the UI as `DuplicateError` when it goes `DbError` → `RepoError` → `TauriError`. It arrives as `DatabaseError` when it goes directly from `DbError` (`IpcErrors.DuplicateCodeDependsOnPath`).

Clocks and identifier generation are parameters of the operations: `now` for `Utc::now()`, and `id` or `ids` for `Uuid::new_v4()`.

## Model

| member | source | states |
|---|---|---|
| Common.DefaultFieldUpdate | crates/garden-core/src/models/common.rs:15-23 | the default field update is not an update |
| Common.ApplyLaws | crates/garden-core/src/models/common.rs:27-33 | `Keep` returns the current value, `Clear` gives `None` and `Set(v)` gives `Some(v)`, whatever the current value |
| Common.IsUpdateIffSomeValueChanges | crates/garden-core/src/models/common.rs:36-38 | `is_update` holds exactly when applying the update changes some current value |
| Common.ApplyOverwritesAndIsIdempotent | crates/garden-core/src/models/common.rs:27-38 | a non-`Keep` update's result does not depend on the current value, and applying any update twice equals applying it once |
| Common.ApplyCompose | crates/garden-core/src/models/common.rs:27-38 | two updates in sequence act as the second one when it is an update, and otherwise as the first |
| Common.NewPage | crates/garden-core/src/models/common.rs:57-64 | a page keeps the items, total, offset and limit it is built from |
| Common.PageNumberLocatesOffset | crates/garden-core/src/models/common.rs:77-83 | for a non-zero limit, the offset lies inside the page that `page_number` names |
| Common.TotalPagesIsCeiling | crates/garden-core/src/models/common.rs:86-92 | for a non-zero limit, `total_pages` is the least number of pages that holds `total` items |
| Channels.ChannelIdFromString | crates/garden-core/src/models/channel.rs:19-21 | the identifier wraps the string unchanged |
| Channels.NewChannelWithTitle | crates/garden-core/src/models/channel.rs:56-65 | a new channel has the given id and title, no description, and equal creation and update times |
| Channels.NewChannelWithDescription | crates/garden-core/src/models/channel.rs:68-72 | equal to the new channel except that the description is set |
| Connections.NewConnectionAt | crates/garden-core/src/models/connection.rs:29-36 | a connection keeps the block, channel and position it is given, stamped at the given time |
| Blocks.BlockIdFromString | crates/garden-core/src/models/block.rs:19-21 | the identifier wraps the string unchanged |
| Blocks.TextDisplayTitle | crates/garden-core/src/models/block.rs:239-251 | the backward boundary search yields the longest prefix of the first line that fits in 50 UTF-8 bytes, and one more character would not fit |
| Blocks.DisplayTitle | crates/garden-core/src/models/block.rs:237-271 | the title per variant: the cut first line of text; link title or URL; alt text or path; audio title, else artist, else path |
| Blocks.IsMedia | crates/garden-core/src/models/block.rs:274-276 | content is media exactly when it is neither text nor a link |
| Blocks.FilePath | crates/garden-core/src/models/block.rs:279-286 | the file path is present exactly for media content, and it is that content's path |
| Blocks.MimeType | crates/garden-core/src/models/block.rs:289-296 | the MIME type is present exactly for media content, and it is that content's type |
| Blocks.NewBlockWithContent | crates/garden-core/src/models/block.rs:329-342 | a new block holds the given content, has no archive metadata, and has equal creation and update times |
| Blocks.NewBlockOf | crates/garden-core/src/models/block.rs:404-413 | a creation request holds the content and no metadata |
| Blocks.WithSourceUrl | crates/garden-core/src/models/block.rs:441-444 | only the source URL of the request changes |
| Blocks.ApplyMetadata | crates/garden-core/src/services/garden.rs:188-202 | an absent update keeps a metadata field, and a present one is applied with `FieldUpdate::apply` |
| Strings.TrimEmptyIffBlank | crates/garden-core/src/validation.rs:93 | `trim()` is empty exactly when the text consists of whitespace only |
| Strings.TrimIsVisibleCore | crates/garden-core/src/validation.rs:93 | a non-empty trimmed text starts and ends with a non-whitespace character |
| Strings.TrimIsSlice | crates/garden-core/src/validation.rs:93 | the trimmed text is the slice of the original after its leading whitespace |
| Strings.FirstLine | crates/garden-core/src/models/block.rs:241 | the first line is a prefix of the text with no line feed in it |
| Strings.FirstLineOfSingleLine | crates/garden-core/src/models/block.rs:241 | text without a line feed is its own first line |
| Strings.FirstLineThenTerminator | crates/garden-core/src/models/block.rs:241 | when the text has a line feed, the first line is followed by `\n` or `\r\n` |
| Utf8.EncodeAppend | crates/garden-core/src/models/block.rs:242-248 | the UTF-8 encoding of a concatenation is the concatenation of the encodings |
| Utf8.FitPrefixIsLongestFit | crates/garden-core/src/models/block.rs:242-250 | the kept prefix fits the byte budget, and the next character would exceed it |
| Utf8.FitPrefixBytes | crates/garden-core/src/models/block.rs:248 | the kept prefix's bytes are a prefix of the text's bytes, which is what `&first_line[..end]` slices |
| Utf8.FitPrefixWhole | crates/garden-core/src/models/block.rs:242-251 | text within the budget is kept whole |
| Utf8.FitPrefixStable | crates/garden-core/src/models/block.rs:245-247 | shrinking the budget down to the kept length does not change the prefix |
| Utf8.FitPrefixMonotone | crates/garden-core/src/models/block.rs:245-247 | a larger budget keeps at least as many bytes |
| Utf8.BoundaryIffPrefixFills | crates/garden-core/src/models/block.rs:245 | a byte index is a char boundary exactly when the longest prefix within that many bytes has exactly that many |
| Utf8.NearestBoundaryGivesFitPrefix | crates/garden-core/src/models/block.rs:244-248 | stopping at the nearest boundary at or below a budget gives the prefix that fits the budget |
| Validation.AndThen | crates/garden-core/src/validation.rs:12-90 | a sequence of checks succeeds exactly when both succeed, and the first failure is reported |
| Validation.ValidateText | crates/garden-core/src/validation.rs:92-99 | text is rejected exactly when blank, with the message of the source |
| Validation.ValidateOptionalText | crates/garden-core/src/validation.rs:102-116 | an optional field is accepted when empty or not blank; a whitespace-only field is rejected and named |
| Validation.ValidateFilePath | crates/garden-core/src/validation.rs:121-141 | a path is accepted exactly when it is not blank, has no `..` and starts with neither `/` nor `\`; blank, `..` and absolute paths each have their own message |
| Validation.ValidateMimeType | crates/garden-core/src/validation.rs:144-161 | a MIME type is accepted exactly when it starts with the category and `/` |
| Validation.ValidateUrl | crates/garden-core/src/validation.rs:166-195 | a URL is accepted exactly when not blank, parsable, of scheme http or https, and with a host; blank, unparsable, wrong scheme and missing host each have their own message |
| Validation.ValidateChannelTitle | crates/garden-core/src/validation.rs:198-205 | a title is rejected exactly when blank |
| Validation.ValidateOptionalField | crates/garden-core/src/validation.rs:22-30 | an absent optional field passes, and a present one must pass the optional-text check |
| Validation.ValidateOptionalUrl | crates/garden-core/src/validation.rs:45-47 | an absent original URL passes, and a present one must be an accepted URL |
| Validation.ValidateLink | crates/garden-core/src/validation.rs:15-32 | link content is accepted exactly when its URL and its optional title, description and alt text are |
| Validation.ValidateMediaFile | crates/garden-core/src/validation.rs:50-51 | every media arm first requires an accepted file path and a MIME type of the arm's category |
| Validation.ValidateVisual | crates/garden-core/src/validation.rs:33-66 | image and video content is accepted exactly when path, MIME category, alt text and original URL are |
| Validation.ValidateAudio | crates/garden-core/src/validation.rs:67-88 | audio content is accepted exactly when path, MIME category, title, artist and original URL are |
| Validation.ValidateBlockContent | crates/garden-core/src/validation.rs:12-90 | content is accepted exactly when its variant's checks pass, and every rejection is `InvalidInput` |
| Ordering.InsertPermutes | crates/garden-core/src/ports/memory.rs:338 | inserting into a sorted list adds exactly the new element |
| Ordering.InsertSorted | crates/garden-core/src/ports/memory.rs:338 | inserting after the last element of equal or smaller key keeps a list sorted |
| Ordering.InsertWithKey | crates/garden-core/src/ports/memory.rs:338 | insertion places the element after all others with its key |
| Ordering.WithKeyAppend | crates/garden-core/src/ports/memory.rs:338 | the elements with one key in a concatenation are those of each part, in order |
| Ordering.StableSortIsStableSort | crates/garden-core/src/ports/memory.rs:338 | the sort is ordered by key, a permutation, and keeps the input order among equal keys |
| Ordering.StableSortIsUnique | crates/garden-core/src/ports/memory.rs:338 | two sorted lists with the same elements per key, in the same order, are equal |
| Memory.FirstMatch | crates/garden-core/src/ports/memory.rs:355-365 | the index of the first connection of the pair, or the length when there is none |
| Memory.FindConnection | crates/garden-core/src/ports/memory.rs:355-365 | a connection is found exactly when the pair is connected, and it is one of that pair |
| Memory.WithoutPair | crates/garden-core/src/ports/memory.rs:316-325 | `retain` keeps every connection not of the pair, shrinks the list exactly when the pair was present, and leaves a list without the pair as it was |
| Memory.WithoutPairAppend | crates/garden-core/src/ports/memory.rs:319 | `retain` works piecewise over a concatenation, so the survivors keep their order and repeats |
| Memory.WithoutPairKeepsPairsUnique | crates/garden-core/src/ports/memory.rs:319 | `retain` only drops connections, so a list with at most one connection per (block, channel) pair keeps that property |
| Memory.FirstMatchAppend | crates/garden-core/src/ports/memory.rs:355-365 | appending to the list does not move an earlier first match |
| Memory.FindAfterAppend | crates/garden-core/src/ports/memory.rs:280-295 | a connection appended for a pair not yet present is the one a lookup finds |
| Memory.FindAfterReposition | crates/garden-core/src/ports/memory.rs:367-382 | after the position of the first match is overwritten, a lookup finds the connection with the new position |
| Memory.MaxPosition | crates/garden-core/src/ports/memory.rs:384-393 | the greatest position in the channel, attained by one of its connections, or none for an empty channel |
| Memory.NextPositionIn | crates/garden-core/src/ports/memory.rs:384-395 | next position is greater than every position in the channel: 0 when empty, else max + 1 |
| Memory.NextPositionAfterAppend | crates/garden-core/src/ports/memory.rs:384-395 | appending to another channel leaves the next position alone, and appending to this channel raises it past the new position |
| Memory.ChannelEntries | crates/garden-core/src/ports/memory.rs:331-337 | at most one (block, position) entry per connection |
| Memory.ChannelEntriesMembers | crates/garden-core/src/ports/memory.rs:331-337 | an entry is listed exactly when some connection of the channel has a block that still exists |
| Memory.BlocksInChannelSpec | crates/garden-core/src/ports/memory.rs:327-340 | the listing is sorted by position, a permutation of the channel's live entries, stable among equal positions, and holds exactly those entries |
| Memory.ChannelsForBlock | crates/garden-core/src/ports/memory.rs:342-353 | a channel is listed exactly when it exists and the block is connected to it |
| Memory.DeletedBlockLeavesListings | crates/garden-core/src/ports/memory.rs:177-183 | a deleted block disappears from channel listings, while its connection is still found by lookup |
| Memory.ConnectionsOf | crates/garden-core/src/ports/memory.rs:304-312 | one connection per triple, in order, with the triple's block, channel and position |
| Memory.ConnectKeepsPairsUnique | crates/garden-core/src/ports/memory.rs:280-295 | appending a connection for an absent pair keeps at most one connection per pair |
| Memory.BatchKeepsPairsUnique | crates/garden-core/src/ports/memory.rs:297-314 | a batch of distinct absent pairs keeps at most one connection per pair |
| Memory.BatchRepeatingPairBreaksUniqueness | crates/garden-core/src/ports/memory.rs:297-314 | a batch naming one pair twice passes the check and stores two connections for it |
| Memory.FindInBatch | crates/garden-core/src/ports/memory.rs:297-314 | a lookup after a batch finds the first connection the batch wrote for the pair |
| Memory.BatchPairsPresent | crates/garden-core/src/ports/memory.rs:297-314 | every pair of the batch is connected afterwards |
| Memory.InsertAll | crates/garden-core/src/ports/memory.rs:150-161 | the keys after inserting a batch are the old keys and the batch's ids, and every value comes from the map or the batch |
| Memory.InsertAllLastWins | crates/garden-core/src/ports/memory.rs:156-159 | a block of the batch is stored under its id when no later block has the same id |
| Memory.InsertAllKeepsOthers | crates/garden-core/src/ports/memory.rs:156-159 | keys not in the batch keep their blocks |
| Memory.SkipTake | crates/garden-core/src/ports/memory.rs:85 | `skip(offset).take(limit)` is the slice from offset, of the length bounded by both limit and what remains |
| Memory.PageOfListingHasNext | crates/garden-core/src/models/common.rs:67-69 | a page cut from a listing has a next page exactly when offset + limit is below the total |
| Memory.MemoryStore.constructor | crates/garden-core/src/ports/memory.rs:433-453 | a new store is empty |
| Memory.MemoryStore.CreateChannel | crates/garden-core/src/ports/memory.rs:63-70 | a taken id is `Duplicate` and nothing changes; otherwise only that channel is added |
| Memory.MemoryStore.GetChannel | crates/garden-core/src/ports/memory.rs:72-75 | the stored channel exactly when the id is present |
| Memory.MemoryStore.ListChannels | crates/garden-core/src/ports/memory.rs:77-88 | the total is the number of channels, and the items are the offset/limit slice of all channels newest first |
| Memory.MemoryStore.UpdateChannel | crates/garden-core/src/ports/memory.rs:90-97 | an absent id is `NotFound` and nothing changes; otherwise only that channel is replaced |
| Memory.MemoryStore.DeleteChannel | crates/garden-core/src/ports/memory.rs:99-105 | an absent id is `NotFound` and nothing changes; otherwise only that channel is removed and connections stay |
| Memory.MemoryStore.CountChannels | crates/garden-core/src/ports/memory.rs:107-110 | the number of channels |
| Memory.MemoryStore.CreateBlock | crates/garden-core/src/ports/memory.rs:141-148 | a taken id is `Duplicate` and nothing changes; otherwise only that block is added |
| Memory.MemoryStore.CreateBlockBatch | crates/garden-core/src/ports/memory.rs:150-161 | all or nothing: any taken id is `Duplicate` with nothing changed; otherwise every block is inserted |
| Memory.MemoryStore.InsertBatch | crates/garden-core/src/ports/memory.rs:157-159 | inserting the blocks one after another gives the batch's insertion into the old map, channels and connections untouched |
| Memory.MemoryStore.GetBlock | crates/garden-core/src/ports/memory.rs:163-166 | the stored block exactly when the id is present |
| Memory.MemoryStore.UpdateBlock | crates/garden-core/src/ports/memory.rs:168-175 | an absent id is `NotFound` and nothing changes; otherwise only that block is replaced |
| Memory.MemoryStore.DeleteBlock | crates/garden-core/src/ports/memory.rs:177-183 | an absent id is `NotFound` and nothing changes; otherwise only that block is removed and connections stay |
| Memory.MemoryStore.Connect | crates/garden-core/src/ports/memory.rs:280-295 | an existing pair is `Duplicate` and nothing changes; otherwise exactly one connection is appended, keeping pairs unique |
| Memory.MemoryStore.ConnectBatch | crates/garden-core/src/ports/memory.rs:297-314 | all or nothing: any existing pair is `Duplicate` with nothing changed; otherwise exactly the triples are appended in order |
| Memory.MemoryStore.Disconnect | crates/garden-core/src/ports/memory.rs:316-325 | every connection of the pair is removed and all others stay in order; `NotFound` exactly when there was none; unique pairs stay unique |
| Memory.MemoryStore.GetBlocksInChannel | crates/garden-core/src/ports/memory.rs:327-340 | the channel's live blocks stably sorted by position |
| Memory.MemoryStore.GetChannelsForBlock | crates/garden-core/src/ports/memory.rs:342-353 | the existing channels the block is connected to |
| Memory.MemoryStore.GetConnection | crates/garden-core/src/ports/memory.rs:355-365 | the first connection of the pair |
| Memory.MemoryStore.Reorder | crates/garden-core/src/ports/memory.rs:367-382 | only the first connection of the pair changes, to the new position, with no collision check; `NotFound` when absent |
| Memory.MemoryStore.NextPosition | crates/garden-core/src/ports/memory.rs:384-395 | the channel's next free position past its maximum |
| ChannelService.ChannelFrom | crates/garden-core/src/services/channel.rs:17-21 | the created channel has the request's title, a description exactly when one was supplied, and equal times |
| ChannelService.UpdatedChannel | crates/garden-core/src/services/channel.rs:52-64 | the title is replaced only when supplied, the description is `apply(old)`, id and creation time are kept |
| ChannelService.DefaultUpdateOnlyTouchesTime | crates/garden-core/src/models/channel.rs:86-93 | the default channel update changes only the update time |
| ChannelService.UpdatedChannelIdempotent | crates/garden-core/src/services/channel.rs:52-64 | applying the same channel update twice equals applying it once |
| ChannelService.CreateChannel | crates/garden-core/src/services/channel.rs:11-25 | a blank title is rejected before any write; a taken id is the repository's `Duplicate`; otherwise only the new channel is stored |
| ChannelService.GetChannel | crates/garden-core/src/services/channel.rs:28-35 | a missing id is `ChannelNotFound` |
| ChannelService.ListChannels | crates/garden-core/src/services/channel.rs:38-44 | the repository's page, never an error |
| ChannelService.UpdateChannel | crates/garden-core/src/services/channel.rs:47-65 | unknown id `ChannelNotFound`; a blank new title is rejected; otherwise the updated channel replaces the old and nothing else changes |
| ChannelService.DeleteChannel | crates/garden-core/src/services/channel.rs:68-76 | unknown id `ChannelNotFound` with nothing changed; otherwise only the channel is removed |
| BlockService.CreateBlock | crates/garden-core/src/services/block.rs:11-20 | invalid content is rejected before any write; otherwise a block with the content and no metadata is stored |
| BlockService.GetBlock | crates/garden-core/src/services/block.rs:23-27 | a missing id is `BlockNotFound` |
| BlockService.ContentUpdated | crates/garden-core/src/services/block.rs:35-44 | only content, when supplied, and the update time change |
| BlockService.UpdateBlock | crates/garden-core/src/services/block.rs:30-45 | unknown id `BlockNotFound`; invalid new content rejected; otherwise only content and time change, metadata updates ignored |
| BlockService.DeleteBlock | crates/garden-core/src/services/block.rs:48-53 | unknown id `BlockNotFound` with nothing changed; otherwise only the block is removed |
| ConnectionService.ConnectBlock | crates/garden-core/src/services/connection.rs:15-54 | `BlockNotFound`, then `ChannelNotFound`, then already-connected, each without a write; otherwise one connection at the given or next position is appended and returned |
| ConnectionService.DisconnectBlock | crates/garden-core/src/services/connection.rs:58-71 | an absent pair is `ConnectionNotFound` with nothing changed; otherwise the pair's connections are removed and the others keep their order; unique pairs stay unique |
| ConnectionService.BlocksOf | crates/garden-core/src/services/connection.rs:82-86 | dropping positions keeps the blocks and their order |
| ConnectionService.GetBlocksInChannel | crates/garden-core/src/services/connection.rs:78-87 | the channel's blocks in the repository's order |
| ConnectionService.GetChannelsForBlock | crates/garden-core/src/services/connection.rs:94-99 | the repository's channels for the block |
| ConnectionService.ReorderBlock | crates/garden-core/src/services/connection.rs:103-119 | an absent pair is `ConnectionNotFound` with nothing changed; otherwise only that connection's position changes and a lookup reports it |
| Garden.UpdatedBlock | crates/garden-core/src/services/garden.rs:177-208 | content replaced only when supplied; each of the five metadata fields independently kept or updated by `apply`; id and creation time kept |
| Garden.DefaultBlockUpdateOnlyTouchesTime | crates/garden-core/src/models/block.rs:455-480 | the default block update changes only the update time |
| Garden.UpdateBlockAgreesWithLegacyWithoutMetadata | crates/garden-core/src/services/block.rs:30-45 | the two `update_block` versions agree when no metadata is updated, and differ when a notes update changes the notes |
| Garden.FirstInvalid | crates/garden-core/src/services/garden.rs:152-154 | the index of the first request whose content fails validation |
| Garden.FirstError | crates/garden-core/src/services/garden.rs:152-154 | the validation loop's result; every rejection is `InvalidInput` |
| Garden.FirstErrorIsFirstInvalid | crates/garden-core/src/services/garden.rs:152-154 | the loop succeeds exactly when every request is valid, and otherwise reports the first invalid one's error |
| Garden.ValidateRequests | crates/garden-core/src/services/garden.rs:152-154 | the loop over requests computes the first error |
| Garden.BlocksFrom | crates/garden-core/src/services/garden.rs:156-159 | one new block per request, in order, with the request's content and the given id |
| Garden.InsertAllKeepsContentAccepted | crates/garden-core/src/services/garden.rs:150-164 | after a fully validated batch, every stored block's content still validates |
| Garden.FirstUnconnectable | crates/garden-core/src/services/garden.rs:285-298 | the first block id that is missing or already connected |
| Garden.FirstConnectErrorIsFirstUnconnectable | crates/garden-core/src/services/garden.rs:285-298 | the check loop succeeds exactly when every block exists and is unconnected, and otherwise names the first that fails |
| Garden.FoundConnections | crates/garden-core/src/services/garden.rs:316-325 | the read-back keeps at most one connection per block id |
| Garden.FoundConnectionsWhenAllPresent | crates/garden-core/src/services/garden.rs:316-325 | when every pair is connected, the read-back returns each block's connection in input order |
| Garden.BatchTriples | crates/garden-core/src/services/garden.rs:307-311 | block i gets the position start + i, in input order |
| Garden.BatchTriplesFree | crates/garden-core/src/services/garden.rs:307-313 | the batch's pairs are absent and pairwise distinct when the block ids are unconnected and distinct |
| Garden.BatchReadBack | crates/garden-core/src/services/garden.rs:313-325 | after the batch write, each distinct unconnected block reads back with position start + i |
| Garden.AlreadyConnectedMessage | crates/garden-core/src/services/garden.rs:293-296 | the error message names the block id |
| Garden.GardenService.constructor | crates/garden-core/src/services/garden.rs:53-59 | the service works on any given store, whatever its contents |
| Garden.GardenService.CreateChannel | crates/garden-core/src/services/garden.rs:67-78 | a blank title is rejected with no write; a taken id is `Duplicate`; otherwise only the new channel is stored; like every writing operation it keeps stored titles visible and stored content valid when they were |
| Garden.GardenService.GetChannel | crates/garden-core/src/services/garden.rs:82-87 | a missing id is `ChannelNotFound` |
| Garden.GardenService.ListChannels | crates/garden-core/src/services/garden.rs:91-93 | the page of channels newest first with the full total |
| Garden.GardenService.UpdateChannel | crates/garden-core/src/services/garden.rs:97-116 | unknown id `ChannelNotFound`; blank title rejected; otherwise title replaced when supplied and description `apply(old)` |
| Garden.GardenService.DeleteChannel | crates/garden-core/src/services/garden.rs:120-126 | unknown id `ChannelNotFound` with nothing changed; otherwise only the channel is removed |
| Garden.GardenService.CountChannels | crates/garden-core/src/services/garden.rs:129-131 | the number of channels |
| Garden.GardenService.CreateBlock | crates/garden-core/src/services/garden.rs:139-146 | invalid content is rejected with no write; otherwise a block with the content is stored |
| Garden.GardenService.CreateBlocks | crates/garden-core/src/services/garden.rs:150-164 | all requests validated before any write and the first invalid one's error returned; a taken id writes nothing; otherwise one block per request, in order |
| Garden.GardenService.InsertRequests | crates/garden-core/src/services/garden.rs:156-161 | once every request is valid, a taken id writes nothing; otherwise one block per request is inserted, all at once, and visible titles and valid content stay so |
| Garden.GardenService.GetBlock | crates/garden-core/src/services/garden.rs:168-173 | a missing id is `BlockNotFound` |
| Garden.GardenService.UpdateBlock | crates/garden-core/src/services/garden.rs:177-208 | unknown id `BlockNotFound`; invalid content rejected with no write; otherwise the block becomes `UpdatedBlock` of the old one |
| Garden.GardenService.DeleteBlock | crates/garden-core/src/services/garden.rs:212-218 | unknown id `BlockNotFound` with nothing changed; otherwise only the block is removed |
| Garden.GardenService.ConnectBlock | crates/garden-core/src/services/garden.rs:233-269 | `BlockNotFound`, `ChannelNotFound`, already-connected, in that order and without a write; otherwise one connection at the given or next position, keeping pairs unique |
| Garden.GardenService.ConnectBlocks | crates/garden-core/src/services/garden.rs:275-328 | channel and every block checked before the single batch write; block i placed at start + i; the result is the read-back in input order; unique pairs kept for distinct ids |
| Garden.GardenService.ConnectChecked | crates/garden-core/src/services/garden.rs:301-327 | after the checks pass, the batch appends exactly the positioned triples and returns their read-back |
| Garden.GardenService.CheckBlocks | crates/garden-core/src/services/garden.rs:285-298 | the check loop computes the first connect error |
| Garden.GardenService.ReadBack | crates/garden-core/src/services/garden.rs:316-325 | the read-back loop collects each found connection in input order |
| Garden.GardenService.DisconnectBlock | crates/garden-core/src/services/garden.rs:331-345 | an absent pair is `ConnectionNotFound` with nothing changed; otherwise the pair's connections are removed and the others keep their order; unique pairs stay unique |
| Garden.GardenService.GetBlocksInChannel | crates/garden-core/src/services/garden.rs:348-354 | the channel's live blocks in position order, without positions |
| Garden.GardenService.GetBlocksInChannelWithPositions | crates/garden-core/src/services/garden.rs:357-362 | the channel's live blocks with their positions, stably sorted by position |
| Garden.GardenService.GetChannelsForBlock | crates/garden-core/src/services/garden.rs:365-367 | the existing channels the block is connected to |
| Garden.GardenService.ReorderBlock | crates/garden-core/src/services/garden.rs:370-387 | an absent pair is `ConnectionNotFound` with nothing changed; otherwise only that position changes and a lookup reports it; unique pairs stay unique |
| Garden.GardenService.GetConnection | crates/garden-core/src/services/garden.rs:390-399 | a connection of the pair exactly when the pair is connected, else `ConnectionNotFound` |
| Media.Subdir | crates/garden-core/src/services/media.rs:28-34 | each kind has a non-empty directory name without dots or separators |
| Media.SubdirInjective | crates/garden-core/src/services/media.rs:28-34 | different kinds are stored in different directories |
| Media.FromMime | crates/garden-core/src/services/media.rs:37-47 | a kind exactly for the `image/`, `video/` and `audio/` prefixes, matching its category |
| Media.FromMimeMatchesValidation | crates/garden-core/src/services/media.rs:37-47 | a MIME type is of a kind exactly when validation accepts it for that kind's category |
| Media.IntoBlockContent | crates/garden-core/src/services/media.rs:69-110 | video and audio by MIME, image otherwise; path, type and original URL kept; dimensions and duration where the variant has them; descriptive fields empty |
| Media.IntoBlockContentValidates | crates/garden-core/src/services/media.rs:69-110 | with an accepted path and URL, the built content validates exactly when the MIME type is of a known kind |
| Media.ExtensionForMime | crates/garden-core/src/services/media.rs:438-459 | the table's extensions are non-empty and free of dots and slashes, and any other type has none |
| Media.ExtensionOnlyForMedia | crates/garden-core/src/services/media.rs:438-459 | every MIME type with an extension is of a known kind |
| Media.ExtensionNotInjective | crates/garden-core/src/services/media.rs:448-455 | `video/webm` and `audio/webm` share the extension `webm` |
| Media.StoredPath | crates/garden-core/src/services/media.rs:281-282 | a stored file's path starts with its kind's directory |
| Media.StoredPathAccepted | crates/garden-core/src/services/media.rs:281-282 | a stored path with a dot-free name and extension passes block path validation |
| Media.PathPrecheck | crates/garden-core/src/services/media.rs:181-186 | a path is refused exactly when it contains `..` or starts with `/` |
| Media.AcceptedPathPassesPrecheck | crates/garden-core/src/services/media.rs:181-186 | every path block validation accepts passes the precheck |
| Media.PrecheckWeakerThanValidation | crates/garden-core/src/services/media.rs:181-186 | the precheck lets through a leading `\` and the empty path, which validation refuses |
| DbErrors.DisplayCarriesDetails | crates/garden-db/src/error.rs:8-40 | the display text of each variant contains its inner detail |
| DbErrors.DisplayCarriesDatetime | crates/garden-db/src/error.rs:33-35 | the invalid-datetime text contains the field name and the value |
| DbErrors.ToRepoError | crates/garden-db/src/error.rs:45-62 | `NotFound` and `Duplicate` kept; a driver error is `Duplicate` exactly when its message has `UNIQUE constraint failed`, else `Database` with its message; every other variant is `Database` with its display text |
| DbErrors.SerializationBecomesDatabase | crates/garden-db/src/error.rs:59 | a serialization failure is reported as a database error carrying its cause |
| IpcErrors.New | crates/garden-tauri/src/error.rs:62-68 | a new error has the code and message and no entity |
| IpcErrors.WithEntity | crates/garden-tauri/src/error.rs:71-81 | the error names the entity |
| IpcErrors.Initialization | crates/garden-tauri/src/error.rs:84-86 | an initialization error without entity |
| IpcErrors.Internal | crates/garden-tauri/src/error.rs:89-91 | an internal error without entity |
| IpcErrors.Media | crates/garden-tauri/src/error.rs:94-96 | a media error without entity |
| IpcErrors.FromRepoError | crates/garden-tauri/src/error.rs:125-137 | `Duplicate` to `DuplicateError`, `NotFound` and `Database` to `DatabaseError`, `Serialization` to `InternalError`; messages as in the source, no entity |
| IpcErrors.FromDomainError | crates/garden-tauri/src/error.rs:99-123 | not-found errors carry their code, their exact message naming what is missing and, for channels and blocks, the entity; invalid input is a `ValidationError` with its message; repository errors use the repository table |
| IpcErrors.CodeIdentifiesKind | crates/garden-tauri/src/error.rs:99-137 | the code of a converted domain error identifies its kind, both ways, and is never an initialization or media code |
| IpcErrors.FromDbError | crates/garden-tauri/src/error.rs:139-143 | every database error is a `DatabaseError` carrying the display text |
| IpcErrors.DuplicateCodeDependsOnPath | crates/garden-tauri/src/error.rs:125-143 | through the repository table a unique violation is `DuplicateError`, directly it is `DatabaseError` |
| IpcErrors.Display | crates/garden-tauri/src/error.rs:149-153 | the text starts with the bracketed code and contains the message |
| IpcErrors.CodeName | crates/garden-tauri/src/error.rs:18-37 | every code has a non-empty name |

## Left out

- Concurrency. `Arc<RwLock<…>>`, `async` and the `"lock poisoned"` `Database` error paths in `ports/memory.rs` are not modelled; the store is single-threaded.
- Logging with `tracing` has no effect on results and is not modelled.
- Clock and identifiers. `Utc::now()` and `Uuid::new_v4()` are parameters. `create_blocks` and `connect_blocks` take one `now` for the whole batch.
- Memory.MemoryStore.ListChannels: the order among channels with equal `created_at` depends on `HashMap` iteration. It is returned as a ghost `ordered` list that is sorted newest first and holds exactly the stored channels.
- UrlParse: the `url` crate (the WHATWG URL Standard's basic URL parser) is replaced by a reduced parser of the scheme and authority. It does no IDNA, percent-decoding, IPv6 or path parsing. Validation.ValidateUrl is exact relative to this parser, not to the crate.
- Memory.NextPositionIn: the source's `max + 1` on `i32` panics on overflow in debug builds. The model requires that the maximum is below `i32::MAX` instead of modelling the panic or the wrap.
- ConnectionService.ConnectBlock: requires room after the channel's maximum position when no position is supplied, for the `i32` reason above.
- Garden.GardenService.ConnectBlock: requires room after the channel's maximum position when no position is supplied, for the `i32` reason above.
- Garden.GardenService.ConnectBlocks: requires that `start + i` stays within `i32` for every block, instead of modelling the overflow of `start_pos + i as i32`.
- Media I/O is not modelled: HTTP download, the size limit, file copy and directory creation, image decoding, `delete`, `exists`, `get_full_path`, and the `canonicalize` half of `validate_path`. Of the two imports, only the shape of the stored path is modelled, not the extension fallback taken from the URL or file name.
- Audio and video durations are `f32` in the source. They are opaque values in the model and are only carried, never computed.
- The SQLite adapters of garden-db, the Tauri commands, application state and bootstrapping are not part of this model.
- Serialisation (serde, ts-rs, the SCREAMING_SNAKE_CASE names of `ErrorCode`) and JSON shapes are not modelled.
- DbErrors: the inner `sqlx`, migration and pool error types are represented by their display text.
- The deprecated helpers that preload the in-memory repositories (`with_data`, `set_blocks`, `set_channels`) are not modelled. Separately constructed repositories that do not share their maps are not modelled either.
- The convenience constructors of `BlockContent`, `Block` and `NewBlock` (`text`, `link`, `image`, and so on) are the datatype constructors here, together with Blocks.NewBlockOf.
