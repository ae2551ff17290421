/**
 * Blocks: pieces of content that can sit in many channels
 * (crates/garden-core/src/models/block.rs).
 */
module Blocks {
  import opened Common
  import opened Strings
  import opened Utf8

  /** A block identifier wraps the string form of a UUID. */
  datatype BlockId = BlockId(value: string)

  function BlockIdFromString(s: string): (id: BlockId)
    ensures id.value == s
  {
    BlockId(s)
  }

  /** Rust `f32` durations, in seconds; rounding is not modelled. */
  type Seconds = real

  /** The five kinds of content a block can hold. */
  datatype BlockContent =
    | Text(body: string)
    | Link(url: string, title: Option<string>, description: Option<string>, altText: Option<string>)
    | Image(filePath: string, originalUrl: Option<string>, width: Option<u32>, height: Option<u32>,
            mimeType: string, altText: Option<string>)
    | Video(filePath: string, originalUrl: Option<string>, width: Option<u32>, height: Option<u32>,
            duration: Option<Seconds>, mimeType: string, altText: Option<string>)
    | Audio(filePath: string, originalUrl: Option<string>, duration: Option<Seconds>,
            mimeType: string, title: Option<string>, artist: Option<string>)

  /** Longest display title of a text block, in bytes. */
  const MaxTitleBytes: nat := 50

  /**
   * Display title of text: its first line, cut at the last character
   * boundary at or before byte 50 when the line is longer than that.
   */
  method TextDisplayTitle(body: string) returns (title: string)
    ensures title == FitPrefix(FirstLine(body), MaxTitleBytes)
    ensures StartsWith(FirstLine(body), title) && ByteLen(title) <= MaxTitleBytes
    ensures title != FirstLine(body) ==> ByteLen(FirstLine(body)[..|title| + 1]) > MaxTitleBytes
  {
    var firstLine := FirstLine(body);
    var bytes := Encode(firstLine);
    if |bytes| > MaxTitleBytes {
      var end := MaxTitleBytes;
      while end > 0 && !IsCharBoundary(bytes, end)
        invariant 0 <= end <= MaxTitleBytes
        invariant forall j :: end < j <= MaxTitleBytes ==> !IsCharBoundary(bytes, j)
        decreases end
      {
        end := end - 1;
      }
      NearestBoundaryGivesFitPrefix(firstLine, MaxTitleBytes, end);
      title := FitPrefix(firstLine, end);
      FitPrefixBytes(firstLine, end);
    } else {
      FitPrefixWhole(firstLine, MaxTitleBytes);
      title := firstLine;
    }
    FitPrefixIsLongestFit(firstLine, MaxTitleBytes);
  }

  /** `BlockContent::display_title`: a short human-readable name for the content. */
  method DisplayTitle(content: BlockContent) returns (title: string)
    ensures content.Text? ==> title == FitPrefix(FirstLine(content.body), MaxTitleBytes)
    ensures content.Link? ==> title == (if content.title.Some? then content.title.value else content.url)
    ensures content.Image? || content.Video? ==>
      title == (if content.altText.Some? then content.altText.value else content.filePath)
    ensures content.Audio? ==>
      title == (if content.title.Some? then content.title.value
                else if content.artist.Some? then content.artist.value
                else content.filePath)
  {
    match content
    case Text(body) =>
      title := TextDisplayTitle(body);
    case Link(url, linkTitle, _, _) =>
      title := if linkTitle.Some? then linkTitle.value else url;
    case Image(filePath, _, _, _, _, altText) =>
      title := if altText.Some? then altText.value else filePath;
    case Video(filePath, _, _, _, _, _, altText) =>
      title := if altText.Some? then altText.value else filePath;
    case Audio(filePath, _, _, _, audioTitle, artist) =>
      if audioTitle.Some? {
        title := audioTitle.value;
      } else if artist.Some? {
        title := artist.value;
      } else {
        title := filePath;
      }
  }

  /** Image, video and audio content are media. */
  predicate IsMedia(content: BlockContent)
    ensures IsMedia(content) <==> !content.Text? && !content.Link?
  {
    content.Image? || content.Video? || content.Audio?
  }

  /** Stored file of media content; `None` for text and links. */
  function FilePath(content: BlockContent): (path: Option<string>)
    ensures path.Some? <==> IsMedia(content)
    ensures path.Some? ==> path.value == content.filePath
  {
    match content
    case Image(filePath, _, _, _, _, _) => Some(filePath)
    case Video(filePath, _, _, _, _, _, _) => Some(filePath)
    case Audio(filePath, _, _, _, _, _) => Some(filePath)
    case _ => None
  }

  /** MIME type of media content; `None` for text and links. */
  function MimeType(content: BlockContent): (mime: Option<string>)
    ensures mime.Some? <==> IsMedia(content)
    ensures mime.Some? ==> mime.value == content.mimeType
  {
    match content
    case Image(_, _, _, _, mimeType, _) => Some(mimeType)
    case Video(_, _, _, _, _, mimeType, _) => Some(mimeType)
    case Audio(_, _, _, mimeType, _, _) => Some(mimeType)
    case _ => None
  }

  /** A block: content plus archive metadata. */
  datatype Block = Block(
    id: BlockId,
    content: BlockContent,
    createdAt: Timestamp,
    updatedAt: Timestamp,
    sourceUrl: Option<string>,
    sourceTitle: Option<string>,
    creator: Option<string>,
    originalDate: Option<string>,
    notes: Option<string>)

  /** All five archive metadata fields are absent. */
  predicate HasNoMetadata(b: Block)
  {
    b.sourceUrl.None? && b.sourceTitle.None? && b.creator.None? && b.originalDate.None? && b.notes.None?
  }

  /**
   * `Block::new`: a fresh identifier and the current time are parameters.
   * The block starts without metadata and has not been updated since it was
   * created.
   */
  function NewBlockWithContent(id: BlockId, content: BlockContent, now: Timestamp): (b: Block)
    ensures b.id == id && b.content == content
    ensures b.createdAt == b.updatedAt == now
    ensures HasNoMetadata(b)
  {
    Block(id, content, now, now, None, None, None, None, None)
  }

  /** Input of block creation: content and optional archive metadata. */
  datatype NewBlock = NewBlock(
    content: BlockContent,
    sourceUrl: Option<string>,
    sourceTitle: Option<string>,
    creator: Option<string>,
    originalDate: Option<string>,
    notes: Option<string>)

  /** `NewBlock::new`: content only, every metadata field absent. */
  function NewBlockOf(content: BlockContent): (nb: NewBlock)
    ensures nb.content == content
    ensures nb.sourceUrl.None? && nb.sourceTitle.None? && nb.creator.None?
    ensures nb.originalDate.None? && nb.notes.None?
  {
    NewBlock(content, None, None, None, None, None)
  }

  /** `NewBlock::with_source_url`: sets the source URL and nothing else. */
  function WithSourceUrl(nb: NewBlock, url: string): (r: NewBlock)
    ensures r.sourceUrl == Some(url)
    ensures r == nb.(sourceUrl := r.sourceUrl)
  {
    nb.(sourceUrl := Some(url))
  }

  /**
   * A partial update. `None` content keeps the current content; each
   * metadata field is `None` (keep) or a `FieldUpdate`.
   */
  datatype BlockUpdate = BlockUpdate(
    content: Option<BlockContent>,
    sourceUrl: Option<FieldUpdate<string>>,
    sourceTitle: Option<FieldUpdate<string>>,
    creator: Option<FieldUpdate<string>>,
    originalDate: Option<FieldUpdate<string>>,
    notes: Option<FieldUpdate<string>>)

  /** `BlockUpdate::default()`: changes nothing. */
  const DefaultBlockUpdate: BlockUpdate := BlockUpdate(None, None, None, None, None, None)

  /** The new value of a metadata field under an optional update. */
  function ApplyMetadata(update: Option<FieldUpdate<string>>, current: Option<string>): (r: Option<string>)
    ensures update.None? ==> r == current
    ensures update.Some? ==> r == update.value.Apply(current)
  {
    if update.Some? then update.value.Apply(current) else current
  }
}
