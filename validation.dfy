/**
 * Input validation at the domain boundary (crates/garden-core/src/validation.rs).
 * Every rejection is an `InvalidInput` error carrying a message.
 */
module Validation {
  import opened Common
  import opened Strings
  import opened Errors
  import opened Blocks
  import UrlParse

  /** Outcome of a validator: `Ok(())` or the first failure. */
  type Check = Result<(), DomainError>

  /** Rust's `?` in a sequence of validators: the first failure wins. */
  function AndThen(first: Check, second: Check): (r: Check)
    ensures r.Ok? <==> first.Ok? && second.Ok?
    ensures first.Err? ==> r == first
  {
    if first.Err? then first else second
  }

  // ---------------------------------------------------------------------
  // What each validator accepts, stated without trimming or searching
  // ---------------------------------------------------------------------

  /** A field that may be empty but not whitespace only. */
  ghost predicate OptionalTextAccepted(text: string)
  {
    text == [] || !IsBlank(text)
  }

  /** A relative media path: not blank, no "..", not starting with '/' or '\'. */
  ghost predicate FilePathAccepted(path: string)
  {
    !IsBlank(path)
    && (forall i :: 0 <= i < |path| - 1 ==> !(path[i] == '.' && path[i + 1] == '.'))
    && path[0] != '/' && path[0] != '\\'
  }

  /** A MIME type of the given category, such as "image/png" for "image". */
  predicate MimeTypeAccepted(mimeType: string, category: string)
  {
    StartsWith(mimeType, category + "/")
  }

  /** A URL that parses, has scheme http or https, and names a host. */
  ghost predicate UrlAccepted(url: string)
  {
    !IsBlank(url)
    && UrlParse.Parse(url).Ok?
    && UrlParse.Parse(url).value.scheme in {"http", "https"}
    && UrlParse.Parse(url).value.host.Some?
  }

  /** An optional field that, when present, satisfies `accepted`. */
  ghost predicate OptionalAccepted(field: Option<string>, accepted: string -> bool)
  {
    field.Some? ==> accepted(field.value)
  }

  /** A link whose URL is accepted and whose text fields are not whitespace only. */
  ghost predicate LinkAccepted(url: string, title: Option<string>, description: Option<string>, altText: Option<string>)
  {
    UrlAccepted(url) && OptionalAccepted(title, OptionalTextAccepted)
    && OptionalAccepted(description, OptionalTextAccepted) && OptionalAccepted(altText, OptionalTextAccepted)
  }

  /** An image or video of the given category. */
  ghost predicate VisualAccepted(filePath: string, mimeType: string, category: string,
                                 altText: Option<string>, originalUrl: Option<string>)
  {
    FilePathAccepted(filePath) && MimeTypeAccepted(mimeType, category)
    && OptionalAccepted(altText, OptionalTextAccepted) && OptionalAccepted(originalUrl, UrlAccepted)
  }

  /** An audio file. */
  ghost predicate AudioAccepted(filePath: string, mimeType: string, title: Option<string>,
                                artist: Option<string>, originalUrl: Option<string>)
  {
    FilePathAccepted(filePath) && MimeTypeAccepted(mimeType, "audio")
    && OptionalAccepted(title, OptionalTextAccepted) && OptionalAccepted(artist, OptionalTextAccepted)
    && OptionalAccepted(originalUrl, UrlAccepted)
  }

  /** Content that `validate_block_content` accepts. */
  ghost predicate ContentAccepted(content: BlockContent)
  {
    match content
    case Text(body) => !IsBlank(body)
    case Link(url, title, description, altText) => LinkAccepted(url, title, description, altText)
    case Image(filePath, originalUrl, _, _, mimeType, altText) =>
      VisualAccepted(filePath, mimeType, "image", altText, originalUrl)
    case Video(filePath, originalUrl, _, _, _, mimeType, altText) =>
      VisualAccepted(filePath, mimeType, "video", altText, originalUrl)
    case Audio(filePath, originalUrl, _, mimeType, title, artist) =>
      AudioAccepted(filePath, mimeType, title, artist, originalUrl)
  }

  // ---------------------------------------------------------------------
  // The validators
  // ---------------------------------------------------------------------

  /** Text must have a visible character. */
  function ValidateText(text: string): (r: Check)
    ensures r.Ok? <==> !IsBlank(text)
    ensures r.Err? ==> r.error == InvalidInput("text block cannot be empty")
  {
    TrimEmptyIffBlank(text);
    if Trim(text) == [] then Err(InvalidInput("text block cannot be empty")) else Ok(())
  }

  /** An optional text field may be empty but not whitespace only. */
  function ValidateOptionalText(fieldName: string, text: string): (r: Check)
    ensures r.Ok? <==> OptionalTextAccepted(text)
    ensures r.Err? ==> r.error == InvalidInput(fieldName + " cannot be only whitespace")
  {
    TrimEmptyIffBlank(text);
    if text == [] then Ok(())
    else if Trim(text) == [] then Err(InvalidInput(fieldName + " cannot be only whitespace"))
    else Ok(())
  }

  /** A media path must be relative and may not climb out of the media directory. */
  function ValidateFilePath(path: string): (r: Check)
    ensures r.Ok? <==> FilePathAccepted(path)
    ensures IsBlank(path) ==> r == Err(InvalidInput("file path cannot be empty"))
    ensures !IsBlank(path) && Contains(path, "..") ==> r == Err(InvalidInput("file path cannot contain '..'"))
    ensures !IsBlank(path) && !Contains(path, "..") && (StartsWithChar(path, '/') || StartsWithChar(path, '\\')) ==>
      r == Err(InvalidInput("file path must be relative"))
    ensures r.Err? ==> r.error.InvalidInput?
  {
    TrimEmptyIffBlank(path);
    ContainsDotDotIff(path);
    if Trim(path) == [] then Err(InvalidInput("file path cannot be empty"))
    else if Contains(path, "..") then Err(InvalidInput("file path cannot contain '..'"))
    else if StartsWithChar(path, '/') || StartsWithChar(path, '\\') then Err(InvalidInput("file path must be relative"))
    else Ok(())
  }

  /** A MIME type must be of the expected category. */
  function ValidateMimeType(mimeType: string, category: string): (r: Check)
    ensures r.Ok? <==> MimeTypeAccepted(mimeType, category)
    ensures IsBlank(mimeType) ==> r == Err(InvalidInput("MIME type cannot be empty"))
    ensures !IsBlank(mimeType) && r.Err? ==>
      r.error == InvalidInput("expected " + category + " MIME type, got '" + mimeType + "'")
  {
    TrimEmptyIffBlank(mimeType);
    assert StartsWith(mimeType, category + "/") ==> mimeType[|category|] == (category + "/")[|category|] == '/';
    if Trim(mimeType) == [] then Err(InvalidInput("MIME type cannot be empty"))
    else if !StartsWith(mimeType, category + "/") then
      Err(InvalidInput("expected " + category + " MIME type, got '" + mimeType + "'"))
    else Ok(())
  }

  /** A URL must parse, use http or https, and name a host. */
  function ValidateUrl(url: string): (r: Check)
    ensures r.Ok? <==> UrlAccepted(url)
    ensures IsBlank(url) ==> r == Err(InvalidInput("link URL cannot be empty"))
    ensures !IsBlank(url) && UrlParse.Parse(url).Err? ==>
      r == Err(InvalidInput("invalid URL '" + url + "': " + UrlParse.ParseErrorText(UrlParse.Parse(url).error)))
    ensures !IsBlank(url) && UrlParse.Parse(url).Ok? && UrlParse.Parse(url).value.scheme !in {"http", "https"} ==>
      r == Err(InvalidInput("URL scheme '" + UrlParse.Parse(url).value.scheme + "' is not allowed, use http or https"))
    ensures !IsBlank(url) && UrlParse.Parse(url).Ok? && UrlParse.Parse(url).value.scheme in {"http", "https"}
            && UrlParse.Parse(url).value.host.None? ==>
      r == Err(InvalidInput("URL must have a valid host"))
    ensures r.Err? ==> r.error.InvalidInput?
  {
    TrimEmptyIffBlank(url);
    if Trim(url) == [] then Err(InvalidInput("link URL cannot be empty"))
    else
      match UrlParse.Parse(url)
      case Err(e) => Err(InvalidInput("invalid URL '" + url + "': " + UrlParse.ParseErrorText(e)))
      case Ok(parsed) =>
        if parsed.scheme !in {"http", "https"} then
          Err(InvalidInput("URL scheme '" + parsed.scheme + "' is not allowed, use http or https"))
        else if parsed.host.None? then Err(InvalidInput("URL must have a valid host"))
        else Ok(())
  }

  /** A channel title must have a visible character. */
  function ValidateChannelTitle(title: string): (r: Check)
    ensures r.Ok? <==> !IsBlank(title)
    ensures r.Err? ==> r.error == InvalidInput("channel title cannot be empty")
  {
    TrimEmptyIffBlank(title);
    if Trim(title) == [] then Err(InvalidInput("channel title cannot be empty")) else Ok(())
  }

  /** `if let Some(t) = field { validate_optional_text(name, t)? }` */
  function ValidateOptionalField(fieldName: string, field: Option<string>): (r: Check)
    ensures r.Ok? <==> OptionalAccepted(field, OptionalTextAccepted)
    ensures r.Err? ==> r.error.InvalidInput?
  {
    if field.Some? then ValidateOptionalText(fieldName, field.value) else Ok(())
  }

  /** `if let Some(url) = original_url { validate_url(url)? }` */
  function ValidateOptionalUrl(url: Option<string>): (r: Check)
    ensures r.Ok? <==> OptionalAccepted(url, UrlAccepted)
    ensures r.Err? ==> r.error.InvalidInput?
  {
    if url.Some? then ValidateUrl(url.value) else Ok(())
  }

  /** The link arm of `validate_block_content`. */
  function ValidateLink(url: string, title: Option<string>, description: Option<string>, altText: Option<string>): (r: Check)
    ensures r.Ok? <==> LinkAccepted(url, title, description, altText)
    ensures r.Err? ==> r.error.InvalidInput?
  {
    AndThen(ValidateUrl(url),
    AndThen(ValidateOptionalField("title", title),
    AndThen(ValidateOptionalField("description", description),
            ValidateOptionalField("alt_text", altText))))
  }

  /** The file path and MIME type checks that every media arm starts with. */
  function ValidateMediaFile(filePath: string, mimeType: string, category: string): (r: Check)
    ensures r.Ok? <==> FilePathAccepted(filePath) && MimeTypeAccepted(mimeType, category)
    ensures r.Err? ==> r.error.InvalidInput?
  {
    AndThen(ValidateFilePath(filePath), ValidateMimeType(mimeType, category))
  }

  /** The image and video arms of `validate_block_content`. */
  function ValidateVisual(filePath: string, mimeType: string, category: string,
                          altText: Option<string>, originalUrl: Option<string>): (r: Check)
    ensures r.Ok? <==> VisualAccepted(filePath, mimeType, category, altText, originalUrl)
    ensures r.Err? ==> r.error.InvalidInput?
  {
    AndThen(ValidateMediaFile(filePath, mimeType, category),
    AndThen(ValidateOptionalField("alt_text", altText),
            ValidateOptionalUrl(originalUrl)))
  }

  /** The audio arm of `validate_block_content`. */
  function ValidateAudio(filePath: string, mimeType: string, title: Option<string>,
                         artist: Option<string>, originalUrl: Option<string>): (r: Check)
    ensures r.Ok? <==> AudioAccepted(filePath, mimeType, title, artist, originalUrl)
    ensures r.Err? ==> r.error.InvalidInput?
  {
    AndThen(ValidateMediaFile(filePath, mimeType, "audio"),
    AndThen(ValidateOptionalField("title", title),
    AndThen(ValidateOptionalField("artist", artist),
            ValidateOptionalUrl(originalUrl))))
  }

  /**
   * `validate_block_content`: the checks of the content's kind, in order; the
   * first failure is returned.
   */
  function ValidateBlockContent(content: BlockContent): (r: Check)
    ensures r.Ok? <==> ContentAccepted(content)
    ensures r.Err? ==> r.error.InvalidInput?
  {
    if content.Text? then ValidateText(content.body)
    else if content.Link? then
      ValidateLink(content.url, content.title, content.description, content.altText)
    else if content.Image? then
      ValidateVisual(content.filePath, content.mimeType, "image", content.altText, content.originalUrl)
    else if content.Video? then
      ValidateVisual(content.filePath, content.mimeType, "video", content.altText, content.originalUrl)
    else
      ValidateAudio(content.filePath, content.mimeType, content.title, content.artist, content.originalUrl)
  }
}
