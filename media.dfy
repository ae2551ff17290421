/**
 * The pure part of the media service (crates/garden-core/src/services/media.rs):
 * classifying MIME types, the storage sub-directories, the extension table,
 * turning imported media into block content, and the string check on
 * relative paths that runs before any filesystem access.
 */
module Media {
  import opened Common
  import opened Strings
  import Blocks
  import opened Validation

  /** The three kinds of media file. */
  datatype MediaType = ImageType | VideoType | AudioType

  /** `MediaType::subdir`: the directory under the media root that holds the kind. */
  function Subdir(t: MediaType): (dir: string)
    ensures dir != [] && '.' !in dir && '/' !in dir && '\\' !in dir
    ensures !IsWhitespace(dir[0])
  {
    match t
    case ImageType => "images"
    case VideoType => "videos"
    case AudioType => "audio"
  }

  /** Different kinds are stored in different directories. */
  lemma SubdirInjective(s: MediaType, t: MediaType)
    ensures Subdir(s) == Subdir(t) <==> s == t
  {
    if s != t {
      assert Subdir(s)[1] != Subdir(t)[1] || |Subdir(s)| != |Subdir(t)|;
    }
  }

  /** The category word validation expects before the '/' of the MIME type. */
  function Category(t: MediaType): (category: string)
    ensures |category| == 5
  {
    match t
    case ImageType => "image"
    case VideoType => "video"
    case AudioType => "audio"
  }

  /**
   * `MediaType::from_mime`: the kind is decided by the prefix "image/",
   * "video/" or "audio/", tested in that order; anything else is `None`.
   */
  function FromMime(mime: string): (t: Option<MediaType>)
    ensures t.Some? <==> StartsWith(mime, "image/") || StartsWith(mime, "video/") || StartsWith(mime, "audio/")
    ensures t.Some? ==> StartsWith(mime, Category(t.value) + "/")
  {
    if StartsWith(mime, "image/") then Some(ImageType)
    else if StartsWith(mime, "video/") then Some(VideoType)
    else if StartsWith(mime, "audio/") then Some(AudioType)
    else None
  }

  /**
   * The kind `from_mime` reports is the one whose category validation
   * accepts: a MIME type is of kind `t` exactly when it passes the MIME check
   * for `t`'s category.
   */
  lemma FromMimeMatchesValidation(mime: string, t: MediaType)
    ensures FromMime(mime) == Some(t) <==> MimeTypeAccepted(mime, Category(t))
  {
    assert Category(t) + "/" == match t
      case ImageType => "image/"
      case VideoType => "video/"
      case AudioType => "audio/";
    if StartsWith(mime, "image/") {
      assert mime[..6] == "image/";
      assert mime[0] == 'i';
    } else if StartsWith(mime, "video/") {
      assert mime[..6] == "video/";
      assert mime[0] == 'v';
    } else if StartsWith(mime, "audio/") {
      assert mime[..6] == "audio/";
      assert mime[0] == 'a';
    }
  }

  /** What an import records about a stored file. */
  datatype MediaInfo = MediaInfo(
    filePath: string,
    mimeType: string,
    width: Option<u32>,
    height: Option<u32>,
    duration: Option<Blocks.Seconds>,
    originalUrl: Option<string>)

  /**
   * `MediaInfo::into_block_content`: video and audio MIME types give video
   * and audio content, and every other type, known or not, gives an image.
   */
  function IntoBlockContent(info: MediaInfo): (c: Blocks.BlockContent)
    ensures Blocks.IsMedia(c)
    ensures c.Video? <==> FromMime(info.mimeType) == Some(VideoType)
    ensures c.Audio? <==> FromMime(info.mimeType) == Some(AudioType)
    ensures Blocks.FilePath(c) == Some(info.filePath) && Blocks.MimeType(c) == Some(info.mimeType)
    ensures c.originalUrl == info.originalUrl
    ensures !c.Audio? ==> c.width == info.width && c.height == info.height && c.altText.None?
    ensures !c.Image? ==> c.duration == info.duration
    ensures c.Audio? ==> c.title.None? && c.artist.None?
  {
    match FromMime(info.mimeType)
    case Some(VideoType) =>
      Blocks.Video(info.filePath, info.originalUrl, info.width, info.height, info.duration, info.mimeType, None)
    case Some(AudioType) =>
      Blocks.Audio(info.filePath, info.originalUrl, info.duration, info.mimeType, None, None)
    case _ =>
      Blocks.Image(info.filePath, info.originalUrl, info.width, info.height, info.mimeType, None)
  }

  /**
   * With an accepted path and original URL, the content built from an
   * import validates exactly when the MIME type is of a known kind: the
   * image fallback for an unknown type is rejected by the MIME check.
   */
  lemma IntoBlockContentValidates(info: MediaInfo)
    requires FilePathAccepted(info.filePath)
    requires OptionalAccepted(info.originalUrl, UrlAccepted)
    ensures ContentAccepted(IntoBlockContent(info)) <==> FromMime(info.mimeType).Some?
  {
    var c := IntoBlockContent(info);
    match FromMime(info.mimeType)
    case Some(t) =>
      FromMimeMatchesValidation(info.mimeType, t);
      assert OptionalAccepted(None, OptionalTextAccepted);
    case None =>
      FromMimeMatchesValidation(info.mimeType, ImageType);
      assert c.Image? && !MimeTypeAccepted(info.mimeType, "image");
  }

  /**
   * `get_extension_for_mime`: the file extension for the fourteen MIME types
   * the service knows, `None` for any other.
   */
  function ExtensionForMime(mime: string): (ext: Option<string>)
    ensures ext.Some? ==> ext.value != [] && '.' !in ext.value && '/' !in ext.value
  {
    if mime == "image/jpeg" then Some("jpg")
    else if mime == "image/png" then Some("png")
    else if mime == "image/gif" then Some("gif")
    else if mime == "image/webp" then Some("webp")
    else if mime == "image/svg+xml" then Some("svg")
    else if mime == "video/mp4" then Some("mp4")
    else if mime == "video/webm" then Some("webm")
    else if mime == "video/quicktime" then Some("mov")
    else if mime == "video/x-msvideo" then Some("avi")
    else if mime == "audio/mpeg" then Some("mp3")
    else if mime == "audio/ogg" then Some("ogg")
    else if mime == "audio/wav" then Some("wav")
    else if mime == "audio/webm" then Some("webm")
    else if mime == "audio/flac" then Some("flac")
    else None
  }

  /** Every MIME type in the extension table is of a known kind. */
  lemma ExtensionOnlyForMedia(mime: string)
    ensures ExtensionForMime(mime).Some? ==> FromMime(mime).Some?
  {
    if mime in {"image/jpeg", "image/png", "image/gif", "image/webp", "image/svg+xml"} {
      assert mime[..6] == "image/";
    } else if mime in {"video/mp4", "video/webm", "video/quicktime", "video/x-msvideo"} {
      assert mime[..6] == "video/";
    } else if mime in {"audio/mpeg", "audio/ogg", "audio/wav", "audio/webm", "audio/flac"} {
      assert mime[..6] == "audio/";
    }
  }

  /** Two MIME types of different kinds can share an extension: "webm" is both a video and an audio one. */
  lemma ExtensionNotInjective()
    ensures ExtensionForMime("video/webm") == ExtensionForMime("audio/webm") == Some("webm")
    ensures FromMime("video/webm") != FromMime("audio/webm")
  {
    assert StartsWith("video/webm", "video/");
    assert !StartsWith("video/webm", "image/");
    assert StartsWith("audio/webm", "audio/");
    assert !StartsWith("audio/webm", "image/") && !StartsWith("audio/webm", "video/");
  }

  /**
   * The relative path an import stores a file under: the kind's
   * sub-directory, then a generated name and the extension.
   */
  function StoredPath(t: MediaType, name: string, ext: string): (path: string)
    ensures StartsWith(path, Subdir(t) + "/")
  {
    Subdir(t) + "/" + name + "." + ext
  }

  /**
   * A stored path whose name and extension have no dot passes the file path
   * validation of block content, so imported media can become a block.
   */
  lemma StoredPathAccepted(t: MediaType, name: string, ext: string)
    requires '.' !in name && '.' !in ext
    ensures FilePathAccepted(StoredPath(t, name, ext))
  {
    var dir := Subdir(t);
    var path := StoredPath(t, name, ext);
    var dot := |dir| + 1 + |name|;
    assert path == dir + "/" + name + "." + ext;
    assert forall i :: 0 <= i < |dir| ==> path[i] == dir[i];
    assert path[|dir|] == '/';
    assert forall i :: |dir| < i < dot ==> path[i] == name[i - |dir| - 1];
    assert forall i :: dot < i < |path| ==> path[i] == ext[i - dot - 1];
  }

  /** Errors of media operations. */
  datatype MediaError =
    | Download(message: string)
    | FileRead(message: string)
    | FileWrite(message: string)
    | UnsupportedType(mimeType: string)
    | Metadata(message: string)
    | Http(message: string)
    | InvalidUrl(message: string)
    | FileTooLarge(size: nat, max: nat)
    | InvalidPath(message: string)

  /**
   * The string check at the start of `validate_path`: a path containing ".."
   * or starting with '/' is refused before the media root is consulted.
   */
  function PathPrecheck(path: string): (r: Result<(), MediaError>)
    ensures r.Err? <==> Contains(path, "..") || StartsWithChar(path, '/')
    ensures r.Err? ==> r.error == InvalidPath("Path traversal not allowed")
  {
    if Contains(path, "..") || StartsWithChar(path, '/') then Err(InvalidPath("Path traversal not allowed"))
    else Ok(())
  }

  /** Every file path that block validation accepts passes the media service's check. */
  lemma AcceptedPathPassesPrecheck(path: string)
    requires FilePathAccepted(path)
    ensures PathPrecheck(path).Ok?
  {
    ContainsDotDotIff(path);
  }

  /**
   * The check is weaker than block validation: a path starting with '\' and
   * the empty path pass it although validation refuses both.
   */
  lemma PrecheckWeakerThanValidation()
    ensures PathPrecheck("\\x").Ok? && !FilePathAccepted("\\x")
    ensures PathPrecheck("").Ok? && !FilePathAccepted("")
  {
    ContainsDotDotIff("\\x");
    ContainsDotDotIff("");
  }
}
