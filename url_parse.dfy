/**
 * A small stand-in for `url::Url::parse` with no base URL, covering what
 * `validate_url` reads back: the scheme and whether the URL has a host.
 * It follows the WHATWG URL grammar only in outline: leading and trailing C0
 * controls and spaces are dropped, the scheme is everything before the first
 * ':' (an ASCII letter, then letters, digits, '+', '-' or '.'), special
 * schemes skip any slashes before the authority, an authority ends at '/',
 * '?' or '#' (and '\' for special schemes), user information ends at the last
 * '@', a port follows the last ':', and a host may not be empty (for special
 * schemes other than file) nor hold a forbidden host character. IDNA, IPv6
 * literals and percent-decoding are not modelled.
 */
module UrlParse {
  import opened Common
  import opened Strings

  /** The parts of a parsed URL that validation inspects. */
  datatype Url = Url(scheme: string, host: Option<string>)

  /** The subset of `url::ParseError` this parser can produce. */
  datatype ParseError = RelativeUrlWithoutBase | EmptyHost | InvalidDomainCharacter | InvalidPort

  /** `Display` text of a parse error. */
  function ParseErrorText(e: ParseError): string
  {
    match e
    case RelativeUrlWithoutBase => "relative URL without a base"
    case EmptyHost => "empty host"
    case InvalidDomainCharacter => "invalid domain character"
    case InvalidPort => "invalid port number"
  }

  predicate IsC0OrSpace(c: char)
  {
    c <= ' '
  }

  function StripC0(s: string): (r: string)
    ensures |r| <= |s|
  {
    if s != [] && IsC0OrSpace(s[0]) then StripC0(s[1..])
    else if s != [] && IsC0OrSpace(s[|s| - 1]) then StripC0(s[..|s| - 1])
    else s
  }

  predicate IsAsciiAlpha(c: char)
  {
    'a' <= c <= 'z' || 'A' <= c <= 'Z'
  }

  predicate IsAsciiDigit(c: char)
  {
    '0' <= c <= '9'
  }

  predicate IsSchemeChar(c: char)
  {
    IsAsciiAlpha(c) || IsAsciiDigit(c) || c == '+' || c == '-' || c == '.'
  }

  function AsciiLower(s: string): (r: string)
    ensures |r| == |s|
  {
    if s == [] then []
    else [if 'A' <= s[0] <= 'Z' then (s[0] as int + 32) as char else s[0]] + AsciiLower(s[1..])
  }

  /** Schemes the URL standard treats specially. */
  predicate IsSpecialScheme(scheme: string)
  {
    scheme in {"http", "https", "ws", "wss", "ftp", "file"}
  }

  /** Characters that may not appear in a host. */
  predicate IsForbiddenHostChar(c: char)
  {
    c in {' ', '#', '%', '/', ':', '<', '>', '?', '@', '[', '\\', ']', '^', '|'} || c < ' '
  }

  function DropSlashes(s: string): (r: string)
    ensures |r| <= |s|
  {
    if s != [] && (s[0] == '/' || s[0] == '\\') then DropSlashes(s[1..]) else s
  }

  /** Length of the authority: up to the first '/', '?', '#' (or '\' when special). */
  function AuthorityEnd(s: string, special: bool): (n: nat)
    ensures n <= |s|
  {
    if s == [] || s[0] in {'/', '?', '#'} || (special && s[0] == '\\') then 0
    else 1 + AuthorityEnd(s[1..], special)
  }

  /** Index just after the last occurrence of `c`, or 0 when it does not occur. */
  function AfterLast(s: string, c: char): (n: nat)
    ensures n <= |s|
  {
    if s == [] then 0
    else if s[|s| - 1] == c then |s|
    else AfterLast(s[..|s| - 1], c)
  }

  /** Parse the host and port of an authority. */
  function ParseAuthority(scheme: string, rest: string): (r: Result<Url, ParseError>)
    ensures r.Ok? ==> r.value.scheme == scheme
  {
    var authority := rest[..AuthorityEnd(rest, IsSpecialScheme(scheme))];
    var hostAndPort := authority[AfterLast(authority, '@')..];
    var colon := AfterLast(hostAndPort, ':');
    var host := if colon == 0 then hostAndPort else hostAndPort[..colon - 1];
    var port := if colon == 0 then "" else hostAndPort[colon..];
    if exists i :: 0 <= i < |port| && !IsAsciiDigit(port[i]) then Err(InvalidPort)
    else if host == [] then
      (if IsSpecialScheme(scheme) && scheme != "file" then Err(EmptyHost) else Ok(Url(scheme, None)))
    else if exists i :: 0 <= i < |host| && IsForbiddenHostChar(host[i]) then Err(InvalidDomainCharacter)
    else Ok(Url(scheme, Some(host)))
  }

  /** `Url::parse` with no base. */
  function Parse(input: string): (r: Result<Url, ParseError>)
  {
    var s := StripC0(input);
    var colon := IndexOf(s, ':');
    if colon == |s| || colon == 0 || !IsAsciiAlpha(s[0])
       || exists i :: 0 <= i < colon && !IsSchemeChar(s[i]) then
      Err(RelativeUrlWithoutBase)
    else
      var scheme := AsciiLower(s[..colon]);
      var rest := s[colon + 1..];
      if IsSpecialScheme(scheme) && scheme != "file" then ParseAuthority(scheme, DropSlashes(rest))
      else if StartsWith(rest, "//") then ParseAuthority(scheme, rest[2..])
      else Ok(Url(scheme, None))
  }
}
