/**
 * The parts of Rust's `str` that the validators and display titles rely on:
 * Unicode `White_Space`, `trim`, `starts_with`, `contains` and the first item
 * of `lines()`. A Rust `String` is a `seq<char>` of Unicode scalar values.
 */
module Strings {

  /** Unicode `White_Space` property, which `char::is_whitespace` tests. */
  predicate IsWhitespace(c: char)
  {
    ('\U{0009}' <= c <= '\U{000D}') || c == '\U{0020}' || c == '\U{0085}' || c == '\U{00A0}'
    || c == '\U{1680}' || ('\U{2000}' <= c <= '\U{200A}') || c == '\U{2028}' || c == '\U{2029}'
    || c == '\U{202F}' || c == '\U{205F}' || c == '\U{3000}'
  }

  /** Every character is whitespace (this includes the empty string). */
  ghost predicate IsBlank(s: string)
  {
    forall i :: 0 <= i < |s| ==> IsWhitespace(s[i])
  }

  function TrimStart(s: string): (r: string)
    ensures |r| <= |s| && r == s[|s| - |r|..]
    ensures r != [] ==> !IsWhitespace(r[0])
    ensures forall i :: 0 <= i < |s| - |r| ==> IsWhitespace(s[i])
  {
    if s == [] || !IsWhitespace(s[0]) then s else TrimStart(s[1..])
  }

  function TrimEnd(s: string): (r: string)
    ensures |r| <= |s| && r == s[..|r|]
    ensures r != [] ==> !IsWhitespace(r[|r| - 1])
    ensures forall i :: |r| <= i < |s| ==> IsWhitespace(s[i])
  {
    if s == [] || !IsWhitespace(s[|s| - 1]) then s else TrimEnd(s[..|s| - 1])
  }

  /** `str::trim`: strip leading and trailing whitespace. */
  function Trim(s: string): string
  {
    TrimEnd(TrimStart(s))
  }

  /** A string trims to nothing exactly when it is blank. */
  lemma TrimEmptyIffBlank(s: string)
    ensures Trim(s) == [] <==> IsBlank(s)
  {
    var t := TrimStart(s);
    if Trim(s) == [] {
      assert t == [];
    } else {
      var r := Trim(s);
      assert !IsWhitespace(r[0]);
      assert r[0] == t[0] == s[|s| - |t|];
    }
  }

  /** What `trim` keeps starts and ends with a visible character. */
  lemma TrimIsVisibleCore(s: string)
    ensures Trim(s) != [] ==> !IsWhitespace(Trim(s)[0]) && !IsWhitespace(Trim(s)[|Trim(s)| - 1])
  {
    var t := TrimStart(s);
    var r := TrimEnd(t);
    if r != [] {
      assert r[0] == t[0];
    }
  }

  /** What `trim` keeps is the slice of the input after the leading whitespace. */
  lemma TrimIsSlice(s: string)
    ensures OccursAt(s, Trim(s), |s| - |TrimStart(s)|)
  {
    var t := TrimStart(s);
    PrefixOfSuffixOccurs(s, t, TrimEnd(t));
  }

  /** A prefix of a suffix of `s` occurs in `s` where that suffix starts. */
  lemma PrefixOfSuffixOccurs(s: string, t: string, r: string)
    requires |t| <= |s| && t == s[|s| - |t|..]
    requires |r| <= |t| && r == t[..|r|]
    ensures OccursAt(s, r, |s| - |t|)
  {
    var k := |s| - |t|;
    assert s[k..k + |r|] == t[..|r|];
  }

  /** `str::starts_with` for a string pattern. */
  predicate StartsWith(s: string, prefix: string)
  {
    |prefix| <= |s| && s[..|prefix|] == prefix
  }

  /** `str::starts_with` for a `char` pattern. */
  predicate StartsWithChar(s: string, c: char)
  {
    |s| > 0 && s[0] == c
  }

  /** `needle` occurs in `s` at index `i`. */
  predicate OccursAt(s: string, needle: string, i: int)
  {
    0 <= i && i + |needle| <= |s| && s[i..i + |needle|] == needle
  }

  /** `str::contains` for a string pattern: scan from the left. */
  function Contains(s: string, needle: string): (r: bool)
    ensures r <==> exists i :: OccursAt(s, needle, i)
    decreases |s|
  {
    if StartsWith(s, needle) then
      assert OccursAt(s, needle, 0);
      true
    else if |s| <= |needle| then
      false
    else
      var rest := Contains(s[1..], needle);
      assert !OccursAt(s, needle, 0);
      assert rest ==> exists i :: OccursAt(s, needle, i) by {
        if rest {
          var i :| OccursAt(s[1..], needle, i);
          assert s[1..][i..i + |needle|] == s[i + 1..i + 1 + |needle|];
          assert OccursAt(s, needle, i + 1);
        }
      }
      assert (exists i :: OccursAt(s, needle, i)) ==> rest by {
        if exists i :: OccursAt(s, needle, i) {
          var i :| OccursAt(s, needle, i);
          assert i != 0;
          assert s[1..][i - 1..i - 1 + |needle|] == s[i..i + |needle|];
          assert OccursAt(s[1..], needle, i - 1);
        }
      }
      rest
  }

  /** Both operands of a concatenation occur in it. */
  lemma ContainsBothParts(a: string, b: string)
    ensures Contains(a + b, a) && Contains(a + b, b)
  {
    assert OccursAt(a + b, a, 0);
    assert OccursAt(a + b, b, |a|);
  }

  /** The middle operand of a concatenation occurs in it. */
  lemma ContainsMiddle(a: string, b: string, c: string)
    ensures Contains(a + b + c, b)
  {
    assert (a + b + c)[|a|..|a| + |b|] == b;
    assert OccursAt(a + b + c, b, |a|);
  }

  /** A string contains "..": two adjacent dots. */
  lemma ContainsDotDotIff(s: string)
    ensures Contains(s, "..") <==> exists i :: 0 <= i < |s| - 1 && s[i] == '.' && s[i + 1] == '.'
  {
    if Contains(s, "..") {
      var i :| OccursAt(s, "..", i);
      DotDotAt(s, i);
    } else {
      forall i | 0 <= i < |s| - 1
        ensures !(s[i] == '.' && s[i + 1] == '.')
      {
        DotDotAt(s, i);
      }
    }
  }

  /** ".." occurs at `i` exactly when the characters at `i` and `i + 1` are dots. */
  lemma DotDotAt(s: string, i: int)
    requires 0 <= i < |s| - 1
    ensures OccursAt(s, "..", i) <==> s[i] == '.' && s[i + 1] == '.'
  {
    assert s[i..i + 2] == [s[i], s[i + 1]];
  }

  /** Index of the first occurrence of `c` in `s`, or `|s|` when it does not occur. */
  function IndexOf(s: string, c: char): (i: nat)
    ensures i <= |s|
    ensures i < |s| ==> s[i] == c
    ensures forall j :: 0 <= j < i ==> s[j] != c
  {
    if s == [] then 0
    else if s[0] == c then 0
    else 1 + IndexOf(s[1..], c)
  }

  /**
   * The first item of `str::lines()`, or the whole string when it yields
   * nothing: text up to the first '\n', minus one '\r' just before it.
   */
  function FirstLine(s: string): (line: string)
    ensures StartsWith(s, line)
    ensures '\n' !in line
  {
    var i := IndexOf(s, '\n');
    if i == |s| then s
    else if i > 0 && s[i - 1] == '\r' then s[..i - 1]
    else s[..i]
  }

  /** A string without a line feed is its own first line. */
  lemma FirstLineOfSingleLine(s: string)
    requires '\n' !in s
    ensures FirstLine(s) == s
  {
  }

  /** The first line followed by the line terminator (when any) begins the text. */
  lemma FirstLineThenTerminator(s: string)
    requires '\n' in s
    ensures StartsWith(s, FirstLine(s) + "\n") || StartsWith(s, FirstLine(s) + "\r\n")
  {
    var i := IndexOf(s, '\n');
    var k :| 0 <= k < |s| && s[k] == '\n';
    assert i <= k;
    if i > 0 && s[i - 1] == '\r' {
      assert s[..i + 1] == s[..i - 1] + "\r\n";
    } else {
      assert s[..i + 1] == s[..i] + "\n";
    }
  }
}
