/**
 * The UTF-8 byte view of a Rust `str`: `len()` counts bytes, and a byte index
 * may only cut a string at a character boundary. Display titles are
 * truncated by byte length, so the model needs this view.
 */
module Utf8 {

  newtype byte = x: int | 0 <= x < 256

  /** Number of UTF-8 bytes of one scalar value. */
  function Width(c: char): (w: nat)
    ensures 1 <= w <= 4
  {
    var n := c as int;
    if n < 0x80 then 1
    else if n < 0x800 then 2
    else if n < 0x1_0000 then 3
    else 4
  }

  /** A continuation byte `10xxxxxx`; never the first byte of a character. */
  predicate IsContinuation(b: byte)
  {
    0x80 <= b < 0xC0
  }

  /** UTF-8 encoding of one scalar value. */
  function EncodeChar(c: char): (bytes: seq<byte>)
    ensures |bytes| == Width(c)
    ensures !IsContinuation(bytes[0])
    ensures forall i :: 1 <= i < |bytes| ==> IsContinuation(bytes[i])
  {
    var n := c as int;
    if n < 0x80 then
      [n as byte]
    else if n < 0x800 then
      [(0xC0 + n / 0x40) as byte, (0x80 + n % 0x40) as byte]
    else if n < 0x1_0000 then
      [(0xE0 + n / 0x1000) as byte, (0x80 + (n / 0x40) % 0x40) as byte, (0x80 + n % 0x40) as byte]
    else
      [(0xF0 + n / 0x4_0000) as byte, (0x80 + (n / 0x1000) % 0x40) as byte,
       (0x80 + (n / 0x40) % 0x40) as byte, (0x80 + n % 0x40) as byte]
  }

  /** The bytes of a string. */
  function Encode(s: string): (bytes: seq<byte>)
    ensures s == [] <==> bytes == []
    ensures s != [] ==> !IsContinuation(bytes[0])
  {
    if s == [] then [] else EncodeChar(s[0]) + Encode(s[1..])
  }

  /** `str::len`: the length in bytes. */
  function ByteLen(s: string): nat
  {
    |Encode(s)|
  }

  /** `str::is_char_boundary`. */
  predicate IsCharBoundary(bytes: seq<byte>, index: int)
  {
    index == 0 || index == |bytes| || (0 < index < |bytes| && !IsContinuation(bytes[index]))
  }

  lemma {:induction false} EncodeAppend(a: string, b: string)
    ensures Encode(a + b) == Encode(a) + Encode(b)
  {
    if a == [] {
      assert a + b == b;
    } else {
      assert (a + b)[1..] == a[1..] + b;
      EncodeAppend(a[1..], b);
    }
  }

  /**
   * The longest prefix of `s` whose encoding fits in `budget` bytes. At a
   * character boundary `i` this is the string slice `&s[..i]`.
   */
  function FitPrefix(s: string, budget: nat): (r: string)
  {
    if s == [] || Width(s[0]) > budget then []
    else [s[0]] + FitPrefix(s[1..], budget - Width(s[0]))
  }

  /**
   * `FitPrefix` is a prefix of `s` that fits the budget, and it is maximal:
   * either it is all of `s`, or one more character would not fit.
   */
  lemma {:induction false} FitPrefixIsLongestFit(s: string, budget: nat)
    ensures var r := FitPrefix(s, budget);
      |r| <= |s| && r == s[..|r|] && ByteLen(r) <= budget
      && (|r| < |s| ==> ByteLen(s[..|r| + 1]) > budget)
  {
    if s == [] || Width(s[0]) > budget {
      if s != [] {
        assert s[..1] == [s[0]];
        assert Encode(s[..1]) == EncodeChar(s[0]) + Encode([]);
      }
    } else {
      var w := Width(s[0]);
      var t := FitPrefix(s[1..], budget - w);
      FitPrefixIsLongestFit(s[1..], budget - w);
      assert ([s[0]] + t)[1..] == t;
      if |t| < |s| - 1 {
        assert s[..|t| + 2] == [s[0]] + s[1..][..|t| + 1];
        assert Encode(s[..|t| + 2]) == EncodeChar(s[0]) + Encode(s[1..][..|t| + 1]);
      }
    }
  }

  /** The encoding of the fitting prefix is a byte prefix of the encoding. */
  lemma {:induction false} FitPrefixBytes(s: string, budget: nat)
    ensures ByteLen(FitPrefix(s, budget)) <= ByteLen(s)
    ensures Encode(FitPrefix(s, budget)) == Encode(s)[..ByteLen(FitPrefix(s, budget))]
  {
    var r := FitPrefix(s, budget);
    FitPrefixIsLongestFit(s, budget);
    assert s == r + s[|r|..];
    EncodeAppend(r, s[|r|..]);
  }

  /** A string that fits the budget is kept whole. */
  lemma {:induction false} FitPrefixWhole(s: string, budget: nat)
    requires ByteLen(s) <= budget
    ensures FitPrefix(s, budget) == s
  {
    if s != [] {
      assert Encode(s) == EncodeChar(s[0]) + Encode(s[1..]);
      FitPrefixWhole(s[1..], budget - Width(s[0]));
      assert [s[0]] + s[1..] == s;
    }
  }

  /**
   * Shrinking the budget down to what the fitting prefix uses does not change
   * the prefix.
   */
  lemma {:induction false} FitPrefixStable(s: string, budget: nat, smaller: nat)
    requires ByteLen(FitPrefix(s, budget)) <= smaller <= budget
    ensures FitPrefix(s, smaller) == FitPrefix(s, budget)
  {
    if s != [] && Width(s[0]) <= budget {
      var w := Width(s[0]);
      assert Encode(FitPrefix(s, budget)) == EncodeChar(s[0]) + Encode(FitPrefix(s[1..], budget - w));
      FitPrefixStable(s[1..], budget - w, smaller - w);
    }
  }

  /** A larger budget never yields fewer bytes. */
  lemma {:induction false} FitPrefixMonotone(s: string, small: nat, large: nat)
    requires small <= large
    ensures ByteLen(FitPrefix(s, small)) <= ByteLen(FitPrefix(s, large))
  {
    if s != [] && Width(s[0]) <= small {
      var w := Width(s[0]);
      FitPrefixMonotone(s[1..], small - w, large - w);
      assert Encode(FitPrefix(s, small)) == EncodeChar(s[0]) + Encode(FitPrefix(s[1..], small - w));
      assert Encode(FitPrefix(s, large)) == EncodeChar(s[0]) + Encode(FitPrefix(s[1..], large - w));
    }
  }

  /**
   * A byte index is a character boundary exactly when the longest fitting
   * prefix fills it completely.
   */
  lemma {:induction false} BoundaryIffPrefixFills(s: string, index: nat)
    requires index <= ByteLen(s)
    ensures IsCharBoundary(Encode(s), index) <==> ByteLen(FitPrefix(s, index)) == index
  {
    if s == [] || index == 0 {
    } else {
      var w := Width(s[0]);
      var e := Encode(s);
      var head := EncodeChar(s[0]);
      var tail := Encode(s[1..]);
      assert e == head + tail;
      if index < w {
        assert e[index] == head[index];
        assert FitPrefix(s, index) == [];
      } else if index == w {
        assert Encode(FitPrefix(s, index)) == head + Encode(FitPrefix(s[1..], 0));
        assert FitPrefix(s[1..], 0) == [];
        if index < |e| {
          assert e[index] == tail[0];
        }
      } else {
        BoundaryIffPrefixFills(s[1..], index - w);
        assert Encode(FitPrefix(s, index)) == head + Encode(FitPrefix(s[1..], index - w));
        if index < |e| {
          assert e[index] == tail[index - w];
        }
      }
    }
  }

  /**
   * Moving down from `start` to the nearest character boundary and slicing
   * there gives the longest fitting prefix for `start`.
   */
  lemma NearestBoundaryGivesFitPrefix(s: string, start: nat, end: nat)
    requires end <= start <= ByteLen(s)
    requires IsCharBoundary(Encode(s), end)
    requires forall j :: end < j <= start ==> !IsCharBoundary(Encode(s), j)
    ensures FitPrefix(s, end) == FitPrefix(s, start)
  {
    var len := ByteLen(FitPrefix(s, start));
    FitPrefixIsLongestFit(s, start);
    FitPrefixIsLongestFit(s, end);
    BoundaryIffPrefixFills(s, end);
    FitPrefixMonotone(s, end, start);
    FitPrefixStable(s, start, len);
    BoundaryIffPrefixFills(s, len);
    FitPrefixStable(s, start, end);
  }
}
