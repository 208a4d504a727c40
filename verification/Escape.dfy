/**
 * The value encoder: every control byte, double quote, backslash and byte from 0x7F up is
 * written as a four-byte group `\xHH`; every other byte is copied.
 */
module Escape {
  import opened Values

  const QUOTE: byte := 0x22
  const BACKSLASH: byte := 0x5C
  const LOWER_X: byte := 0x78

  /** The eight words of the escape bitmap, one per block of 32 byte values. */
  function BitmapWord(block: bv8): bv32 {
    if block == 0 then 0xFFFF_FFFF
    else if block == 1 then 0x0000_0004
    else if block == 2 then 0x1000_0000
    else if block == 3 then 0x8000_0000
    else 0xFFFF_FFFF
  }

  /** The encoder's bit test selects exactly the bytes that are unsafe to print. */
  predicate NeedsEscape(c: byte): (b: bool)
    ensures b <==> c < 0x20 || c == QUOTE || c == BACKSLASH || 0x7F <= c
  {
    BitmapWord(c >> 5) & ((1 as bv32) << (c & 0x1F)) != 0
  }

  function HexDigit(n: bv8): byte {
    if n < 10 then 0x30 + n else 0x37 + n
  }

  function EscapeByte(c: byte): (g: seq<byte>)
    ensures |g| == if NeedsEscape(c) then 4 else 1
  {
    if NeedsEscape(c) then [BACKSLASH, LOWER_X, HexDigit(c >> 4), HexDigit(c & 0xF)] else [c]
  }

  /** The sixteen digits of the encoder. */
  const HEX_DIGITS: seq<byte> := [
    0x30, 0x31, 0x32, 0x33, 0x34, 0x35, 0x36, 0x37, 0x38, 0x39, 0x41, 0x42, 0x43, 0x44, 0x45, 0x46]

  /** A group is a backslash, a small x, and the two digits of the byte; other bytes stay. */
  lemma GroupSpelling(c: byte)
    ensures c < 0x20 || c == 0x22 || c == 0x5C || 0x7F <= c ==>
              EscapeByte(c) == [0x5C, 0x78, HEX_DIGITS[c >> 4], HEX_DIGITS[c & 0xF]]
    ensures !(c < 0x20 || c == 0x22 || c == 0x5C || 0x7F <= c) ==> EscapeByte(c) == [c]
  {
    DigitSpelling(c >> 4);
    DigitSpelling(c & 0xF);
  }

  lemma DigitSpelling(n: bv8)
    requires n < 16
    ensures HexDigit(n) == HEX_DIGITS[n]
  {
  }

  /** The text written for `s`. */
  function EscapeText(s: seq<byte>): seq<byte> {
    if s == [] then [] else EscapeByte(s[0]) + EscapeText(s[1..])
  }

  /** How many bytes of `s` are written as groups. */
  function CountEscaped(s: seq<byte>): nat {
    if s == [] then 0 else (if NeedsEscape(s[0]) then 1 else 0) + CountEscaped(s[1..])
  }

  lemma {:induction false} EscapeTextAppend(s: seq<byte>, t: seq<byte>)
    ensures EscapeText(s + t) == EscapeText(s) + EscapeText(t)
    ensures CountEscaped(s + t) == CountEscaped(s) + CountEscaped(t)
  {
    hide EscapeByte, NeedsEscape;
    if s == [] {
      assert s + t == t;
    } else {
      EscapeTextAppend(s[1..], t);
      assert (s + t)[1..] == s[1..] + t && (s + t)[0] == s[0];
      assert EscapeByte(s[0]) + (EscapeText(s[1..]) + EscapeText(t)) == EscapeText(s) + EscapeText(t);
    }
  }

  /** The first pass sizes the second pass exactly. */
  lemma {:induction false} EscapedLength(s: seq<byte>)
    ensures |EscapeText(s)| == |s| + 3 * CountEscaped(s)
  {
    if s != [] {
      EscapedLength(s[1..]);
    }
  }

  /** Without anything to escape the text is the value itself. */
  lemma {:induction false} NothingToEscape(s: seq<byte>)
    ensures CountEscaped(s) == 0 <==> EscapeText(s) == s
  {
    EscapedLength(s);
    if s != [] && CountEscaped(s) == 0 {
      NothingToEscape(s[1..]);
    }
  }

  // ---------------------------------------------------------------- decoding

  predicate IsHexDigit(c: byte) {
    0x30 <= c <= 0x39 || 0x41 <= c <= 0x46
  }

  function HexValue(c: byte): bv8 {
    if c <= 0x39 then c - 0x30 else c - 0x37
  }

  /** A reader of `\xHH` groups; `None` for text that holds a broken group. */
  function Unescape(t: seq<byte>): Option<seq<byte>> {
    if t == [] then
      Some([])
    else if t[0] != BACKSLASH then
      Prepend(t[0], Unescape(t[1..]))
    else if 4 <= |t| && t[1] == LOWER_X && IsHexDigit(t[2]) && IsHexDigit(t[3]) then
      Prepend((HexValue(t[2]) << 4) | HexValue(t[3]), Unescape(t[4..]))
    else
      None
  }

  function Prepend(c: byte, rest: Option<seq<byte>>): Option<seq<byte>> {
    match rest
    case None => None
    case Some(s) => Some([c] + s)
  }

  lemma HexRoundTrip(c: byte)
    ensures IsHexDigit(HexDigit(c >> 4)) && IsHexDigit(HexDigit(c & 0xF))
    ensures (HexValue(HexDigit(c >> 4)) << 4) | HexValue(HexDigit(c & 0xF)) == c
  {
  }

  /** Decoding is a left inverse of encoding, on every byte string. */
  lemma {:induction false} RoundTrip(s: seq<byte>)
    ensures Unescape(EscapeText(s)) == Some(s)
  {
    if s != [] {
      var c, rest := s[0], EscapeText(s[1..]);
      RoundTrip(s[1..]);
      HexRoundTrip(c);
      assert s == [c] + s[1..];
      if NeedsEscape(c) {
        assert EscapeText(s)[4..] == rest;
      } else {
        assert EscapeText(s)[1..] == rest;
      }
    }
  }

  /** Two different values are never stored as the same text. */
  lemma EscapeIsInjective(s: seq<byte>, t: seq<byte>)
    requires EscapeText(s) == EscapeText(t)
    ensures s == t
  {
    RoundTrip(s);
    RoundTrip(t);
  }

  /** A whole group starts at position `i`. */
  predicate GroupAt(t: seq<byte>, i: nat) {
    i + 3 < |t| && t[i] == BACKSLASH && t[i + 1] == LOWER_X && IsHexDigit(t[i + 2]) && IsHexDigit(t[i + 3])
  }

  /** Stored text is printable ASCII without double quotes, and a backslash only opens a group. */
  ghost predicate Printable(t: seq<byte>) {
    forall i: nat | i < |t| ::
      0x20 <= t[i] <= 0x7E && t[i] != QUOTE && (t[i] == BACKSLASH ==> GroupAt(t, i))
  }

  lemma HexDigitsArePlain(c: byte)
    ensures forall d: bv8 | d < 16 ::
              0x20 <= HexDigit(d) <= 0x7E && HexDigit(d) != QUOTE && HexDigit(d) != BACKSLASH
  {
  }

  lemma {:induction false} EscapedIsPrintable(s: seq<byte>)
    ensures Printable(EscapeText(s))
  {
    if s != [] {
      var g, rest, t := EscapeByte(s[0]), EscapeText(s[1..]), EscapeText(s);
      EscapedIsPrintable(s[1..]);
      HexRoundTrip(s[0]);
      HexDigitsArePlain(s[0]);
      forall i: nat | i < |t|
        ensures 0x20 <= t[i] <= 0x7E && t[i] != QUOTE && (t[i] == BACKSLASH ==> GroupAt(t, i))
      {
        if |g| <= i {
          assert t[i] == rest[i - |g|];
          assert t[i] == BACKSLASH ==> GroupAt(rest, i - |g|);
        }
      }
    }
  }

  // -------------------------------------------------------------- truncation

  /** How many whole groups of the text of `s` fit in `limit` bytes. */
  function CutPoint(s: seq<byte>, limit: nat): (k: nat)
    ensures k <= |s|
  {
    if s == [] || limit < |EscapeByte(s[0])| then 0
    else 1 + CutPoint(s[1..], limit - |EscapeByte(s[0])|)
  }

  /**
   * A text cut at `limit` bytes is the whole text of the first `k` source bytes followed by a
   * proper prefix, of at most three bytes, of the next group.
   */
  lemma {:induction false} TruncationShape(s: seq<byte>, limit: nat)
    requires limit <= |EscapeText(s)|
    ensures var k := CutPoint(s, limit); var whole := EscapeText(s[..k]);
            && |whole| <= limit
            && whole <= EscapeText(s)[..limit]
            && limit - |whole| <= 3
            && (|whole| < limit ==> k < |s| && EscapeText(s)[|whole|..limit] < EscapeByte(s[k]))
  {
    hide EscapeByte, NeedsEscape;
    if s == [] {
    } else {
      var g, k := EscapeByte(s[0]), CutPoint(s, limit);
      if limit < |g| {
        assert s[..0] == [];
        assert EscapeText(s)[..limit] == g[..limit];
      } else {
        TruncationShape(s[1..], limit - |g|);
        assert s[..k][1..] == s[1..][..k - 1];
        var inner := EscapeText(s[1..][..k - 1]);
        assert EscapeText(s[..k]) == g + inner;
        assert EscapeText(s)[..limit] == g + EscapeText(s[1..])[..limit - |g|];
        assert EscapeText(s)[|g| + |inner|..limit] == EscapeText(s[1..])[|inner|..limit - |g|];
      }
    }
  }

  /** No longer prefix of the source has its whole text below the cut. */
  lemma {:induction false} CutPointIsLargest(s: seq<byte>, limit: nat, j: nat)
    requires j <= |s|
    ensures |EscapeText(s[..j])| <= limit <==> j <= CutPoint(s, limit)
  {
    if j == 0 {
      assert s[..0] == [];
    } else {
      var g := EscapeByte(s[0]);
      assert s[..j][1..] == s[1..][..j - 1];
      assert EscapeText(s[..j]) == g + EscapeText(s[1..][..j - 1]);
      if |g| <= limit {
        CutPointIsLargest(s[1..], limit - |g|, j - 1);
      }
    }
  }

  /** What the database holds after a cut still reads back as a prefix of the source. */
  lemma TruncatedTextDecodes(s: seq<byte>, limit: nat)
    requires limit <= |EscapeText(s)|
    ensures var k := CutPoint(s, limit); var whole := |EscapeText(s[..k])|;
            && whole <= limit <= whole + 3
            && Unescape(EscapeText(s)[..limit][..whole]) == Some(s[..k])
  {
    TruncationShape(s, limit);
    var whole := EscapeText(s[..CutPoint(s, limit)]);
    assert EscapeText(s)[..limit][..|whole|] == whole;
    RoundTrip(s[..CutPoint(s, limit)]);
  }

  // ------------------------------------------------------------ the two passes

  /**
   * The encoder. Without a destination it counts the bytes to escape; with one it writes the
   * text from the start of `dst` and returns where it stopped.
   */
  method OpEscape(dst: array?<byte>, src: seq<byte>) returns (r: nat)
    requires dst != null ==> |EscapeText(src)| <= dst.Length
    modifies if dst == null then {} else {dst}
    ensures dst == null ==> r == CountEscaped(src)
    ensures dst != null ==>
              && r == |EscapeText(src)|
              && dst[..r] == EscapeText(src)
              && dst[r..] == old(dst[..])[r..]
  {
    var i, size := 0, |src|;
    if dst == null {
      r := 0;
      while size > 0
        invariant size == |src| - i && 0 <= i <= |src|
        invariant r == CountEscaped(src[..i])
      {
        EscapeTextAppend(src[..i], [src[i]]);
        assert src[..i + 1] == src[..i] + [src[i]];
        if NeedsEscape(src[i]) {
          r := r + 1;
        }
        i, size := i + 1, size - 1;
      }
      assert src[..i] == src;
      return;
    }

    r := 0;
    while size > 0
      invariant size == |src| - i && 0 <= i <= |src|
      invariant r == |EscapeText(src[..i])| && r <= dst.Length
      invariant dst[..r] == EscapeText(src[..i])
      invariant dst[r..] == old(dst[..])[r..]
    {
      Progress(src, i);
      r := PutByte(dst, r, src[i]);
      i, size := i + 1, size - 1;
    }
    assert src[..i] == src;
  }

  /** One turn of the writing loop. */
  method PutByte(dst: array<byte>, at: nat, c: byte) returns (next: nat)
    requires at + |EscapeByte(c)| <= dst.Length
    modifies dst
    ensures next == at + |EscapeByte(c)|
    ensures dst[..next] == old(dst[..at]) + EscapeByte(c)
    ensures dst[next..] == old(dst[next..])
  {
    if NeedsEscape(c) {
      dst[at], dst[at + 1] := BACKSLASH, LOWER_X;
      dst[at + 2], dst[at + 3] := HexDigit(c >> 4), HexDigit(c & 0xF);
      next := at + 4;
    } else {
      dst[at] := c;
      next := at + 1;
    }
  }

  lemma Progress(src: seq<byte>, i: nat)
    requires i < |src|
    ensures EscapeText(src[..i + 1]) == EscapeText(src[..i]) + EscapeByte(src[i])
    ensures |EscapeText(src[..i + 1])| <= |EscapeText(src)|
  {
    assert src[..i + 1] == src[..i] + [src[i]];
    EscapeTextAppend(src[..i], [src[i]]);
    assert EscapeText([src[i]]) == EscapeByte(src[i]);
    assert src == src[..i + 1] + src[i + 1..];
    EscapeTextAppend(src[..i + 1], src[i + 1..]);
  }
}
