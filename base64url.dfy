/**
 * Unpadded URL-safe base64 (section 5 of RFC 4648 without the `=` padding),
 * the encoding both handlers apply to 32 random bytes to name an asset.
 * `Decode` is its inverse; it is used to state that distinct random bytes
 * always give distinct names.
 */
module Base64Url {
  import opened Wrappers

  /** An octet. */
  type byte = x: int | 0 <= x < 256

  /** A 6-bit group: an index into the alphabet. */
  type sextet = x: int | 0 <= x < 64

  /** The 32 random bytes drawn for every key and thumbnail name. */
  type Bytes32 = s: seq<byte> | |s| == 32 witness seq(32, _ => 0)

  /** The characters of the URL- and filename-safe alphabet. */
  predicate IsUrlSafe(c: char) {
    ('A' <= c <= 'Z') || ('a' <= c <= 'z') || ('0' <= c <= '9') || c == '-' || c == '_'
  }

  predicate AllUrlSafe(s: string) {
    forall i :: 0 <= i < |s| ==> IsUrlSafe(s[i])
  }

  /** Table 2 of RFC 4648: value 0..25 is A..Z, 26..51 is a..z, 52..61 is 0..9, then `-` and `_`. */
  function Char(v: sextet): (c: char)
    ensures IsUrlSafe(c)
  {
    if v < 26 then ('A' as int + v) as char
    else if v < 52 then ('a' as int + (v - 26)) as char
    else if v < 62 then ('0' as int + (v - 52)) as char
    else if v == 62 then '-'
    else '_'
  }

  /** The value of an alphabet character; the inverse of `Char`. */
  function Value(c: char): (v: sextet)
    requires IsUrlSafe(c)
  {
    if 'A' <= c <= 'Z' then c as int - 'A' as int
    else if 'a' <= c <= 'z' then c as int - 'a' as int + 26
    else if '0' <= c <= '9' then c as int - '0' as int + 52
    else if c == '-' then 62
    else 63
  }

  lemma ValueOfChar(v: sextet)
    ensures Value(Char(v)) == v
  {
  }

  /**
   * Encoding: each group of three bytes becomes four characters; a trailing
   * single byte becomes two characters and a trailing pair three, with no padding.
   */
  function Encode(s: seq<byte>): (r: string)
    ensures |r| == (8 * |s| + 5) / 6
    ensures AllUrlSafe(r)
    decreases |s|
  {
    if |s| == 0 then ""
    else if |s| == 1 then
      [Char(s[0] / 4), Char(s[0] % 4 * 16)]
    else if |s| == 2 then
      [Char(s[0] / 4), Char(s[0] % 4 * 16 + s[1] / 16), Char(s[1] % 16 * 4)]
    else EncodeGroup(s[0], s[1], s[2]) + Encode(s[3..])
  }

  /** Three bytes, 24 bits, as four sextets, most significant first. */
  function EncodeGroup(b0: byte, b1: byte, b2: byte): (r: string)
    ensures |r| == 4 && AllUrlSafe(r)
  {
    [Char(b0 / 4), Char(b0 % 4 * 16 + b1 / 16), Char(b1 % 16 * 4 + b2 / 64), Char(b2 % 64)]
  }

  /** Decoding of a string whose characters are all in the alphabet and whose length is not 1 modulo 4. */
  function DecodeChars(s: string): (r: seq<byte>)
    requires AllUrlSafe(s) && |s| % 4 != 1
    decreases |s|
  {
    if |s| == 0 then []
    else if |s| == 2 then
      [Value(s[0]) * 4 + Value(s[1]) / 16]
    else if |s| == 3 then
      [Value(s[0]) * 4 + Value(s[1]) / 16, Value(s[1]) % 16 * 16 + Value(s[2]) / 4]
    else DecodeGroup(s[0], s[1], s[2], s[3]) + DecodeChars(s[4..])
  }

  /** Four sextets back to the three bytes they carry. */
  function DecodeGroup(c0: char, c1: char, c2: char, c3: char): (r: seq<byte>)
    requires IsUrlSafe(c0) && IsUrlSafe(c1) && IsUrlSafe(c2) && IsUrlSafe(c3)
    ensures |r| == 3
  {
    [Value(c0) * 4 + Value(c1) / 16, Value(c1) % 16 * 16 + Value(c2) / 4, Value(c2) % 4 * 64 + Value(c3)]
  }

  /** Decoding; fails on a character outside the alphabet or an impossible length. */
  function Decode(s: string): (r: Option<seq<byte>>)
    ensures r.Some? <==> AllUrlSafe(s) && |s| % 4 != 1
  {
    if AllUrlSafe(s) && |s| % 4 != 1 then Some(DecodeChars(s)) else None
  }

  /** The bit arithmetic of one group: the three bytes come back from their four sextets. */
  lemma GroupArithmetic(b0: byte, b1: byte, b2: byte)
    ensures b0 / 4 * 4 + (b0 % 4 * 16 + b1 / 16) / 16 == b0
    ensures (b0 % 4 * 16 + b1 / 16) % 16 * 16 + (b1 % 16 * 4 + b2 / 64) / 4 == b1
    ensures (b1 % 16 * 4 + b2 / 64) % 4 * 64 + b2 % 64 == b2
  {
  }

  lemma EncodedLengthMod(n: nat)
    ensures (8 * n + 5) / 6 % 4 != 1
  {
  }

  lemma DecodeCharsTail1(b0: byte)
    ensures DecodeChars(Encode([b0])) == [b0]
  {
    var e := Encode([b0]);
    assert e == [Char(b0 / 4), Char(b0 % 4 * 16)];
    ValueOfChar(b0 / 4);
    ValueOfChar(b0 % 4 * 16);
    GroupArithmetic(b0, 0, 0);
  }

  lemma DecodeCharsTail2(b0: byte, b1: byte)
    ensures DecodeChars(Encode([b0, b1])) == [b0, b1]
  {
    var e := Encode([b0, b1]);
    assert e == [Char(b0 / 4), Char(b0 % 4 * 16 + b1 / 16), Char(b1 % 16 * 4)];
    ValueOfChar(b0 / 4);
    ValueOfChar(b0 % 4 * 16 + b1 / 16);
    ValueOfChar(b1 % 16 * 4);
    GroupArithmetic(b0, b1, 0);
  }

  lemma DecodeGroupEncodeGroup(b0: byte, b1: byte, b2: byte)
    ensures var g := EncodeGroup(b0, b1, b2);
            DecodeGroup(g[0], g[1], g[2], g[3]) == [b0, b1, b2]
  {
    ValueOfChar(b0 / 4);
    ValueOfChar(b0 % 4 * 16 + b1 / 16);
    ValueOfChar(b1 % 16 * 4 + b2 / 64);
    ValueOfChar(b2 % 64);
    GroupArithmetic(b0, b1, b2);
  }

  /** Decoding consumes a string four characters at a time. */
  lemma DecodeCharsPrepend(g: string, rest: string)
    requires |g| == 4 && AllUrlSafe(g)
    requires AllUrlSafe(rest) && |rest| % 4 != 1
    ensures AllUrlSafe(g + rest) && |g + rest| % 4 != 1
    ensures DecodeChars(g + rest) == DecodeGroup(g[0], g[1], g[2], g[3]) + DecodeChars(rest)
  {
    var e := g + rest;
    assert forall i :: 0 <= i < |e| ==> e[i] == if i < 4 then g[i] else rest[i - 4];
    assert e[4..] == rest;
  }

  lemma EncodeUnfold(s: seq<byte>)
    requires |s| >= 3
    ensures Encode(s) == EncodeGroup(s[0], s[1], s[2]) + Encode(s[3..])
  {
  }

  lemma DecodeCharsGroupThenRest(s: seq<byte>, g: string, rest: string)
    requires |s| >= 3 && |g| == 4 && AllUrlSafe(g) && DecodeGroup(g[0], g[1], g[2], g[3]) == [s[0], s[1], s[2]]
    requires AllUrlSafe(rest) && |rest| % 4 != 1 && DecodeChars(rest) == s[3..]
    ensures AllUrlSafe(g + rest) && |g + rest| % 4 != 1 && DecodeChars(g + rest) == s
  {
    DecodeCharsPrepend(g, rest);
    assert [s[0], s[1], s[2]] + s[3..] == s;
  }

  /** Encodings of fewer than three bytes decode back. */
  lemma DecodeCharsEncodeShort(s: seq<byte>)
    requires |s| < 3
    ensures |Encode(s)| % 4 != 1 && DecodeChars(Encode(s)) == s
  {
    if |s| == 1 {
      assert s == [s[0]];
      DecodeCharsTail1(s[0]);
    } else if |s| == 2 {
      assert s == [s[0], s[1]];
      DecodeCharsTail2(s[0], s[1]);
    }
  }

  /** The inductive step: a decodable rest stays decodable behind one more group. */
  lemma DecodeCharsEncodeStep(s: seq<byte>)
    requires |s| >= 3
    requires |Encode(s[3..])| % 4 != 1 && DecodeChars(Encode(s[3..])) == s[3..]
    ensures |Encode(s)| % 4 != 1 && DecodeChars(Encode(s)) == s
  {
    var g, rest := EncodeGroup(s[0], s[1], s[2]), Encode(s[3..]);
    EncodeUnfold(s);
    DecodeGroupEncodeGroup(s[0], s[1], s[2]);
    DecodeCharsGroupThenRest(s, g, rest);
  }

  lemma {:induction false} DecodeCharsEncode(s: seq<byte>)
    ensures |Encode(s)| % 4 != 1
    ensures DecodeChars(Encode(s)) == s
    decreases |s|
  {
    if |s| < 3 {
      DecodeCharsEncodeShort(s);
    } else {
      DecodeCharsEncode(s[3..]);
      DecodeCharsEncodeStep(s);
    }
  }

  /** Decoding undoes encoding. */
  lemma DecodeEncode(s: seq<byte>)
    ensures Decode(Encode(s)) == Some(s)
  {
    DecodeCharsEncode(s);
  }

  /** Distinct byte strings have distinct encodings. */
  lemma EncodeInjective(a: seq<byte>, b: seq<byte>)
    requires Encode(a) == Encode(b)
    ensures a == b
  {
    DecodeEncode(a);
    DecodeEncode(b);
  }

  /** Thirty-two bytes encode to 43 characters, none of them `/`, `+` or `=`. */
  lemma EncodeBytes32(s: Bytes32)
    ensures |Encode(s)| == 43
    ensures '/' !in Encode(s) && '+' !in Encode(s) && '=' !in Encode(s)
  {
    var e := Encode(s);
    assert forall i :: 0 <= i < |e| ==> e[i] != '/' && e[i] != '+' && e[i] != '=';
  }
}
