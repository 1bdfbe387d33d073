/**
 * Base16 ("hex") encoding as defined in section 8 of RFC 4648, in the form the
 * Rust `hex` crate gives it: encoding writes two lower-case digits per byte,
 * high nibble first. Decoding works on the bytes of its input, so a Rust
 * `String` is read as its UTF-8 encoding. It accepts upper- and lower-case
 * digits and rejects an odd number of bytes before looking at any of them.
 * Otherwise it reports the first byte that is not a hexadecimal digit, as the
 * character `byte as char`, together with its byte position.
 */
module Hex {
  import opened Wrappers
  import opened Primitives

  /** A character whose code is below 256: what Rust's `u8 as char` gives. */
  type Latin1Char = c: char | c as int < 0x100

  datatype HexError = OddLength | InvalidHexCharacter(c: Latin1Char, index: nat)

  predicate IsHexDigit(c: char)
  {
    ('0' <= c <= '9') || ('a' <= c <= 'f') || ('A' <= c <= 'F')
  }

  predicate IsLowerHexDigit(c: char)
  {
    ('0' <= c <= '9') || ('a' <= c <= 'f')
  }

  /** The value of one hexadecimal digit, None for any other character. */
  function DigitValue(c: char): (r: Option<nat>)
    ensures r.Some? <==> IsHexDigit(c)
    ensures r.Some? ==> r.value < 16
  {
    if '0' <= c <= '9' then Some(c as int - '0' as int)
    else if 'a' <= c <= 'f' then Some(c as int - 'a' as int + 10)
    else if 'A' <= c <= 'F' then Some(c as int - 'A' as int + 10)
    else None
  }

  /** Lower-case form of a hexadecimal digit; other characters are left unchanged. */
  function ToLowerDigit(c: char): char
  {
    if 'A' <= c <= 'F' then (c as int - 'A' as int + 'a' as int) as char else c
  }

  function ToLower(s: string): (r: string)
    ensures |r| == |s|
    ensures forall i | 0 <= i < |s| :: r[i] == ToLowerDigit(s[i])
  {
    if s == [] then [] else [ToLowerDigit(s[0])] + ToLower(s[1..])
  }

  /** The lower-case digit for a value below 16. */
  function HexChar(v: nat): (c: Latin1Char)
    requires v < 16
    ensures IsLowerHexDigit(c) && DigitValue(c) == Some(v)
  {
    if v < 10 then ('0' as int + v) as char else ('a' as int + v - 10) as char
  }

  function EncodeByte(b: byte): seq<Latin1Char>
  {
    [HexChar(b as int / 16), HexChar(b as int % 16)]
  }

  /** `hex::encode`: two lower-case digits per byte. */
  function Encode(bytes: seq<byte>): (s: seq<Latin1Char>)
    ensures |s| == 2 * |bytes|
    ensures forall i | 0 <= i < |s| :: IsLowerHexDigit(s[i])
  {
    if bytes == [] then [] else EncodeByte(bytes[0]) + Encode(bytes[1..])
  }

  // ---------------------------------------------------------------------------
  // The bytes of a text
  // ---------------------------------------------------------------------------

  predicate IsAscii(s: string)
  {
    forall i | 0 <= i < |s| :: s[i] as int < 0x80
  }

  /** The UTF-8 encoding of one character (a Unicode scalar value). */
  function Utf8Char(c: char): (r: seq<byte>)
    ensures 1 <= |r| <= 4
    ensures c as int < 0x80 ==> r == [c as int as byte]
    ensures c as int >= 0x80 ==> r[0] >= 0xC0
  {
    var n := c as int;
    if n < 0x80 then [n as byte]
    else if n < 0x800 then [(0xC0 + n / 0x40) as byte, (0x80 + n % 0x40) as byte]
    else if n < 0x1_0000 then [(0xE0 + n / 0x1000) as byte, (0x80 + n / 0x40 % 0x40) as byte, (0x80 + n % 0x40) as byte]
    else [(0xF0 + n / 0x4_0000) as byte, (0x80 + n / 0x1000 % 0x40) as byte, (0x80 + n / 0x40 % 0x40) as byte, (0x80 + n % 0x40) as byte]
  }

  /** The UTF-8 bytes of a text, which is what `hex::decode(&s)` reads of a `String`. */
  function Utf8(s: string): (r: seq<byte>)
    ensures |r| >= |s|
  {
    if s == [] then [] else Utf8Char(s[0]) + Utf8(s[1..])
  }

  /** A byte read as a character, as `u8 as char` does. */
  function ByteChar(b: byte): (c: Latin1Char)
    ensures c as int == b as int
  {
    (b as int) as char
  }

  function ByteChars(data: seq<byte>): (u: seq<Latin1Char>)
    ensures |u| == |data| && forall i | 0 <= i < |data| :: u[i] == ByteChar(data[i])
  {
    seq(|data|, i requires 0 <= i < |data| => ByteChar(data[i]))
  }

  // ---------------------------------------------------------------------------
  // Decoding
  // ---------------------------------------------------------------------------

  /** `hex::decode(&s)` on a `String`: the decoder runs over its UTF-8 bytes. */
  function Decode(s: string): (r: Result<seq<byte>, HexError>)
  {
    DecodeData(Utf8(s))
  }

  /** `hex::decode` on bytes: the odd-length check comes first, then the pairs left to right. */
  function DecodeData(data: seq<byte>): (r: Result<seq<byte>, HexError>)
  {
    if |data| % 2 != 0 then Failure(OddLength) else DecodePairs(ByteChars(data), 0)
  }

  /** The pairs of `s` from `from` on, where `s` holds the input's bytes as characters. */
  function DecodePairs(s: seq<Latin1Char>, from: nat): Result<seq<byte>, HexError>
    requires from <= |s| && (|s| - from) % 2 == 0
    decreases |s| - from
  {
    if from == |s| then Success([])
    else
      var hi := DigitValue(s[from]);
      var lo := DigitValue(s[from + 1]);
      if hi.None? then Failure(InvalidHexCharacter(s[from], from))
      else if lo.None? then Failure(InvalidHexCharacter(s[from + 1], from + 1))
      else
        match DecodePairs(s, from + 2)
        case Failure(e) => Failure(e)
        case Success(rest) => Success([(hi.value * 16 + lo.value) as byte] + rest)
  }

  // ---------------------------------------------------------------------------
  // Properties
  // ---------------------------------------------------------------------------

  lemma EncodeByteDecodes(b: byte)
    ensures DigitValue(EncodeByte(b)[0]).Some? && DigitValue(EncodeByte(b)[1]).Some?
    ensures DigitValue(EncodeByte(b)[0]).value * 16 + DigitValue(EncodeByte(b)[1]).value == b as int
  {
    assert DigitValue(EncodeByte(b)[0]).value == b as int / 16;
    assert DigitValue(EncodeByte(b)[1]).value == b as int % 16;
  }

  lemma PairValue(hi: nat, lo: nat)
    requires hi < 16 && lo < 16
    ensures (hi * 16 + lo) / 16 == hi && (hi * 16 + lo) % 16 == lo && hi * 16 + lo < 256
  {
  }

  lemma HexCharOfDigit(c: char)
    requires IsHexDigit(c)
    ensures HexChar(DigitValue(c).value) == ToLowerDigit(c)
  {
  }

  lemma {:induction false} DecodePairsEncode(bytes: seq<byte>, prefix: seq<Latin1Char>)
    ensures DecodePairs(prefix + Encode(bytes), |prefix|) == Success(bytes)
    decreases |bytes|
  {
    var s := prefix + Encode(bytes);
    if bytes != [] {
      EncodeByteDecodes(bytes[0]);
      var prefix' := prefix + EncodeByte(bytes[0]);
      assert s == prefix' + Encode(bytes[1..]);
      DecodePairsEncode(bytes[1..], prefix');
      assert s[|prefix|] == EncodeByte(bytes[0])[0];
      assert s[|prefix| + 1] == EncodeByte(bytes[0])[1];
      assert [bytes[0]] + bytes[1..] == bytes;
    }
  }

  /** The bytes of an ASCII text are its characters, one byte each. */
  lemma {:induction false} AsciiUtf8(s: string)
    requires IsAscii(s)
    ensures ByteChars(Utf8(s)) == s
    decreases |s|
  {
    if s != [] {
      assert IsAscii(s[1..]) by {
        forall i | 0 <= i < |s[1..]| ensures s[1..][i] as int < 0x80 {
          assert s[1..][i] == s[i + 1];
        }
      }
      AsciiUtf8(s[1..]);
      var d := Utf8(s);
      assert d == [s[0] as int as byte] + Utf8(s[1..]);
      assert ByteChars(d)[0] == s[0];
      forall i | 1 <= i < |d| ensures ByteChars(d)[i] == s[i] {
        assert d[i] == Utf8(s[1..])[i - 1];
        assert ByteChars(Utf8(s[1..]))[i - 1] == s[1..][i - 1];
      }
      assert |d| == |s|;
    }
  }

  /** A text with a character outside ASCII has a byte of 0x80 or above. */
  lemma {:induction false} NonAsciiUtf8(s: string)
    requires !IsAscii(s)
    ensures exists i | 0 <= i < |Utf8(s)| :: Utf8(s)[i] >= 0x80
    decreases |s|
  {
    var d := Utf8(s);
    assert d == Utf8Char(s[0]) + Utf8(s[1..]);
    if s[0] as int >= 0x80 {
      assert d[0] >= 0x80;
    } else {
      var k :| 0 <= k < |s| && s[k] as int >= 0x80;
      assert s[1..][k - 1] == s[k];
      NonAsciiUtf8(s[1..]);
      var j :| 0 <= j < |Utf8(s[1..])| && Utf8(s[1..])[j] >= 0x80;
      assert d[j + 1] == Utf8(s[1..])[j];
    }
  }

  /** The round trip hex_serde relies on: decoding an encoding gives the bytes back. */
  lemma DecodeEncode(bytes: seq<byte>)
    ensures Decode(Encode(bytes)) == Success(bytes)
  {
    var e := Encode(bytes);
    AsciiUtf8(e);
    DecodePairsEncode(bytes, []);
    DoubleIsEven(|bytes|);
    assert [] + e == e;
  }

  lemma DoubleIsEven(n: nat)
    ensures (2 * n) % 2 == 0
  {
  }

  lemma {:induction false} DecodePairsSucceedsIff(s: seq<Latin1Char>, from: nat)
    requires from <= |s| && (|s| - from) % 2 == 0
    ensures DecodePairs(s, from).Success? <==> forall i | from <= i < |s| :: IsHexDigit(s[i])
    ensures DecodePairs(s, from).Success? ==> |DecodePairs(s, from).value| == (|s| - from) / 2
    decreases |s| - from
  {
    if from < |s| {
      DecodePairsSucceedsIff(s, from + 2);
    }
  }

  /**
   * Decoding a text succeeds exactly on texts of an even number of hex digits,
   * giving half as many bytes; a character outside ASCII is never a digit.
   */
  lemma DecodeSucceedsIff(s: string)
    ensures Decode(s).Success? <==> |s| % 2 == 0 && forall i | 0 <= i < |s| :: IsHexDigit(s[i])
    ensures Decode(s).Success? ==> |Decode(s).value| == |s| / 2
  {
    var d := Utf8(s);
    var u := ByteChars(d);
    if IsAscii(s) {
      AsciiUtf8(s);
      if |d| % 2 == 0 {
        DecodePairsSucceedsIff(u, 0);
      }
    } else {
      var k :| 0 <= k < |s| && s[k] as int >= 0x80;
      assert !IsHexDigit(s[k]);
      NonAsciiUtf8(s);
      var j :| 0 <= j < |d| && d[j] >= 0x80;
      assert !IsHexDigit(u[j]);
      if |d| % 2 == 0 {
        DecodePairsSucceedsIff(u, 0);
      }
    }
  }

  /** An odd number of bytes is reported as such, whatever the bytes are. */
  lemma OddLengthRejected(s: string)
    requires |Utf8(s)| % 2 == 1
    ensures Decode(s) == Failure(OddLength)
  {
  }

  lemma {:induction false} DecodePairsFirstInvalid(s: seq<Latin1Char>, from: nat)
    requires from <= |s| && (|s| - from) % 2 == 0
    requires DecodePairs(s, from).Failure?
    ensures DecodePairs(s, from).error.InvalidHexCharacter?
    ensures var e := DecodePairs(s, from).error;
      from <= e.index < |s| && s[e.index] == e.c && !IsHexDigit(e.c) &&
      forall i | from <= i < e.index :: IsHexDigit(s[i])
    decreases |s| - from
  {
    if DigitValue(s[from]).Some? && DigitValue(s[from + 1]).Some? {
      DecodePairsFirstInvalid(s, from + 2);
    }
  }

  /**
   * With an even number of bytes, the error names the first byte that is not a
   * digit, read as a character, and its byte index; on an ASCII text that is
   * the first non-digit character and its position.
   */
  lemma FirstInvalidReported(s: string)
    requires |Utf8(s)| % 2 == 0 && Decode(s).Failure?
    ensures Decode(s).error.InvalidHexCharacter?
    ensures var u := ByteChars(Utf8(s)); var e := Decode(s).error;
      e.index < |u| && u[e.index] == e.c && !IsHexDigit(e.c) &&
      forall i | 0 <= i < e.index :: IsHexDigit(u[i])
    ensures IsAscii(s) ==> var e := Decode(s).error; e.index < |s| && s[e.index] == e.c
  {
    DecodePairsFirstInvalid(ByteChars(Utf8(s)), 0);
    if IsAscii(s) {
      AsciiUtf8(s);
    }
  }

  /**
   * Outside ASCII the byte count decides: "\u00e9" is two bytes, C3 A9, and
   * its first is reported as the character U+00C3; "a\u00e9" is three bytes,
   * hence of odd length.
   */
  lemma NonAsciiDecoding()
    ensures Decode("\U{E9}") == Failure(InvalidHexCharacter('\U{C3}', 0))
    ensures Decode("a\U{E9}") == Failure(OddLength)
  {
    assert Utf8("\U{E9}") == [0xC3, 0xA9];
    assert Utf8("a\U{E9}") == [0x61, 0xC3, 0xA9];
  }

  lemma {:induction false} EncodeDecodePairs(s: seq<Latin1Char>, from: nat)
    requires from <= |s| && (|s| - from) % 2 == 0
    requires DecodePairs(s, from).Success?
    ensures Encode(DecodePairs(s, from).value) == ToLower(s)[from..]
    decreases |s| - from
  {
    if from < |s| {
      var b := PairStep(s, from);
      EvenStep(|s| - from);
      EncodeDecodePairs(s, from + 2);
      EncodeCons(b, DecodePairs(s, from + 2).value, ToLower(s), from);
    }
  }

  lemma EvenStep(n: int)
    requires n >= 2 && n % 2 == 0
    ensures (n - 2) % 2 == 0
  {
  }

  /** Encoding a byte in front of the rest, when each part matches its slice of `low`. */
  lemma EncodeCons(b: byte, rest: seq<byte>, low: string, from: nat)
    requires from + 2 <= |low|
    requires EncodeByte(b) == low[from..from + 2] && Encode(rest) == low[from + 2..]
    ensures Encode([b] + rest) == low[from..]
  {
    assert ([b] + rest)[1..] == rest;
    assert low[from..] == low[from..from + 2] + low[from + 2..];
  }

  /** One pair of digits: its byte, which re-encodes as the pair in lower case. */
  lemma PairStep(s: seq<Latin1Char>, from: nat) returns (b: byte)
    requires from + 2 <= |s| && (|s| - from) % 2 == 0
    requires DecodePairs(s, from).Success?
    ensures DecodePairs(s, from + 2).Success?
    ensures DecodePairs(s, from).value == [b] + DecodePairs(s, from + 2).value
    ensures EncodeByte(b) == ToLower(s)[from..from + 2]
  {
    var hi := DigitValue(s[from]).value;
    var lo := DigitValue(s[from + 1]).value;
    PairValue(hi, lo);
    b := (hi * 16 + lo) as byte;
    HexCharOfDigit(s[from]);
    HexCharOfDigit(s[from + 1]);
    var low := ToLower(s);
    assert low[from..from + 2] == [low[from], low[from + 1]];
  }

  /** The other direction: re-encoding what was decoded gives the input in lower case. */
  lemma EncodeDecode(s: string)
    requires Decode(s).Success?
    ensures Encode(Decode(s).value) == ToLower(s)
  {
    DecodeSucceedsIff(s);
    assert IsAscii(s) by {
      forall i | 0 <= i < |s| ensures s[i] as int < 0x80 {
        assert IsHexDigit(s[i]);
      }
    }
    AsciiUtf8(s);
    DecodeSucceedsIff(s);
    EncodeDecodePairs(ByteChars(Utf8(s)), 0);
  }

  // ---------------------------------------------------------------------------
  // The error's Display
  // ---------------------------------------------------------------------------

  /**
   * Rust's `{:?}` of a character below U+0100, as the error's Display prints
   * it: single quotes around the character, with `\0`, `\t`, `\r`, `\n`, `\'`
   * and `\\` escaped by a backslash. The characters of this range Rust does not
   * count as printable (the controls U+0000-U+001F and U+007F-U+009F, the
   * no-break space U+00A0 and the soft hyphen U+00AD) are written `\u{..}`
   * with lower-case hex digits and no leading zeros. The double quote is not
   * escaped.
   */
  function CharDebug(c: Latin1Char): (r: string)
    ensures 3 <= |r| <= 8 && r[0] == '\'' && r[|r| - 1] == '\''
  {
    "'" + Escape(c) + "'"
  }

  /** The characters Rust's `{:?}` writes as a backslash and a letter. */
  predicate Backslashed(c: char)
  {
    c == '\0' || c == '\t' || c == '\r' || c == '\n' || c == '\'' || c == '\\'
  }

  /** The characters below U+0100 that Rust does not count as printable. */
  predicate Unprintable(c: char)
  {
    c as int < 0x20 || 0x7F <= c as int <= 0xA0 || c as int == 0xAD
  }

  /** What goes between the quotes. */
  function Escape(c: Latin1Char): (r: string)
    ensures Backslashed(c) ==> |r| == 2 && r[0] == '\\'
    ensures !Backslashed(c) && Unprintable(c) && c as int < 16 ==> |r| == 5 && DigitValue(r[3]) == Some(c as int)
    ensures !Backslashed(c) && Unprintable(c) && c as int >= 16 ==>
      |r| == 6 && DigitValue(r[3]) == Some(c as int / 16) && DigitValue(r[4]) == Some(c as int % 16)
    ensures !Backslashed(c) && !Unprintable(c) ==> r == [c]
  {
    var n := c as int;
    if c == '\0' then "\\0"
    else if c == '\t' then "\\t"
    else if c == '\r' then "\\r"
    else if c == '\n' then "\\n"
    else if c == '\'' then "\\'"
    else if c == '\\' then "\\\\"
    else if Unprintable(c) then
      "\\u{" + (if n < 16 then [HexChar(n)] else [HexChar(n / 16), HexChar(n % 16)]) + "}"
    else [c]
  }

  /** Two characters with the same `{:?}` text are the same character. */
  lemma CharDebugInjective(c1: Latin1Char, c2: Latin1Char)
    requires CharDebug(c1) == CharDebug(c2)
    ensures c1 == c2
  {
    assert Escape(c1) == CharDebug(c1)[1..|CharDebug(c1)| - 1];
    assert Escape(c2) == CharDebug(c2)[1..|CharDebug(c2)| - 1];
    var r := Escape(c1);
    if Backslashed(c1) || Backslashed(c2) {
      assert Backslashed(c1) && Backslashed(c2);
      assert r[1] == Escape(c2)[1];
    } else if Unprintable(c1) && c1 as int >= 16 {
      assert (c1 as int / 16) * 16 + c1 as int % 16 == c1 as int;
      assert (c2 as int / 16) * 16 + c2 as int % 16 == c2 as int;
    }
  }

  /** The Display of `FromHexError`, which `map_err(Error::custom)` and `format!("{}", e)` carry. */
  function ErrorText(e: HexError): (r: string)
    ensures r == "Odd number of digits" <==> e.OddLength?
  {
    match e
    case OddLength => "Odd number of digits"
    case InvalidHexCharacter(c, index) => "Invalid character " + CharDebug(c) + " at position " + Decimal(index)
  }

  /** Distinct decoding errors never print alike, so the text tells which byte was rejected and where. */
  lemma ErrorTextInjective(e1: HexError, e2: HexError)
    requires ErrorText(e1) == ErrorText(e2)
    ensures e1 == e2
  {
    if e1.InvalidHexCharacter? && e2.InvalidHexCharacter? {
      var d1, d2 := CharDebug(e1.c), CharDebug(e2.c);
      var n1, n2 := Decimal(e1.index), Decimal(e2.index);
      var p := "Invalid character ";
      var q := " at position ";
      assert ErrorText(e1) == (p + d1 + q) + n1;
      assert ErrorText(e2) == (p + d2 + q) + n2;
      SpaceFreeSuffix(p + d1 + q, n1, p + d2 + q, n2);
      DecimalInjective(e1.index, e2.index);
      assert (p + d1 + q)[|p|..|p| + |d1|] == d1;
      assert (p + d2 + q)[|p|..|p| + |d2|] == d2;
      CharDebugInjective(e1.c, e2.c);
    }
  }

  /** A text ending in a space, then a space-free tail, splits there whichever way it was built. */
  lemma SpaceFreeSuffix(a1: string, n1: string, a2: string, n2: string)
    requires |a1| > 0 && a1[|a1| - 1] == ' ' && |a2| > 0 && a2[|a2| - 1] == ' '
    requires forall i | 0 <= i < |n1| :: IsDigit(n1[i])
    requires forall i | 0 <= i < |n2| :: IsDigit(n2[i])
    requires a1 + n1 == a2 + n2
    ensures a1 == a2 && n1 == n2
  {
    var t := a1 + n1;
    assert a1 == t[..|a1|] && a2 == t[..|a2|];
  }
}
