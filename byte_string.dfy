/** The two okio ByteString conversions the Unix-socket hostname codec is built from:
    UTF-8 encoding of text and lower-case hexadecimal rendering of bytes, each with the
    decoder it is paired with (`decodeHex`, `utf8`). */
module ByteString {
  import opened Base

  // ---------------------------------------------------------------- UTF-8

  predicate IsContinuation(b: byte) {
    0x80 <= b < 0xC0
  }

  /** The UTF-8 form of one Unicode scalar value: one to four bytes. */
  function EncodeChar(c: char): (bs: seq<byte>)
    ensures 1 <= |bs| <= 4
    ensures |bs| == 1 <==> (c as int) < 0x80
    ensures forall i :: 1 <= i < |bs| ==> IsContinuation(bs[i])
  {
    var v := c as int;
    if v < 0x80 then [v]
    else if v < 0x800 then [0xC0 + v / 64, 0x80 + v % 64]
    else if v < 0x10000 then [0xE0 + v / 4096, 0x80 + (v / 64) % 64, 0x80 + v % 64]
    else [0xF0 + v / 0x40000, 0x80 + (v / 4096) % 64, 0x80 + (v / 64) % 64, 0x80 + v % 64]
  }

  /** ByteString.encodeUtf8: the characters' encodings, in order. */
  function Utf8Encode(s: string): (bs: seq<byte>)
    ensures |s| <= |bs| <= 4 * |s|
  {
    if |s| == 0 then [] else EncodeChar(s[0]) + Utf8Encode(s[1..])
  }

  /** One decoded character and the number of bytes it took. */
  datatype Decoded = Decoded(c: char, length: nat)

  /** The value of a continuation byte's six payload bits. */
  function Payload(b: byte): nat
    requires IsContinuation(b)
  {
    b - 0x80
  }

  /** Reads the character at the front of `bs`: a well-formed, shortest-form sequence for a
      scalar value, or nothing. */
  function DecodeChar(bs: seq<byte>): (r: Option<Decoded>)
    requires |bs| > 0
    ensures r.Some? ==> 1 <= r.value.length <= |bs| && r.value.length <= 4
  {
    var b0 := bs[0];
    if b0 < 0x80 then Some(Decoded(b0 as char, 1))
    else if 0xC2 <= b0 < 0xE0 then
      if |bs| < 2 || !IsContinuation(bs[1]) then None
      else Some(Decoded(((b0 - 0xC0) * 64 + Payload(bs[1])) as char, 2))
    else if 0xE0 <= b0 < 0xF0 then
      if |bs| < 3 || !IsContinuation(bs[1]) || !IsContinuation(bs[2]) then None
      else
        var v := (b0 - 0xE0) * 4096 + Payload(bs[1]) * 64 + Payload(bs[2]);
        if v < 0x800 || (0xD800 <= v < 0xE000) then None
        else Some(Decoded(v as char, 3))
    else if 0xF0 <= b0 < 0xF5 then
      if |bs| < 4 || !IsContinuation(bs[1]) || !IsContinuation(bs[2]) || !IsContinuation(bs[3]) then None
      else
        var v := (b0 - 0xF0) * 0x40000 + Payload(bs[1]) * 4096 + Payload(bs[2]) * 64 + Payload(bs[3]);
        if v < 0x10000 || 0x110000 <= v then None
        else Some(Decoded(v as char, 4))
    else None
  }

  /** ByteString.utf8 on well-formed input; malformed input gives nothing. */
  function Utf8Decode(bs: seq<byte>): Option<string>
    decreases |bs|
  {
    if |bs| == 0 then Some([])
    else match DecodeChar(bs)
      case None => None
      case Some(d) =>
        match Utf8Decode(bs[d.length..])
        case None => None
        case Some(rest) => Some([d.c] + rest)
  }

  /** Decoding reads back exactly the character an encoding starts with, and its length. */
  lemma DecodeEncodedChar(c: char, rest: seq<byte>)
    ensures DecodeChar(EncodeChar(c) + rest) == Some(Decoded(c, |EncodeChar(c)|))
  {
    var v := c as int;
    if v < 0x80 {
    } else if v < 0x800 {
      DecodeTwoBytes(c, rest);
    } else if v < 0x10000 {
      DecodeThreeBytes(c, rest);
    } else {
      DecodeFourBytes(c, rest);
    }
  }

  lemma DecodeTwoBytes(c: char, rest: seq<byte>)
    requires 0x80 <= c as int < 0x800
    ensures DecodeChar(EncodeChar(c) + rest) == Some(Decoded(c, 2))
  {
    var v := c as int;
    var bs := EncodeChar(c) + rest;
    var hi, lo := v / 64, v % 64;
    assert bs[0] == 0xC0 + hi && bs[1] == 0x80 + lo;
    assert (bs[0] - 0xC0) * 64 + Payload(bs[1]) == v;
  }

  lemma DecodeThreeBytes(c: char, rest: seq<byte>)
    requires 0x800 <= c as int < 0x10000
    ensures DecodeChar(EncodeChar(c) + rest) == Some(Decoded(c, 3))
  {
    var v := c as int;
    var bs := EncodeChar(c) + rest;
    var hi, mid, lo := v / 4096, (v / 64) % 64, v % 64;
    assert v == hi * 4096 + mid * 64 + lo by {
      assert v == (v / 64) * 64 + lo;
      assert v / 64 == hi * 64 + mid;
    }
    assert bs[0] == 0xE0 + hi && bs[1] == 0x80 + mid && bs[2] == 0x80 + lo;
    assert (bs[0] - 0xE0) * 4096 + Payload(bs[1]) * 64 + Payload(bs[2]) == v;
  }

  lemma DecodeFourBytes(c: char, rest: seq<byte>)
    requires 0x10000 <= c as int
    ensures DecodeChar(EncodeChar(c) + rest) == Some(Decoded(c, 4))
  {
    var v := c as int;
    var bs := EncodeChar(c) + rest;
    var top, hi, mid, lo := v / 0x40000, (v / 4096) % 64, (v / 64) % 64, v % 64;
    assert v == top * 0x40000 + hi * 4096 + mid * 64 + lo by {
      assert v == (v / 64) * 64 + lo;
      assert v / 64 == (v / 4096) * 64 + mid;
      assert v / 4096 == top * 64 + hi;
    }
    assert bs[0] == 0xF0 + top && bs[1] == 0x80 + hi && bs[2] == 0x80 + mid && bs[3] == 0x80 + lo;
    assert (bs[0] - 0xF0) * 0x40000 + Payload(bs[1]) * 4096 + Payload(bs[2]) * 64 + Payload(bs[3]) == v;
  }

  /** utf8(encodeUtf8(s)) == s. */
  lemma {:induction false} Utf8RoundTrip(s: string)
    ensures Utf8Decode(Utf8Encode(s)) == Some(s)
  {
    if |s| > 0 {
      var e := EncodeChar(s[0]);
      var tail := Utf8Encode(s[1..]);
      DecodeEncodedChar(s[0], tail);
      assert (e + tail)[|e|..] == tail;
      Utf8RoundTrip(s[1..]);
      assert [s[0]] + s[1..] == s;
    }
  }

  /** Splitting off six payload bits undoes placing them below a higher part. */
  lemma SixBits(hi: nat, lo: nat)
    requires lo < 64
    ensures (hi * 64 + lo) / 64 == hi && (hi * 64 + lo) % 64 == lo
  {
  }

  lemma TwelveBits(hi: nat, lo: nat)
    requires lo < 4096
    ensures (hi * 4096 + lo) / 4096 == hi
  {
  }

  lemma EighteenBits(hi: nat, lo: nat)
    requires lo < 0x40000
    ensures (hi * 0x40000 + lo) / 0x40000 == hi
  {
  }

  lemma EncodeTwoBytes(bs: seq<byte>)
    requires |bs| >= 2 && 0xC2 <= bs[0] < 0xE0 && IsContinuation(bs[1])
    ensures EncodeChar(((bs[0] - 0xC0) * 64 + Payload(bs[1])) as char) == bs[..2]
  {
    var a: int := bs[0] - 0xC0;
    var v := a * 64 + Payload(bs[1]);
    SixBits(a, Payload(bs[1]));
    assert 0x80 <= v < 0x800;
  }

  lemma EncodeThreeBytes(bs: seq<byte>, v: int)
    requires |bs| >= 3 && 0xE0 <= bs[0] < 0xF0 && IsContinuation(bs[1]) && IsContinuation(bs[2])
    requires v == (bs[0] - 0xE0) * 4096 + Payload(bs[1]) * 64 + Payload(bs[2])
    requires 0x800 <= v && !(0xD800 <= v < 0xE000)
    ensures EncodeChar(v as char) == bs[..3]
  {
    var a: int, p1: int, p2: int := bs[0] - 0xE0, Payload(bs[1]), Payload(bs[2]);
    TwelveBits(a, p1 * 64 + p2);
    SixBits(a * 64 + p1, p2);
    SixBits(a, p1);
    assert v == (a * 64 + p1) * 64 + p2;
  }

  lemma EncodeFourBytes(bs: seq<byte>, v: int)
    requires |bs| >= 4 && 0xF0 <= bs[0] < 0xF5
    requires IsContinuation(bs[1]) && IsContinuation(bs[2]) && IsContinuation(bs[3])
    requires v == (bs[0] - 0xF0) * 0x40000 + Payload(bs[1]) * 4096 + Payload(bs[2]) * 64 + Payload(bs[3])
    requires 0x10000 <= v < 0x110000
    ensures EncodeChar(v as char) == bs[..4]
  {
    var a: int, p1: int, p2: int, p3: int := bs[0] - 0xF0, Payload(bs[1]), Payload(bs[2]), Payload(bs[3]);
    EighteenBits(a, p1 * 4096 + p2 * 64 + p3);
    TwelveBits(a * 64 + p1, p2 * 64 + p3);
    SixBits(a, p1);
    SixBits(a * 4096 + p1 * 64 + p2, p3);
    SixBits(a * 64 + p1, p2);
    assert v == (a * 64 + p1) * 4096 + (p2 * 64 + p3);
    assert v == (a * 4096 + p1 * 64 + p2) * 64 + p3;
    assert a * 4096 + p1 * 64 + p2 == (a * 64 + p1) * 64 + p2;
  }

  /** The character read at the front of `bs` encodes back to exactly the bytes it took. */
  lemma EncodeDecodedChar(bs: seq<byte>)
    requires |bs| > 0 && DecodeChar(bs).Some?
    ensures EncodeChar(DecodeChar(bs).value.c) == bs[..DecodeChar(bs).value.length]
  {
    var b0 := bs[0];
    if b0 < 0x80 {
    } else if 0xC2 <= b0 < 0xE0 {
      EncodeTwoBytes(bs);
    } else if 0xE0 <= b0 < 0xF0 {
      EncodeThreeBytes(bs, (b0 - 0xE0) * 4096 + Payload(bs[1]) * 64 + Payload(bs[2]));
    } else {
      EncodeFourBytes(bs, (b0 - 0xF0) * 0x40000 + Payload(bs[1]) * 4096 + Payload(bs[2]) * 64 + Payload(bs[3]));
    }
  }

  lemma RejoinAt(front: seq<byte>, back: seq<byte>, bs: seq<byte>, n: nat)
    requires n <= |bs| && front == bs[..n] && back == bs[n..]
    ensures front + back == bs
  {
    assert bs[..n] + bs[n..] == bs;
  }

  /** encodeUtf8(utf8(bs)) == bs whenever bs is well-formed UTF-8: the decoder accepts only
      shortest-form encodings, so no two byte strings decode to the same text. */
  lemma {:induction false} Utf8DecodeInverse(bs: seq<byte>)
    requires Utf8Decode(bs).Some?
    ensures Utf8Encode(Utf8Decode(bs).value) == bs
    decreases |bs|
  {
    if |bs| > 0 {
      var d := DecodeChar(bs).value;
      var rest := Utf8Decode(bs[d.length..]).value;
      EncodeDecodedChar(bs);
      Utf8DecodeInverse(bs[d.length..]);
      var t := [d.c] + rest;
      assert Utf8Decode(bs).value == t;
      assert t[0] == d.c && t[1..] == rest;
      assert Utf8Encode(t) == EncodeChar(d.c) + Utf8Encode(rest);
      RejoinAt(EncodeChar(d.c), Utf8Encode(rest), bs, d.length);
    }
  }

  // ---------------------------------------------------------------- hexadecimal

  /** The lower-case hexadecimal digit for a value below 16. */
  function HexDigit(d: nat): (c: char)
    requires d < 16
  {
    if d < 10 then ('0' as int + d) as char else ('a' as int + d - 10) as char
  }

  predicate IsLowerHex(c: char) {
    '0' <= c <= '9' || 'a' <= c <= 'f'
  }

  /** ByteString.hex: two lower-case digits per byte, high nibble first. */
  function HexEncode(bs: seq<byte>): (h: string)
    ensures |h| == 2 * |bs|
    ensures forall i :: 0 <= i < |h| ==> IsLowerHex(h[i])
  {
    if |bs| == 0 then [] else [HexDigit(bs[0] / 16), HexDigit(bs[0] % 16)] + HexEncode(bs[1..])
  }

  /** The value of one hexadecimal digit, in either case. */
  function DigitValue(c: char): (r: Option<nat>)
    ensures r.Some? ==> r.value < 16
    ensures r.Some? <==> '0' <= c <= '9' || 'a' <= c <= 'f' || 'A' <= c <= 'F'
  {
    if '0' <= c <= '9' then Some(c as int - '0' as int)
    else if 'a' <= c <= 'f' then Some(c as int - 'a' as int + 10)
    else if 'A' <= c <= 'F' then Some(c as int - 'A' as int + 10)
    else None
  }

  /** Why ByteString.decodeHex rejects its input. */
  datatype HexError = OddLength | UnexpectedDigit(digit: char)

  /** ByteString.decodeHex on an even-length string, two digits per byte. */
  function DecodePairs(h: string): (r: Result<seq<byte>, HexError>)
    requires |h| % 2 == 0
    ensures r.Success? ==> 2 * |r.value| == |h|
    ensures r.Failure? ==> r.error.UnexpectedDigit?
    decreases |h|
  {
    if |h| == 0 then Success([])
    else match (DigitValue(h[0]), DigitValue(h[1]))
      case (None, _) => Failure(UnexpectedDigit(h[0]))
      case (_, None) => Failure(UnexpectedDigit(h[1]))
      case (Some(d1), Some(d2)) =>
        match DecodePairs(h[2..])
        case Failure(e) => Failure(e)
        case Success(rest) => Success([d1 * 16 + d2] + rest)
  }

  /** ByteString.decodeHex: odd lengths are refused before any digit is read; an even-length
      string decodes exactly when all its characters are digits, each byte from its pair. */
  function HexDecode(h: string): (r: Result<seq<byte>, HexError>)
    ensures r == Failure(OddLength) <==> |h| % 2 == 1
    ensures r.Success? <==> |h| % 2 == 0 && AllHexDigits(h)
    ensures r.Success? ==> 2 * |r.value| == |h| && PairValues(h, r.value)
    ensures r.Failure? && r.error.UnexpectedDigit? ==> FirstNonDigit(h, r.error.digit)
  {
    if |h| % 2 != 0 then Failure(OddLength)
    else
      DecodePairsMeaning(h);
      DecodePairs(h)
  }

  /** Every character of `h` is a hexadecimal digit of either case. */
  predicate AllHexDigits(h: string) {
    forall i :: 0 <= i < |h| ==> DigitValue(h[i]).Some?
  }

  /** `c` is the first character of `h` that is not a hexadecimal digit. */
  predicate FirstNonDigit(h: string, c: char) {
    exists k :: 0 <= k < |h| && h[k] == c && DigitValue(h[k]).None? && AllHexDigits(h[..k])
  }

  /** The byte at `i` is the value of the digit pair at 2i and 2i+1, high digit first. */
  predicate PairValues(h: string, bs: seq<byte>)
    requires 2 * |bs| == |h| && AllHexDigits(h)
  {
    forall i :: 0 <= i < |bs| ==> bs[i] == 16 * DigitValue(h[2 * i]).value + DigitValue(h[2 * i + 1]).value
  }

  /** What decodeHex's pair loop computes: success exactly on all-digit input, each byte from
      its pair, and otherwise a failure naming the first character that is not a digit. */
  lemma {:induction false} DecodePairsMeaning(h: string)
    requires |h| % 2 == 0
    ensures DecodePairs(h).Success? <==> AllHexDigits(h)
    ensures DecodePairs(h).Success? ==> PairValues(h, DecodePairs(h).value)
    ensures DecodePairs(h).Failure? ==> FirstNonDigit(h, DecodePairs(h).error.digit)
    decreases |h|
  {
    if |h| > 0 {
      var tail := h[2..];
      DecodePairsMeaning(tail);
      AllHexDigitsCons(h);
      if DigitValue(h[0]).None? {
        assert AllHexDigits(h[..0]);
      } else if DigitValue(h[1]).None? {
        assert AllHexDigits(h[..1]);
      } else if DecodePairs(tail).Failure? {
        FirstNonDigitCons(h, DecodePairs(tail).error.digit);
      } else {
        PairValuesCons(h, DecodePairs(h).value, DecodePairs(tail).value);
      }
    }
  }

  lemma AllHexDigitsCons(h: string)
    requires |h| >= 2
    ensures AllHexDigits(h) <==> DigitValue(h[0]).Some? && DigitValue(h[1]).Some? && AllHexDigits(h[2..])
  {
    if DigitValue(h[0]).Some? && DigitValue(h[1]).Some? && AllHexDigits(h[2..]) {
      forall i | 2 <= i < |h| ensures DigitValue(h[i]).Some? {
        assert h[i] == h[2..][i - 2];
      }
    }
  }

  lemma FirstNonDigitCons(h: string, c: char)
    requires |h| >= 2 && DigitValue(h[0]).Some? && DigitValue(h[1]).Some?
    requires FirstNonDigit(h[2..], c)
    ensures FirstNonDigit(h, c)
  {
    var tail := h[2..];
    var k :| 0 <= k < |tail| && tail[k] == c && DigitValue(tail[k]).None? && AllHexDigits(tail[..k]);
    assert h[k + 2] == c;
    var before, skipped := h[..k + 2], tail[..k];
    forall j | 0 <= j < |before| ensures DigitValue(before[j]).Some? {
      if j >= 2 {
        assert before[j] == skipped[j - 2];
      }
    }
  }

  lemma PairValuesCons(h: string, bs: seq<byte>, rest: seq<byte>)
    requires |h| >= 2 && AllHexDigits(h) && 2 * |rest| + 2 == |h|
    requires bs == [DigitValue(h[0]).value * 16 + DigitValue(h[1]).value] + rest
    requires PairValues(h[2..], rest)
    ensures PairValues(h, bs)
  {
    var tail := h[2..];
    forall i | 0 <= i < |bs|
      ensures bs[i] == 16 * DigitValue(h[2 * i]).value + DigitValue(h[2 * i + 1]).value
    {
      if i > 0 {
        assert bs[i] == rest[i - 1];
        assert tail[2 * (i - 1)] == h[2 * i];
        assert tail[2 * (i - 1) + 1] == h[2 * i + 1];
      }
    }
  }

  lemma DigitValueOfHexDigit(d: nat)
    requires d < 16
    ensures DigitValue(HexDigit(d)) == Some(d)
  {
  }

  /** decodeHex(hex(bs)) == bs. */
  lemma {:induction false} HexRoundTrip(bs: seq<byte>)
    ensures HexDecode(HexEncode(bs)) == Success(bs)
  {
    HexPairsRoundTrip(bs);
  }

  lemma {:induction false} HexPairsRoundTrip(bs: seq<byte>)
    ensures DecodePairs(HexEncode(bs)) == Success(bs)
  {
    if |bs| > 0 {
      var h := HexEncode(bs);
      DigitValueOfHexDigit(bs[0] / 16);
      DigitValueOfHexDigit(bs[0] % 16);
      assert h[2..] == HexEncode(bs[1..]);
      HexPairsRoundTrip(bs[1..]);
      assert [bs[0]] + bs[1..] == bs;
    }
  }
}
