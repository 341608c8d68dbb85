/** `encodeURIComponent` and `decodeURIComponent`: percent-encoding (section 2.1 of RFC 3986)
    of the UTF-8 bytes of a text. A Dafny character is a Unicode scalar value, so a text here
    is a well-formed one. */
module PercentEncoding {
  import opened JsText
  import opened Options

  predicate Unreserved(c: char) {
    'a' <= c <= 'z' || 'A' <= c <= 'Z' || IsDigit(c) || c in "-_.!~*'()"
  }

  type byte = b: nat | b < 256

  function Utf8(c: char): seq<byte> {
    var n := c as int;
    if n < 0x80 then [n]
    else if n < 0x800 then [0xC0 + n / 0x40, 0x80 + n % 0x40]
    else if n < 0x10000 then [0xE0 + n / 0x1000, 0x80 + n / 0x40 % 0x40, 0x80 + n % 0x40]
    else [0xF0 + n / 0x40000, 0x80 + n / 0x1000 % 0x40, 0x80 + n / 0x40 % 0x40, 0x80 + n % 0x40]
  }

  function HexDigit(d: nat): char
    requires d < 16
  {
    if d < 10 then ('0' as int + d) as char else ('A' as int + d - 10) as char
  }

  function HexValue(c: char): (v: Option<nat>)
    ensures v.Some? ==> v.value < 16
  {
    if IsDigit(c) then Some(c as int - '0' as int)
    else if 'A' <= c <= 'F' then Some(c as int - 'A' as int + 10)
    else if 'a' <= c <= 'f' then Some(c as int - 'a' as int + 10)
    else None
  }

  function PercentByte(b: byte): string {
    ['%', HexDigit(b / 16), HexDigit(b % 16)]
  }

  function PercentBytes(bs: seq<byte>): string {
    if bs == [] then "" else PercentByte(bs[0]) + PercentBytes(bs[1..])
  }

  function EncodeChar(c: char): string {
    if Unreserved(c) then [c] else PercentBytes(Utf8(c))
  }

  function Encode(s: string): string {
    if s == "" then "" else EncodeChar(s[0]) + Encode(s[1..])
  }

  /** The byte written at position i, as `%XX`. */
  function ByteAt(s: string, i: nat): Option<byte> {
    if i + 3 > |s| || s[i] != '%' then None
    else
      var hi, lo := HexValue(s[i + 1]), HexValue(s[i + 2]);
      if hi.None? || lo.None? then None else Some(16 * hi.value + lo.value)
  }

  /** The six bits of the continuation byte written at position i. */
  function Continuation(s: string, i: nat): (bits: Option<nat>)
    ensures bits.Some? ==> bits.value < 0x40
  {
    var b := ByteAt(s, i);
    if b.None? || b.value < 0x80 || b.value >= 0xC0 then None else Some(b.value - 0x80)
  }

  function Scalar(v: nat, least: nat): Option<char> {
    if least <= v && (v < 0xD800 || 0xE000 <= v < 0x110000) then Some(v as char) else None
  }

  datatype Read = Bad | Good(c: char, size: nat)

  function Found(c: Option<char>, size: nat): Read {
    if c.None? then Bad else Good(c.value, size)
  }

  /** The first character of a non-empty encoded text. */
  function DecodeChar(s: string): (r: Read)
    requires s != ""
    ensures r.Good? ==> 0 < r.size <= |s|
  {
    if s[0] != '%' then Good(s[0], 1)
    else
      var b := ByteAt(s, 0);
      if b.None? then Bad
      else if b.value < 0x80 then Good(b.value as char, 3)
      else if b.value < 0xC0 then Bad
      else
        var c1 := Continuation(s, 3);
        if c1.None? then Bad
        else if b.value < 0xE0 then Found(Scalar((b.value - 0xC0) * 0x40 + c1.value, 0x80), 6)
        else
          var c2 := Continuation(s, 6);
          if c2.None? then Bad
          else if b.value < 0xF0 then Found(Scalar((b.value - 0xE0) * 0x1000 + c1.value * 0x40 + c2.value, 0x800), 9)
          else
            var c3 := Continuation(s, 9);
            if c3.None? || b.value >= 0xF8 then Bad
            else Found(Scalar((b.value - 0xF0) * 0x40000 + c1.value * 0x1000 + c2.value * 0x40 + c3.value, 0x10000), 12)
  }

  /** None where the original throws. */
  function Decode(s: string): Option<string> {
    if s == "" then Some("")
    else
      var first := DecodeChar(s);
      if first.Bad? then None
      else
        var rest := Decode(s[first.size..]);
        if rest.None? then None else Some([first.c] + rest.value)
  }

  lemma HexRoundTrip(d: nat)
    requires d < 16
    ensures HexValue(HexDigit(d)) == Some(d)
  {
  }

  lemma ByteRoundTrip(before: string, b: byte, rest: string)
    ensures ByteAt(before + PercentByte(b) + rest, |before|) == Some(b)
  {
    var s := before + PercentByte(b) + rest;
    HexRoundTrip(b / 16);
    HexRoundTrip(b % 16);
    assert s[|before|..|before| + 3] == PercentByte(b);
  }

  lemma {:induction false} PercentBytesSize(bs: seq<byte>)
    ensures |PercentBytes(bs)| == 3 * |bs|
  {
    if bs != [] {
      PercentBytesSize(bs[1..]);
    }
  }

  /** Every byte of the encoded row reads back. */
  lemma {:induction false} BytesRoundTrip(bs: seq<byte>, rest: string, i: nat)
    requires i < |bs|
    ensures ByteAt(PercentBytes(bs) + rest, 3 * i) == Some(bs[i])
  {
    var s := PercentBytes(bs) + rest;
    PercentBytesSize(bs);
    if i == 0 {
      ByteRoundTrip("", bs[0], PercentBytes(bs[1..]) + rest);
      assert s == "" + PercentByte(bs[0]) + (PercentBytes(bs[1..]) + rest);
    } else {
      var t := PercentBytes(bs[1..]) + rest;
      BytesRoundTrip(bs[1..], rest, i - 1);
      assert s == PercentByte(bs[0]) + t;
      assert |t| + 3 == |s| && s[3..] == t;
      ByteAtShifts(PercentByte(bs[0]), t, 3 * (i - 1));
    }
  }

  lemma ByteAtShifts(head: string, t: string, i: nat)
    ensures ByteAt(head + t, |head| + i) == ByteAt(t, i)
  {
  }

  lemma Recombine(n: nat)
    requires n < 0x110000
    ensures n / 0x40 * 0x40 + n % 0x40 == n
    ensures n / 0x1000 * 0x1000 + n / 0x40 % 0x40 * 0x40 + n % 0x40 == n
    ensures n / 0x40000 * 0x40000 + n / 0x1000 % 0x40 * 0x1000 + n / 0x40 % 0x40 * 0x40 + n % 0x40 == n
  {
    assert n / 0x40 / 0x40 == n / 0x1000;
    assert n / 0x1000 / 0x40 == n / 0x40000;
  }

  lemma DecodeShort(c: char, s: string)
    requires c as int < 0x800 && !Unreserved(c) && s != "" && s[0] == '%'
    requires forall i | 0 <= i < |Utf8(c)| :: ByteAt(s, 3 * i) == Some(Utf8(c)[i])
    ensures DecodeChar(s) == Good(c, 3 * |Utf8(c)|)
  {
    assert ByteAt(s, 3 * 0) == Some(Utf8(c)[0]);
    if c as int >= 0x80 {
      assert ByteAt(s, 3 * 1) == Some(Utf8(c)[1]);
    }
    Recombine(c as int);
  }

  lemma DecodeLong(c: char, s: string)
    requires 0x800 <= c as int && s != "" && s[0] == '%'
    requires forall i | 0 <= i < |Utf8(c)| :: ByteAt(s, 3 * i) == Some(Utf8(c)[i])
    ensures DecodeChar(s) == Good(c, 3 * |Utf8(c)|)
  {
    assert ByteAt(s, 3 * 0) == Some(Utf8(c)[0]) && ByteAt(s, 3 * 1) == Some(Utf8(c)[1]);
    assert ByteAt(s, 3 * 2) == Some(Utf8(c)[2]);
    if c as int >= 0x10000 {
      assert ByteAt(s, 3 * 3) == Some(Utf8(c)[3]);
    }
    Recombine(c as int);
  }

  lemma DecodeEncodedChar(c: char, rest: string)
    ensures EncodeChar(c) != "" && DecodeChar(EncodeChar(c) + rest) == Good(c, |EncodeChar(c)|)
  {
    if !Unreserved(c) {
      var bs := Utf8(c);
      PercentBytesSize(bs);
      forall i | 0 <= i < |bs|
        ensures ByteAt(EncodeChar(c) + rest, 3 * i) == Some(bs[i])
      {
        BytesRoundTrip(bs, rest, i);
      }
      if c as int < 0x800 {
        DecodeShort(c, EncodeChar(c) + rest);
      } else {
        DecodeLong(c, EncodeChar(c) + rest);
      }
    }
  }

  function Prepended(s: string, decoded: Option<string>): Option<string> {
    if decoded.None? then None else Some(s + decoded.value)
  }

  lemma PrependTwice(s: string, decoded: Option<string>)
    requires s != ""
    ensures Prepended([s[0]], Prepended(s[1..], decoded)) == Prepended(s, decoded)
  {
    if decoded.Some? {
      assert [s[0]] + (s[1..] + decoded.value) == s + decoded.value;
    }
  }

  lemma DecodeFirst(c: char, tail: string)
    ensures Decode(EncodeChar(c) + tail) == Prepended([c], Decode(tail))
  {
    DecodeEncodedChar(c, tail);
    assert (EncodeChar(c) + tail)[|EncodeChar(c)|..] == tail;
  }

  lemma EncodeFirst(s: string, rest: string)
    requires s != ""
    ensures Encode(s) + rest == EncodeChar(s[0]) + (Encode(s[1..]) + rest)
  {
  }

  /** Decoding undoes encoding, for every text and whatever follows it. */
  lemma {:induction false} RoundTrip(s: string, rest: string, decoded: Option<string>)
    requires decoded == Decode(rest)
    ensures Decode(Encode(s) + rest) == Prepended(s, decoded)
  {
    if s == "" {
      assert Encode(s) + rest == rest;
      assert decoded.Some? ==> s + decoded.value == decoded.value;
    } else {
      EncodeFirst(s, rest);
      RoundTrip(s[1..], rest, decoded);
      DecodeFirst(s[0], Encode(s[1..]) + rest);
      PrependTwice(s, decoded);
    }
  }

  lemma RoundTripAlone(s: string)
    ensures Decode(Encode(s)) == Some(s)
  {
    RoundTrip(s, "", Some(""));
    assert Encode(s) + "" == Encode(s) && s + "" == s;
  }

  /** The characters an encoded text is made of. */
  predicate Clean(c: char) {
    Unreserved(c) || c == '%'
  }

  lemma {:induction false} BytesAreClean(bs: seq<byte>)
    ensures forall c | c in PercentBytes(bs) :: Clean(c)
  {
    if bs != [] {
      BytesAreClean(bs[1..]);
    }
  }

  lemma {:induction false} EncodedIsClean(s: string)
    ensures forall c | c in Encode(s) :: Clean(c)
  {
    if s != "" {
      BytesAreClean(Utf8(s[0]));
      EncodedIsClean(s[1..]);
    }
  }

  // ---- As the standards define it

  /** Letters, digits and the marks -_.!~*'() stay; any other character becomes percent signs and
      hexadecimal digits, three characters for each byte of it. */
  lemma EncodedCharIs(c: char)
    ensures Encode([c]) == [c] <==> 'a' <= c <= 'z' || 'A' <= c <= 'Z' || '0' <= c <= '9' || c in "-_.!~*'()"
    ensures Encode([c]) != [c] ==>
              && |Encode([c])| == 3 * |Utf8(c)|
              && forall i | 0 <= i < |Utf8(c)| ::
                   && Encode([c])[3 * i] == '%'
                   && Encode([c])[3 * i + 1] == "0123456789ABCDEF"[Utf8(c)[i] / 16]
                   && Encode([c])[3 * i + 2] == "0123456789ABCDEF"[Utf8(c)[i] % 16]
  {
    assert [c][1..] == [] && Encode([c]) == EncodeChar(c) + "" == EncodeChar(c);
    if !Unreserved(c) {
      BytesAreTriples(Utf8(c));
      assert PercentBytes(Utf8(c))[0] == '%';
    }
  }

  lemma {:induction false} BytesAreTriples(bs: seq<byte>)
    ensures |PercentBytes(bs)| == 3 * |bs|
    ensures forall i | 0 <= i < |bs| ::
              && PercentBytes(bs)[3 * i] == '%'
              && PercentBytes(bs)[3 * i + 1] == "0123456789ABCDEF"[bs[i] / 16]
              && PercentBytes(bs)[3 * i + 2] == "0123456789ABCDEF"[bs[i] % 16]
  {
    if bs != [] {
      var rest := PercentBytes(bs[1..]);
      BytesAreTriples(bs[1..]);
      HexDigitIs(bs[0] / 16);
      HexDigitIs(bs[0] % 16);
      forall i | 0 <= i < |bs|
        ensures PercentBytes(bs)[3 * i] == '%'
        ensures PercentBytes(bs)[3 * i + 1] == "0123456789ABCDEF"[bs[i] / 16]
        ensures PercentBytes(bs)[3 * i + 2] == "0123456789ABCDEF"[bs[i] % 16]
      {
        if i > 0 {
          assert bs[1..][i - 1] == bs[i];
          assert PercentBytes(bs)[3 * i] == rest[3 * (i - 1)];
          assert PercentBytes(bs)[3 * i + 1] == rest[3 * (i - 1) + 1];
          assert PercentBytes(bs)[3 * i + 2] == rest[3 * (i - 1) + 2];
        }
      }
    }
  }

  lemma HexDigitIs(d: nat)
    requires d < 16
    ensures HexDigit(d) == "0123456789ABCDEF"[d]
  {
  }

  /** Texts are encoded character by character. */
  lemma {:induction false} EncodeConcat(a: string, b: string)
    ensures Encode(a + b) == Encode(a) + Encode(b)
  {
    if a == "" {
      assert a + b == b;
    } else {
      assert (a + b)[1..] == a[1..] + b;
      EncodeConcat(a[1..], b);
    }
  }

  /** A byte as a number. */
  function Num(bs: seq<byte>, i: nat): int
    requires i < |bs|
  {
    bs[i]
  }

  lemma TwoBytes(n: int)
    ensures 0x40 * (0xC0 + n / 0x40) + (0x80 + n % 0x40) == n + 0x3080
  {
  }

  lemma ThreeBytes(n: int)
    ensures 0x1000 * (0xE0 + n / 0x1000) + 0x40 * (0x80 + n / 0x40 % 0x40) + (0x80 + n % 0x40) == n + 0xE2080
  {
    TwoBytes(n / 0x40);
    TwoBytes(n);
    assert n / 0x40 / 0x40 == n / 0x1000;
  }

  lemma FourBytes(n: int)
    ensures 0x40000 * (0xF0 + n / 0x40000) + 0x1000 * (0x80 + n / 0x1000 % 0x40) + 0x40 * (0x80 + n / 0x40 % 0x40)
            + (0x80 + n % 0x40) == n + 0x3C82080
  {
    ThreeBytes(n / 0x40);
    TwoBytes(n);
    assert n / 0x40 / 0x1000 == n / 0x40000 && n / 0x40 / 0x40 == n / 0x1000;
  }

  /** The bytes of a character (section 3 of RFC 3629): their number by its range, a leading byte
      that says it, continuation bytes after it, six bits of the character in each. */
  lemma BytesAreUtf8(c: char)
    ensures var n, bs := c as int, Utf8(c);
            && (n < 0x80 ==> bs == [n])
            && (0x80 <= n < 0x800 ==> |bs| == 2 && 0xC2 <= bs[0] < 0xE0 && 0x40 * Num(bs, 0) + Num(bs, 1) == n + 0x3080)
            && (0x800 <= n < 0x10000 ==>
                  |bs| == 3 && 0xE0 <= bs[0] < 0xF0 && 0x1000 * Num(bs, 0) + 0x40 * Num(bs, 1) + Num(bs, 2) == n + 0xE2080)
            && (0x10000 <= n ==>
                  && |bs| == 4 && 0xF0 <= bs[0] < 0xF5
                  && 0x40000 * Num(bs, 0) + 0x1000 * Num(bs, 1) + 0x40 * Num(bs, 2) + Num(bs, 3) == n + 0x3C82080)
            && forall i | 1 <= i < |bs| :: 0x80 <= bs[i] < 0xC0
  {
    var n := c as int;
    TwoBytes(n);
    ThreeBytes(n);
    FourBytes(n);
  }
}
