/**
 * UTF-8, as CPython encodes `str` and strictly decodes `bytes`: the encoder
 * behind the `"s"`/`"s#"` argument formats and `str.encode('utf-8')`, the
 * decoder behind `PyUnicode_FromString`, `PyUnicode_FromStringAndSize` and
 * `bytes.decode()`. Well-formed sequences are those of table 3-7 of the
 * Unicode Standard; Dafny's `char` is a Unicode scalar value.
 */
module Utf8 {
  import opened Base

  predicate Cont(b: byte)
  {
    0x80 <= b < 0xC0
  }

  /** The encoding of one scalar value. */
  function EncodeChar(c: char): (b: Bytes)
    ensures 1 <= |b| <= 4
    ensures (|b| == 1) == (c as int < 0x80)
  {
    var v := c as int;
    if v < 0x80 then [v as byte]
    else if v < 0x800 then [(0xC0 + v / 64) as byte, (0x80 + v % 64) as byte]
    else if v < 0x1_0000 then
      [(0xE0 + v / 4096) as byte, (0x80 + (v / 64) % 64) as byte, (0x80 + v % 64) as byte]
    else
      [(0xF0 + v / 262144) as byte, (0x80 + (v / 4096) % 64) as byte,
       (0x80 + (v / 64) % 64) as byte, (0x80 + v % 64) as byte]
  }

  function Encode(s: string): Bytes
  {
    if s == [] then [] else EncodeChar(s[0]) + Encode(s[1..])
  }

  /** The scalar value that starts `b` and the number of bytes it takes, if well formed. */
  function DecodeFirst(b: Bytes): (r: Option<(char, nat)>)
    ensures r.Some? ==> 1 <= r.value.1 <= |b|
  {
    if |b| == 0 then None
    else
      var b0 := b[0] as int;
      if b0 < 0x80 then Some((b0 as char, 1))
      else if 0xC2 <= b0 <= 0xDF then
        if |b| >= 2 && Cont(b[1]) then
          Some((((b0 - 0xC0) * 64 + (b[1] as int - 0x80)) as char, 2))
        else None
      else if 0xE0 <= b0 <= 0xEF then
        if |b| >= 3 && Cont(b[1]) && Cont(b[2])
           && (b0 == 0xE0 ==> b[1] >= 0xA0) && (b0 == 0xED ==> b[1] < 0xA0) then
          Some((((b0 - 0xE0) * 4096 + (b[1] as int - 0x80) * 64 + (b[2] as int - 0x80)) as char, 3))
        else None
      else if 0xF0 <= b0 <= 0xF4 then
        if |b| >= 4 && Cont(b[1]) && Cont(b[2]) && Cont(b[3])
           && (b0 == 0xF0 ==> b[1] >= 0x90) && (b0 == 0xF4 ==> b[1] < 0x90) then
          Some((((b0 - 0xF0) * 262144 + (b[1] as int - 0x80) * 4096
                 + (b[2] as int - 0x80) * 64 + (b[3] as int - 0x80)) as char, 4))
        else None
      else None
  }

  /** Strict decoding: the text, or None when `b` is not well-formed UTF-8. */
  function Decode(b: Bytes): Option<string>
    decreases |b|
  {
    if b == [] then Some([])
    else
      match DecodeFirst(b)
      case None => None
      case Some((c, n)) =>
        match Decode(b[n..])
        case None => None
        case Some(rest) => Some([c] + rest)
  }

  lemma DecodeTwo(v: int)
    requires 0x80 <= v < 0x800
    ensures var q, r := v / 64, v % 64;
      0xC2 <= 0xC0 + q <= 0xDF && 0 <= r < 64 && v == q * 64 + r
  {
  }

  lemma DecodeThree(v: int)
    requires 0x800 <= v < 0x1_0000
    ensures var h, m, l := v / 4096, (v / 64) % 64, v % 64;
      0 <= h < 16 && 0 <= m < 64 && 0 <= l < 64 && v == h * 4096 + m * 64 + l
      && (h == 0 ==> m >= 0x20)
  {
  }

  lemma DecodeFour(v: int)
    requires 0x1_0000 <= v < 0x11_0000
    ensures var h, m1, m2, l := v / 262144, (v / 4096) % 64, (v / 64) % 64, v % 64;
      0 <= h <= 4 && 0 <= m1 < 64 && 0 <= m2 < 64 && 0 <= l < 64
      && v == h * 262144 + m1 * 4096 + m2 * 64 + l
      && (h == 0 ==> m1 >= 0x10) && (h == 4 ==> m1 < 0x10)
  {
  }

  lemma DecodeFirstOfEncodeChar(c: char, rest: Bytes)
    ensures DecodeFirst(EncodeChar(c) + rest) == Some((c, |EncodeChar(c)|))
  {
    var v := c as int;
    if v < 0x80 {
    } else if v < 0x800 {
      DecodeTwo(v);
    } else if v < 0x1_0000 {
      DecodeThree(v);
      assert v < 0xD800 || v >= 0xE000;
    } else {
      DecodeFour(v);
    }
  }

  lemma {:induction false} EncodeAppend(s: string, t: string)
    ensures Encode(s + t) == Encode(s) + Encode(t)
  {
    if s != [] {
      assert (s + t)[0] == s[0];
      assert (s + t)[1..] == s[1..] + t;
      EncodeAppend(s[1..], t);
    } else {
      assert s + t == t;
    }
  }

  /** Decoding what was encoded gives the text back. */
  lemma {:induction false} DecodeEncode(s: string)
    ensures Decode(Encode(s)) == Some(s)
    decreases |s|
  {
    if s != [] {
      var e := EncodeChar(s[0]);
      DecodeFirstOfEncodeChar(s[0], Encode(s[1..]));
      assert (e + Encode(s[1..]))[|e|..] == Encode(s[1..]);
      DecodeEncode(s[1..]);
      assert [s[0]] + s[1..] == s;
    }
  }

  /** Distinct texts have distinct encodings. */
  lemma EncodeInjective(s: string, t: string)
    requires Encode(s) == Encode(t)
    ensures s == t
  {
    DecodeEncode(s);
    DecodeEncode(t);
  }

  /** ASCII text encodes to its own character codes, one byte each. */
  lemma {:induction false} EncodeAscii(s: string)
    requires forall i :: 0 <= i < |s| ==> s[i] as int < 0x80
    ensures Encode(s) == AsciiBytes(s)
  {
    if s != [] {
      EncodeAscii(s[1..]);
    }
  }

  /** An ASCII byte occurs in an encoding exactly where its character occurs in the text. */
  lemma {:induction false} EncodeAsciiMember(s: string, c: char)
    requires c as int < 0x80
    ensures (Ascii(c) in Encode(s)) <==> (c in s)
  {
    if s != [] {
      EncodeAsciiMember(s[1..], c);
      assert s[0] as int >= 0x80 ==> forall k :: 0 <= k < |EncodeChar(s[0])| ==> EncodeChar(s[0])[k] >= 0x80;
      assert s == [s[0]] + s[1..];
    }
  }

  /** The NUL character is the only one whose encoding holds a zero byte. */
  lemma EncodeNul(s: string)
    ensures (0 as byte in Encode(s)) <==> ('\0' in s)
  {
    EncodeAsciiMember(s, '\0');
  }

  /** A lone continuation byte, or 0xFF, is not text. */
  lemma DecodeRejectsStrayByte(b: Bytes)
    requires |b| >= 1 && (Cont(b[0]) || b[0] as int >= 0xF5 || b[0] as int == 0xC0 || b[0] as int == 0xC1)
    ensures Decode(b) == None
  {
  }
}
