/** `URLEncoder.encode(s, "UTF-8")`: the application/x-www-form-urlencoded byte
    serializer of the WHATWG URL Standard (section 5.2), with the upper-case `%XX`
    triples of RFC 3986 (section 2.1), and a strict decoder that undoes it.

    A `char` here is a Unicode scalar value, so every character has one UTF-8 form. */
module FormEncoding {
  import opened Common

  /** Characters the encoder leaves alone: ASCII letters, digits and `.-*_`. */
  predicate IsUnreserved(c: char) {
    ('a' <= c <= 'z') || ('A' <= c <= 'Z') || ('0' <= c <= '9') ||
    c == '.' || c == '-' || c == '*' || c == '_'
  }

  predicate IsUpperHex(c: char) { ('0' <= c <= '9') || ('A' <= c <= 'F') }

  function HexDigit(n: int): (c: char)
    requires 0 <= n < 16
    ensures IsUpperHex(c)
  {
    "0123456789ABCDEF"[n]
  }

  /** The value of a hexadecimal digit of either case, the decoder's reading of `HexDigit`. */
  function HexValue(c: char): Option<int> {
    if '0' <= c <= '9' then Some(c as int - '0' as int)
    else if 'A' <= c <= 'F' then Some(c as int - 'A' as int + 10)
    else if 'a' <= c <= 'f' then Some(c as int - 'a' as int + 10)
    else None
  }

  lemma HexDigitValue(n: int)
    requires 0 <= n < 16
    ensures HexValue(HexDigit(n)) == Some(n)
  {
  }

  /** The UTF-8 bytes of one scalar value (RFC 3629, section 3). */
  function Utf8(c: char): (r: seq<Byte>)
    ensures 1 <= |r| <= 4
  {
    var cp := c as int;
    if cp < 0x80 then [cp]
    else if cp < 0x800 then [0xC0 + cp / 64, 0x80 + cp % 64]
    else if cp < 0x1_0000 then [0xE0 + cp / 4096, 0x80 + (cp / 64) % 64, 0x80 + cp % 64]
    else [0xF0 + cp / 262144, 0x80 + (cp / 4096) % 64, 0x80 + (cp / 64) % 64, 0x80 + cp % 64]
  }

  /** `%XX` for every byte, upper-case hex. */
  function PercentBytes(bytes: seq<Byte>): (r: string)
    ensures |r| == 3 * |bytes|
  {
    if bytes == [] then []
    else ['%', HexDigit(bytes[0] / 16), HexDigit(bytes[0] % 16)] + PercentBytes(bytes[1..])
  }

  /** The encoding of one character: itself, `+` for a space, else its escaped UTF-8 bytes. */
  function EncodeChar(c: char): string {
    if IsUnreserved(c) then [c]
    else if c == ' ' then "+"
    else PercentBytes(Utf8(c))
  }

  /** `URLEncoder.encode(s, "UTF-8")`. */
  function FormEncode(s: string): (r: string)
    ensures |r| >= |s|
    ensures r == [] <==> s == []
  {
    if s == [] then [] else EncodeChar(s[0]) + FormEncode(s[1..])
  }

  // ---------------------------------------------------------------------------
  // The shape of the encoder's output.

  /** Only unreserved characters, `+`, and `%` followed by two upper-case hex digits. */
  predicate IsFormEncoded(e: string) {
    if e == [] then true
    else if IsUnreserved(e[0]) || e[0] == '+' then IsFormEncoded(e[1..])
    else |e| >= 3 && e[0] == '%' && IsUpperHex(e[1]) && IsUpperHex(e[2]) && IsFormEncoded(e[3..])
  }

  lemma {:induction false} FormEncodedConcat(a: string, b: string)
    requires IsFormEncoded(a) && IsFormEncoded(b)
    ensures IsFormEncoded(a + b)
    decreases |a|, 1
  {
    if a == [] {
      assert a + b == b;
    } else if IsUnreserved(a[0]) || a[0] == '+' {
      FormEncodedConcatPlain(a, b);
    } else {
      FormEncodedConcatEscape(a, b);
    }
  }

  lemma {:induction false} FormEncodedConcatPlain(a: string, b: string)
    requires a != [] && (IsUnreserved(a[0]) || a[0] == '+')
    requires IsFormEncoded(a) && IsFormEncoded(b)
    ensures IsFormEncoded(a + b)
    decreases |a|, 0
  {
    var ab := a + b;
    FormEncodedConcat(a[1..], b);
    assert ab[1..] == a[1..] + b;
    assert ab[0] == a[0];
  }

  lemma {:induction false} FormEncodedConcatEscape(a: string, b: string)
    requires a != [] && !(IsUnreserved(a[0]) || a[0] == '+')
    requires IsFormEncoded(a) && IsFormEncoded(b)
    ensures IsFormEncoded(a + b)
    decreases |a|, 0
  {
    var ab := a + b;
    FormEncodedConcat(a[3..], b);
    assert ab[3..] == a[3..] + b;
    assert ab[0] == a[0] && ab[1] == a[1] && ab[2] == a[2];
  }

  lemma {:induction false} PercentBytesFormEncoded(bytes: seq<Byte>)
    ensures IsFormEncoded(PercentBytes(bytes))
    decreases |bytes|
  {
    if bytes != [] {
      PercentBytesFormEncoded(bytes[1..]);
      var e := PercentBytes(bytes);
      assert e[3..] == PercentBytes(bytes[1..]);
    }
  }

  /** Every output of the encoder has the form-encoded shape. */
  lemma {:induction false} FormEncodeShape(s: string)
    ensures IsFormEncoded(FormEncode(s))
    decreases |s|
  {
    if s != [] {
      FormEncodeShape(s[1..]);
      var c := s[0];
      if !IsUnreserved(c) && c != ' ' {
        PercentBytesFormEncoded(Utf8(c));
      }
      FormEncodedConcat(EncodeChar(c), FormEncode(s[1..]));
    }
  }

  /** The two-character placeholder `%s` occurs somewhere in `s`. */
  predicate ContainsPlaceholder(s: string) {
    |s| >= 2 && ((s[0] == '%' && s[1] == 's') || ContainsPlaceholder(s[1..]))
  }

  lemma {:induction false} FormEncodedHasNoPlaceholder(e: string)
    requires IsFormEncoded(e)
    ensures !ContainsPlaceholder(e)
    decreases |e|
  {
    if e != [] {
      if IsUnreserved(e[0]) || e[0] == '+' {
        FormEncodedHasNoPlaceholder(e[1..]);
      } else {
        FormEncodedHasNoPlaceholder(e[3..]);
        assert !ContainsPlaceholder(e[2..]) by { assert e[2..][1..] == e[3..]; }
        assert !ContainsPlaceholder(e[1..]) by { assert e[1..][1..] == e[2..]; }
      }
    }
  }

  /** The encoding of any subject is free of the template placeholder `%s`. */
  lemma EncodingHasNoPlaceholder(s: string)
    ensures !ContainsPlaceholder(FormEncode(s))
  {
    FormEncodeShape(s);
    FormEncodedHasNoPlaceholder(FormEncode(s));
  }

  // ---------------------------------------------------------------------------
  // A strict decoder: the inverse the encoder is checked against.

  /** The byte written as `%XX` at position `i`, if one is written there. */
  function EscapedByte(s: string, i: nat): Option<Byte> {
    if i + 3 <= |s| && s[i] == '%' && HexValue(s[i + 1]).Some? && HexValue(s[i + 2]).Some? then
      var hi, lo := HexValue(s[i + 1]).value, HexValue(s[i + 2]).value;
      if 0 <= hi < 16 && 0 <= lo < 16 then Some(hi * 16 + lo) else None
    else None
  }

  predicate IsContinuation(b: Byte) { 0x80 <= b < 0xC0 }

  /** A code point that is a Unicode scalar value, as a char. */
  function ScalarChar(cp: int): Option<char> {
    if (0 <= cp < 0xD800) || (0xE000 <= cp < 0x11_0000) then Some(cp as char) else None
  }

  /** Decodes the escaped UTF-8 sequence at the start of `s`: the character and how many
      characters of `s` it took. */
  function DecodeEscapedChar(s: string): Option<(char, nat)> {
    var b0 := EscapedByte(s, 0);
    if b0.None? then None
    else if b0.value < 0x80 then Some((b0.value as char, 3))
    else if 0xC0 <= b0.value < 0xE0 then
      var b1 := EscapedByte(s, 3);
      if b1.None? || !IsContinuation(b1.value) then None
      else
        var c := ScalarChar((b0.value - 0xC0) * 64 + (b1.value - 0x80));
        if c.None? then None else Some((c.value, 6))
    else if 0xE0 <= b0.value < 0xF0 then
      var b1, b2 := EscapedByte(s, 3), EscapedByte(s, 6);
      if b1.None? || b2.None? || !IsContinuation(b1.value) || !IsContinuation(b2.value) then None
      else
        var c := ScalarChar((b0.value - 0xE0) * 4096 + (b1.value - 0x80) * 64 + (b2.value - 0x80));
        if c.None? then None else Some((c.value, 9))
    else if 0xF0 <= b0.value < 0xF8 then
      var b1, b2, b3 := EscapedByte(s, 3), EscapedByte(s, 6), EscapedByte(s, 9);
      if b1.None? || b2.None? || b3.None? || !IsContinuation(b1.value) ||
         !IsContinuation(b2.value) || !IsContinuation(b3.value) then None
      else
        var c := ScalarChar((b0.value - 0xF0) * 262144 + (b1.value - 0x80) * 4096 +
                            (b2.value - 0x80) * 64 + (b3.value - 0x80));
        if c.None? then None else Some((c.value, 12))
    else None
  }

  /** The strict inverse of `FormEncode`: `+` is a space, `%XX...` an escaped UTF-8
      character, anything else itself; a malformed escape yields `None`. */
  function FormDecode(e: string): Option<string>
    decreases |e|
  {
    if e == [] then Some([])
    else if e[0] == '%' then
      var d := DecodeEscapedChar(e);
      if d.None? || d.value.1 == 0 || d.value.1 > |e| then None
      else
        var rest := FormDecode(e[d.value.1..]);
        if rest.None? then None else Some([d.value.0] + rest.value)
    else
      var rest := FormDecode(e[1..]);
      if rest.None? then None else Some([if e[0] == '+' then ' ' else e[0]] + rest.value)
  }

  /** Looking `n` characters further into `s` is looking into `s[n..]`. */
  lemma EscapedByteShift(s: string, n: nat, i: nat)
    requires n <= |s|
    ensures EscapedByte(s, n + i) == EscapedByte(s[n..], i)
  {
    if n + i + 3 <= |s| {
      assert s[n + i] == s[n..][i] && s[n + i + 1] == s[n..][i + 1] && s[n + i + 2] == s[n..][i + 2];
    }
  }

  /** One `%XX` triple reads back as the byte it was written for. */
  lemma EscapedTriple(b: Byte, t: string)
    ensures EscapedByte(['%', HexDigit(b / 16), HexDigit(b % 16)] + t, 0) == Some(b)
  {
    HexDigitValue(b / 16);
    HexDigitValue(b % 16);
  }

  /** Reading back the bytes `PercentBytes` wrote. */
  lemma {:induction false} PercentBytesAt(bytes: seq<Byte>, rest: string, k: nat)
    requires k < |bytes|
    ensures EscapedByte(PercentBytes(bytes) + rest, 3 * k) == Some(bytes[k])
    decreases k
  {
    var b := bytes[0];
    var t := PercentBytes(bytes[1..]) + rest;
    var e := PercentBytes(bytes) + rest;
    assert e == ['%', HexDigit(b / 16), HexDigit(b % 16)] + t;
    if k == 0 {
      EscapedTriple(b, t);
    } else {
      PercentBytesAt(bytes[1..], rest, k - 1);
      assert e[3..] == t;
      EscapedByteShift(e, 3, 3 * (k - 1));
    }
  }

  /** Scalar values with a two-byte UTF-8 form are rebuilt from those bytes. */
  lemma Utf8TwoBytes(cp: int)
    requires 0x80 <= cp < 0x800
    ensures 0xC0 <= 0xC0 + cp / 64 < 0xE0
    ensures (cp / 64) * 64 + cp % 64 == cp
  {
  }

  lemma Utf8ThreeBytes(cp: int)
    requires 0x800 <= cp < 0x1_0000
    ensures 0xE0 <= 0xE0 + cp / 4096 < 0xF0
    ensures (cp / 4096) * 4096 + ((cp / 64) % 64) * 64 + cp % 64 == cp
  {
    assert cp / 64 == (cp / 4096) * 64 + (cp / 64) % 64;
  }

  lemma Utf8FourBytes(cp: int)
    requires 0x1_0000 <= cp < 0x11_0000
    ensures 0xF0 <= 0xF0 + cp / 262144 < 0xF8
    ensures (cp / 262144) * 262144 + ((cp / 4096) % 64) * 4096 + ((cp / 64) % 64) * 64 + cp % 64 == cp
  {
    assert cp / 64 == (cp / 4096) * 64 + (cp / 64) % 64;
    assert cp / 4096 == (cp / 262144) * 64 + (cp / 4096) % 64;
  }

  lemma DecodeTwo(e: string, c: char)
    requires 0x80 <= c as int < 0x800
    requires EscapedByte(e, 0) == Some(0xC0 + (c as int) / 64)
    requires EscapedByte(e, 3) == Some(0x80 + (c as int) % 64)
    ensures DecodeEscapedChar(e) == Some((c, 6))
  {
    Utf8TwoBytes(c as int);
  }

  lemma DecodeThree(e: string, c: char)
    requires 0x800 <= c as int < 0x1_0000
    requires EscapedByte(e, 0) == Some(0xE0 + (c as int) / 4096)
    requires EscapedByte(e, 3) == Some(0x80 + ((c as int) / 64) % 64)
    requires EscapedByte(e, 6) == Some(0x80 + (c as int) % 64)
    ensures DecodeEscapedChar(e) == Some((c, 9))
  {
    Utf8ThreeBytes(c as int);
  }

  lemma DecodeFour(e: string, c: char)
    requires 0x1_0000 <= c as int
    requires EscapedByte(e, 0) == Some(0xF0 + (c as int) / 262144)
    requires EscapedByte(e, 3) == Some(0x80 + ((c as int) / 4096) % 64)
    requires EscapedByte(e, 6) == Some(0x80 + ((c as int) / 64) % 64)
    requires EscapedByte(e, 9) == Some(0x80 + (c as int) % 64)
    ensures DecodeEscapedChar(e) == Some((c, 12))
  {
    Utf8FourBytes(c as int);
  }

  /** The escaped UTF-8 form of a character decodes back to that character. */
  lemma DecodeEscapedUtf8(c: char, rest: string)
    ensures DecodeEscapedChar(PercentBytes(Utf8(c)) + rest) == Some((c, 3 * |Utf8(c)|))
  {
    var cp := c as int;
    if cp < 0x80 {
      DecodeEscapedOne(c, rest);
    } else if cp < 0x800 {
      DecodeEscapedTwo(c, rest);
    } else if cp < 0x1_0000 {
      DecodeEscapedThree(c, rest);
    } else {
      DecodeEscapedFour(c, rest);
    }
  }

  lemma DecodeEscapedOne(c: char, rest: string)
    requires c as int < 0x80
    ensures DecodeEscapedChar(PercentBytes(Utf8(c)) + rest) == Some((c, 3))
  {
    var bytes := Utf8(c);
    assert bytes == [c as int];
    PercentBytesAt(bytes, rest, 0);
  }

  lemma DecodeEscapedTwo(c: char, rest: string)
    requires 0x80 <= c as int < 0x800
    ensures DecodeEscapedChar(PercentBytes(Utf8(c)) + rest) == Some((c, 6))
  {
    var bytes := Utf8(c);
    PercentBytesAt(bytes, rest, 0);
    PercentBytesAt(bytes, rest, 1);
    DecodeTwo(PercentBytes(bytes) + rest, c);
  }

  lemma DecodeEscapedThree(c: char, rest: string)
    requires 0x800 <= c as int < 0x1_0000
    ensures DecodeEscapedChar(PercentBytes(Utf8(c)) + rest) == Some((c, 9))
  {
    var bytes := Utf8(c);
    PercentBytesAt(bytes, rest, 0);
    PercentBytesAt(bytes, rest, 1);
    PercentBytesAt(bytes, rest, 2);
    DecodeThree(PercentBytes(bytes) + rest, c);
  }

  lemma DecodeEscapedFour(c: char, rest: string)
    requires 0x1_0000 <= c as int
    ensures DecodeEscapedChar(PercentBytes(Utf8(c)) + rest) == Some((c, 12))
  {
    var bytes := Utf8(c);
    PercentBytesAt(bytes, rest, 0);
    PercentBytesAt(bytes, rest, 1);
    PercentBytesAt(bytes, rest, 2);
    PercentBytesAt(bytes, rest, 3);
    DecodeFour(PercentBytes(bytes) + rest, c);
  }

  /** Decoding undoes encoding: `URLDecoder.decode(URLEncoder.encode(s))` gives `s` back,
      so no two subjects share an encoding. */
  lemma {:induction false} FormDecodeEncode(s: string)
    ensures FormDecode(FormEncode(s)) == Some(s)
    decreases |s|
  {
    if s != [] {
      var c := s[0];
      var tail := FormEncode(s[1..]);
      FormDecodeEncode(s[1..]);
      var e := FormEncode(s);
      assert e == EncodeChar(c) + tail;
      assert s == [c] + s[1..];
      if IsUnreserved(c) || c == ' ' {
        assert e[0] != '%';
        assert e[1..] == tail;
      } else {
        DecodeEscapedUtf8(c, tail);
        assert e[3 * |Utf8(c)|..] == tail;
      }
    }
  }

  lemma FormEncodeInjective(s: string, t: string)
    requires FormEncode(s) == FormEncode(t)
    ensures s == t
  {
    FormDecodeEncode(s);
    FormDecodeEncode(t);
  }

  /** The encoder works character by character, so it distributes over concatenation. */
  lemma {:induction false} FormEncodeConcat(a: string, b: string)
    ensures FormEncode(a + b) == FormEncode(a) + FormEncode(b)
    decreases |a|
  {
    if a == [] {
      assert a + b == b;
    } else {
      var x := EncodeChar(a[0]);
      assert FormEncode(a + b) == x + FormEncode(a[1..] + b) by {
        assert (a + b)[0] == a[0] && (a + b)[1..] == a[1..] + b;
      }
      FormEncodeConcat(a[1..], b);
    }
  }

  /** A string of unreserved characters is its own encoding. */
  lemma {:induction false} FormEncodeUnreserved(s: string)
    requires AllUnreserved(s)
    ensures FormEncode(s) == s
    decreases |s|
  {
    if s != [] {
      FormEncodeUnreserved(s[1..]);
    }
  }

  predicate AllUnreserved(s: string) {
    forall k :: 0 <= k < |s| ==> IsUnreserved(s[k])
  }

  /** The separators of a URL are escaped. */
  lemma EncodeUrlSeparators()
    ensures FormEncode("://") == "%3A%2F%2F"
    ensures FormEncode("/") == "%2F"
  {
    assert FormEncode("/") == "%2F";
    assert FormEncode("://") == EncodeChar(':') + FormEncode("//");
    assert FormEncode("//") == "%2F" + FormEncode("/");
  }

  /** A URL `scheme://host/path` whose three parts need no escaping encodes as
      `scheme%3A%2F%2Fhost%2Fpath`. */
  lemma EncodeSimpleUrl(scheme: string, host: string, path: string)
    requires AllUnreserved(scheme) && AllUnreserved(host) && AllUnreserved(path)
    ensures FormEncode(scheme + "://" + host + "/" + path) == scheme + "%3A%2F%2F" + host + "%2F" + path
  {
    FormEncodeUnreserved(scheme);
    FormEncodeUnreserved(host);
    FormEncodeUnreserved(path);
    EncodeUrlSeparators();
    FormEncodeConcat(scheme, "://");
    FormEncodeConcat(scheme + "://", host);
    FormEncodeConcat(scheme + "://" + host, "/");
    FormEncodeConcat(scheme + "://" + host + "/", path);
  }
}
