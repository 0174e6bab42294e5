/**
 * `encodeURIComponent` as the search client uses it: every character outside a
 * small unreserved set is written as the percent-escaped bytes of its UTF-8
 * encoding (RFC 3629), with upper-case hexadecimal digits as in section 2.1 of
 * RFC 3986. A Dafny `char` is a Unicode scalar value, so the lone-surrogate
 * case in which JavaScript throws cannot arise.
 */
module UriComponent {
  import opened Wrappers

  type Byte = b: int | 0 <= b < 256

  /** The characters `encodeURIComponent` leaves as they are. */
  predicate Unescaped(c: char) {
    ('A' <= c <= 'Z') || ('a' <= c <= 'z') || ('0' <= c <= '9') ||
    c == '-' || c == '_' || c == '.' || c == '!' || c == '~' ||
    c == '*' || c == '\'' || c == '(' || c == ')'
  }

  /** The UTF-8 bytes of one character. */
  function Utf8(c: char): (bs: seq<Byte>)
    ensures 1 <= |bs| <= 4
    ensures |bs| == 1 <==> c as int < 0x80
    ensures |bs| == 1 ==> bs[0] == c as int
  {
    var cp := c as int;
    if cp < 0x80 then [cp]
    else if cp < 0x800 then [0xC0 + cp / 0x40, 0x80 + cp % 0x40]
    else if cp < 0x1_0000 then [0xE0 + cp / 0x1000, 0x80 + (cp / 0x40) % 0x40, 0x80 + cp % 0x40]
    else [0xF0 + cp / 0x4_0000, 0x80 + (cp / 0x1000) % 0x40, 0x80 + (cp / 0x40) % 0x40, 0x80 + cp % 0x40]
  }

  /** The code point a well-formed UTF-8 sequence of one to four bytes stands for. */
  function Utf8Value(bs: seq<Byte>): int
    requires 1 <= |bs| <= 4
  {
    var b := (i: nat) requires i < |bs| => bs[i] as int;
    if |bs| == 1 then b(0)
    else if |bs| == 2 then (b(0) - 0xC0) * 0x40 + (b(1) - 0x80)
    else if |bs| == 3 then (b(0) - 0xE0) * 0x1000 + (b(1) - 0x80) * 0x40 + (b(2) - 0x80)
    else (b(0) - 0xF0) * 0x4_0000 + (b(1) - 0x80) * 0x1000 + (b(2) - 0x80) * 0x40 + (b(3) - 0x80)
  }

  /** Decoding the UTF-8 bytes of a character gives back its code point. */
  lemma Utf8RoundTrip(c: char)
    ensures Utf8Value(Utf8(c)) == c as int
  {
    var cp := c as int;
    if cp < 0x80 {
    } else if cp < 0x800 {
      assert cp == (cp / 0x40) * 0x40 + cp % 0x40;
    } else if cp < 0x1_0000 {
      var q := cp / 0x40;
      assert cp == q * 0x40 + cp % 0x40;
      assert q == (cp / 0x1000) * 0x40 + q % 0x40;
    } else {
      var q := cp / 0x40;
      var p := cp / 0x1000;
      assert cp == q * 0x40 + cp % 0x40;
      assert q == p * 0x40 + q % 0x40;
      assert p == (cp / 0x4_0000) * 0x40 + p % 0x40;
    }
  }

  /** The UTF-8 bytes of a whole string. */
  function Utf8String(s: string): seq<Byte> {
    if s == [] then [] else Utf8(s[0]) + Utf8String(s[1..])
  }

  function HexDigit(d: int): (c: char)
    requires 0 <= d < 16
  {
    if d < 10 then ('0' as int + d) as char else ('A' as int + d - 10) as char
  }

  function HexValue(c: char): Option<int> {
    if '0' <= c <= '9' then Some(c as int - '0' as int)
    else if 'A' <= c <= 'F' then Some(c as int - 'A' as int + 10)
    else if 'a' <= c <= 'f' then Some(c as int - 'a' as int + 10)
    else None
  }

  /** `%XY` for each byte, in order. */
  function Escape(bs: seq<Byte>): (r: string)
    ensures |r| == 3 * |bs|
    ensures forall i :: 0 <= i < |r| ==> r[i] == '%' || Unescaped(r[i])
  {
    if bs == [] then [] else ['%', HexDigit(bs[0] / 16), HexDigit(bs[0] % 16)] + Escape(bs[1..])
  }

  function EncodeChar(c: char): string {
    if Unescaped(c) then [c] else Escape(Utf8(c))
  }

  /** `encodeURIComponent(s)`: only unreserved characters and `%` remain. */
  function Encode(s: string): (r: string)
    ensures forall i :: 0 <= i < |r| ==> r[i] == '%' || Unescaped(r[i])
    ensures |s| <= |r|
  {
    if s == [] then [] else EncodeChar(s[0]) + Encode(s[1..])
  }

  /** Percent-decoding to bytes; `None` on anything `Encode` never produces. */
  function PercentDecode(s: string): Option<seq<Byte>>
    decreases |s|
  {
    if s == [] then Some([])
    else if s[0] == '%' then
      if |s| < 3 then None
      else
        match (HexValue(s[1]), HexValue(s[2]), PercentDecode(s[3..]))
        case (Some(hi), Some(lo), Some(rest)) => Some([hi * 16 + lo] + rest)
        case _ => None
    else if Unescaped(s[0]) then
      match PercentDecode(s[1..])
      case Some(rest) => Some([s[0] as int] + rest)
      case None => None
    else None
  }

  function Prepend(bs: seq<Byte>, rest: Option<seq<Byte>>): Option<seq<Byte>> {
    match rest
    case Some(t) => Some(bs + t)
    case None => None
  }

  lemma HexRoundTrip(d: int)
    requires 0 <= d < 16
    ensures HexValue(HexDigit(d)) == Some(d)
  {
  }

  lemma {:induction false} DecodeEscape(bs: seq<Byte>, rest: string)
    ensures PercentDecode(Escape(bs) + rest) == Prepend(bs, PercentDecode(rest))
  {
    if bs != [] {
      var s := Escape(bs) + rest;
      var hi, lo := bs[0] / 16, bs[0] % 16;
      HexRoundTrip(hi);
      HexRoundTrip(lo);
      assert s[0] == '%' && s[1] == HexDigit(hi) && s[2] == HexDigit(lo);
      assert s[3..] == Escape(bs[1..]) + rest;
      DecodeEscape(bs[1..], rest);
      assert hi * 16 + lo == bs[0];
      match PercentDecode(rest)
      case Some(t) => assert [bs[0]] + (bs[1..] + t) == bs + t;
      case None =>
    } else {
      assert Escape(bs) + rest == rest;
      match PercentDecode(rest)
      case Some(t) => assert bs + t == t;
      case None =>
    }
  }

  lemma DecodeEncodeChar(c: char, rest: string)
    ensures PercentDecode(EncodeChar(c) + rest) == Prepend(Utf8(c), PercentDecode(rest))
  {
    if Unescaped(c) {
      assert (EncodeChar(c) + rest)[1..] == rest;
    } else {
      DecodeEscape(Utf8(c), rest);
    }
  }

  /**
   * Percent-decoding the encoded query gives exactly the UTF-8 bytes of the
   * query: the server reads back what the user typed.
   */
  lemma {:induction false} DecodeEncode(s: string)
    ensures PercentDecode(Encode(s)) == Some(Utf8String(s))
  {
    if s != [] {
      DecodeEncodeChar(s[0], Encode(s[1..]));
      DecodeEncode(s[1..]);
    }
  }

  /** A string of unreserved characters is its own encoding. */
  lemma {:induction false} EncodeUnescaped(s: string)
    requires forall i :: 0 <= i < |s| ==> Unescaped(s[i])
    ensures Encode(s) == s
  {
    if s != [] {
      EncodeUnescaped(s[1..]);
    }
  }

  /** Encoding works character by character, so it distributes over concatenation. */
  lemma {:induction false} EncodeAppend(a: string, b: string)
    ensures Encode(a + b) == Encode(a) + Encode(b)
  {
    if a != [] {
      assert (a + b)[1..] == a[1..] + b;
      EncodeAppend(a[1..], b);
    } else {
      assert a + b == b;
    }
  }

  /** A space is written `%20`. */
  lemma EncodeSpace()
    ensures Encode(" ") == "%20"
  {
    assert Utf8(' ') == [0x20];
    assert HexDigit(2) == '2' && HexDigit(0) == '0';
  }

  /** The query of the client's request example: "test query" becomes "test%20query". */
  lemma EncodeTestQuery()
    ensures Encode("test query") == "test%20query"
  {
    var test, query := "test", "query";
    assert Encode(test) == test by {
      assert forall i :: 0 <= i < |test| ==> Unescaped(test[i]);
      EncodeUnescaped(test);
    }
    assert Encode(query) == query by {
      assert forall i :: 0 <= i < |query| ==> Unescaped(query[i]);
      EncodeUnescaped(query);
    }
    assert Encode(" " + query) == "%20" + query by {
      EncodeSpace();
      EncodeAppend(" ", query);
    }
    assert Encode(test + (" " + query)) == test + ("%20" + query) by {
      EncodeAppend(test, " " + query);
    }
    assert test + (" " + query) == "test query";
    assert test + ("%20" + query) == "test%20query";
  }

  /** A non-ASCII character becomes the escapes of its UTF-8 bytes. */
  lemma EncodeNonAscii()
    ensures Encode("\U{E9}") == "%C3%A9"
  {
    assert Utf8('\U{E9}') == [0xC3, 0xA9];
    assert HexDigit(0xC3 / 16) == 'C' && HexDigit(0xC3 % 16) == '3';
    assert HexDigit(0xA9 / 16) == 'A' && HexDigit(0xA9 % 16) == '9';
  }
}
