/**
 * The global functions encodeURIComponent and decodeURIComponent of ECMA-262 (the URI
 * handling functions): UTF-8 percent-encoding in the manner of section 2.1 of RFC 3986, over
 * Unicode scalar values (a Dafny `char`; a string holding a lone surrogate, on which
 * encodeURIComponent throws, cannot be written here).
 */
module UriComponent {
  import opened Common

  type Byte = x: int | 0 <= x < 256

  /** The characters encodeURIComponent leaves as they are: letters, digits and - _ . ! ~ * ' ( ) */
  predicate Unreserved(c: char) {
    || ('A' <= c <= 'Z') || ('a' <= c <= 'z') || ('0' <= c <= '9')
    || c == '-' || c == '_' || c == '.' || c == '!' || c == '~'
    || c == '*' || c == '\'' || c == '(' || c == ')'
  }

  /** The upper-case hexadecimal digit for a value below 16, as the encoder writes it. */
  function HexDigit(d: int): (c: char)
    requires 0 <= d < 16
    ensures Unreserved(c)
  {
    if d < 10 then ('0' as int + d) as char else ('A' as int + d - 10) as char
  }

  /** The value of a hexadecimal digit of either case, as the decoder reads it. */
  function HexValue(c: char): (r: Option<int>)
    ensures r.Some? ==> 0 <= r.value < 16
    ensures r.Some? <==> ('0' <= c <= '9') || ('A' <= c <= 'F') || ('a' <= c <= 'f')
  {
    if '0' <= c <= '9' then Some(c as int - '0' as int)
    else if 'A' <= c <= 'F' then Some(c as int - 'A' as int + 10)
    else if 'a' <= c <= 'f' then Some(c as int - 'a' as int + 10)
    else None
  }

  /** The UTF-8 encoding of one scalar value (RFC 3629, section 3). */
  function Utf8(c: char): (bs: seq<Byte>)
    ensures 1 <= |bs| <= 4
  {
    var cp := c as int;
    if cp < 0x80 then [cp]
    else if cp < 0x800 then [0xC0 + cp / 64, 0x80 + cp % 64]
    else if cp < 0x10000 then [0xE0 + cp / 64 / 64, 0x80 + cp / 64 % 64, 0x80 + cp % 64]
    else [0xF0 + cp / 64 / 64 / 64, 0x80 + cp / 64 / 64 % 64, 0x80 + cp / 64 % 64, 0x80 + cp % 64]
  }

  /** `%XY` for every byte, with upper-case hexadecimal digits. */
  function Escape(bs: seq<Byte>): (r: string)
    ensures |r| == 3 * |bs|
    ensures forall i :: 0 <= i < |r| ==> Unreserved(r[i]) || r[i] == '%'
  {
    if bs == [] then []
    else ['%', HexDigit(bs[0] / 16), HexDigit(bs[0] % 16)] + Escape(bs[1..])
  }

  function EncodeChar(c: char): string {
    if Unreserved(c) then [c] else Escape(Utf8(c))
  }

  /** encodeURIComponent */
  function Encode(s: string): (r: string)
    ensures |r| >= |s|
  {
    if s == [] then [] else EncodeChar(s[0]) + Encode(s[1..])
  }

  /** Reads one escape `%XY` at the head of `s`. */
  function ReadEscape(s: string): (r: Option<Byte>)
    ensures r.Some? ==> |s| >= 3 && s[0] == '%'
  {
    if |s| >= 3 && s[0] == '%' && HexValue(s[1]).Some? && HexValue(s[2]).Some? then
      Some(16 * HexValue(s[1]).value + HexValue(s[2]).value)
    else None
  }

  /** Reads `n` consecutive escapes at the head of `s`. */
  function ReadEscapes(s: string, n: nat): (r: Option<seq<Byte>>)
    ensures r.Some? ==> |r.value| == n && |s| >= 3 * n
  {
    if n == 0 then Some([])
    else match ReadEscape(s)
      case None => None
      case Some(b) =>
        match ReadEscapes(s[3..], n - 1)
        case None => None
        case Some(bs) => Some([b] + bs)
  }

  /** The length of the UTF-8 sequence a leading byte announces; 0 for a byte that cannot lead one. */
  function Utf8Length(b: Byte): nat {
    if b < 0x80 then 1
    else if 0xC0 <= b < 0xE0 then 2
    else if 0xE0 <= b < 0xF0 then 3
    else if 0xF0 <= b < 0xF8 then 4
    else 0
  }

  predicate Continuation(b: Byte) {
    0x80 <= b < 0xC0
  }

  /** The scalar value a UTF-8 sequence encodes; None for an overlong form, a surrogate or a value past U+10FFFF. */
  function DecodeUtf8(bs: seq<Byte>): Option<char> {
    if |bs| == 1 && bs[0] < 0x80 then Some(bs[0] as char)
    else if |bs| == 2 && 0xC0 <= bs[0] < 0xE0 && Continuation(bs[1]) then
      var cp: int := (bs[0] as int - 0xC0) * 64 + (bs[1] as int - 0x80);
      if cp < 0x80 then None else Some(cp as char)
    else if |bs| == 3 && 0xE0 <= bs[0] < 0xF0 && Continuation(bs[1]) && Continuation(bs[2]) then
      var cp: int := ((bs[0] as int - 0xE0) * 64 + (bs[1] as int - 0x80)) * 64 + (bs[2] as int - 0x80);
      if cp < 0x800 || 0xD800 <= cp < 0xE000 then None else Some(cp as char)
    else if |bs| == 4 && 0xF0 <= bs[0] < 0xF8 && Continuation(bs[1]) && Continuation(bs[2]) && Continuation(bs[3]) then
      var cp: int := (((bs[0] as int - 0xF0) * 64 + (bs[1] as int - 0x80)) * 64 + (bs[2] as int - 0x80)) * 64 + (bs[3] as int - 0x80);
      if cp < 0x10000 || cp > 0x10FFFF then None else Some(cp as char)
    else None
  }

  /** decodeURIComponent; None where it throws URIError. */
  function Decode(s: string): (r: Option<string>)
    decreases |s|
  {
    if s == [] then Some([])
    else if s[0] != '%' then
      match Decode(s[1..])
      case None => None
      case Some(t) => Some([s[0]] + t)
    else
      match ReadEscape(s)
      case None => None
      case Some(b) =>
        var n := Utf8Length(b);
        if n == 0 then None
        else
          match ReadEscapes(s, n)
          case None => None
          case Some(bs) =>
            match DecodeUtf8(bs)
            case None => None
            case Some(c) =>
              match Decode(s[3 * n..])
              case None => None
              case Some(t) => Some([c] + t)
  }

  lemma HexDigitValue(d: int)
    requires 0 <= d < 16
    ensures HexValue(HexDigit(d)) == Some(d)
  {
  }

  lemma {:induction false} ReadEscapesOfEscape(bs: seq<Byte>, rest: string)
    ensures ReadEscapes(Escape(bs) + rest, |bs|) == Some(bs)
  {
    if bs != [] {
      var s := Escape(bs) + rest;
      HexDigitValue(bs[0] / 16);
      HexDigitValue(bs[0] % 16);
      assert s[1] == HexDigit(bs[0] / 16) && s[2] == HexDigit(bs[0] % 16);
      assert ReadEscape(s) == Some(bs[0]);
      assert s[3..] == Escape(bs[1..]) + rest;
      ReadEscapesOfEscape(bs[1..], rest);
      assert [bs[0]] + bs[1..] == bs;
    }
  }

  /** Decoding the UTF-8 form of a scalar value gives that value back. */
  lemma Utf8RoundTrip(c: char)
    ensures Utf8Length(Utf8(c)[0]) == |Utf8(c)|
    ensures DecodeUtf8(Utf8(c)) == Some(c)
  {
    var cp := c as int;
    if cp < 0x80 {
    } else if cp < 0x800 {
      assert (cp / 64) * 64 + cp % 64 == cp;
    } else if cp < 0x10000 {
      var q := cp / 64;
      assert q * 64 + cp % 64 == cp;
      assert (q / 64) * 64 + q % 64 == q;
    } else {
      var q := cp / 64;
      var q2 := q / 64;
      assert q * 64 + cp % 64 == cp;
      assert q2 * 64 + q % 64 == q;
      assert (q2 / 64) * 64 + q2 % 64 == q2;
    }
  }

  lemma DecodeEncodeChar(c: char, rest: string)
    ensures Decode(EncodeChar(c) + rest) == match Decode(rest) case None => None case Some(t) => Some([c] + t)
  {
    var s := EncodeChar(c) + rest;
    if Unreserved(c) {
      assert s[0] == c && s[1..] == rest;
    } else {
      var bs := Utf8(c);
      var n := |bs|;
      assert s == Escape(bs) + rest;
      Utf8RoundTrip(c);
      ReadEscapesOfEscape(bs, rest);
      assert ReadEscapes(s, n) == Some(bs);
      assert ReadEscape(s) == Some(bs[0]);
      assert Utf8Length(bs[0]) == n;
      assert s[3 * n..] == rest;
    }
  }

  /** decodeURIComponent undoes encodeURIComponent. */
  lemma {:induction false} DecodeEncode(s: string)
    ensures Decode(Encode(s)) == Some(s)
  {
    if s != [] {
      DecodeEncode(s[1..]);
      DecodeEncodeChar(s[0], Encode(s[1..]));
      assert [s[0]] + s[1..] == s;
    }
  }

  /** Every character of an encoded string is unreserved or the escape mark `%`. */
  lemma {:induction false} EncodeIsSafe(s: string)
    ensures forall i :: 0 <= i < |Encode(s)| ==> Unreserved(Encode(s)[i]) || Encode(s)[i] == '%'
  {
    if s != [] {
      EncodeIsSafe(s[1..]);
      var head := EncodeChar(s[0]);
      assert forall i :: 0 <= i < |head| ==> Unreserved(head[i]) || head[i] == '%';
      var r := Encode(s);
      assert r == head + Encode(s[1..]);
      forall i | 0 <= i < |r|
        ensures Unreserved(r[i]) || r[i] == '%'
      {
        if i >= |head| {
          assert r[i] == Encode(s[1..])[i - |head|];
        }
      }
    }
  }

  /** The encoded form holds none of the URL delimiters that would split an enclosing query string. */
  lemma EncodeHasNoDelimiters(s: string)
    ensures forall i :: 0 <= i < |Encode(s)| ==> Encode(s)[i] !in {':', '/', '?', '=', '&', '#'}
  {
    EncodeIsSafe(s);
  }

  /** A string made of unreserved characters only is its own encoding. */
  lemma {:induction false} EncodeUnreservedIdentity(s: string)
    requires forall i :: 0 <= i < |s| ==> Unreserved(s[i])
    ensures Encode(s) == s
  {
    if s != [] {
      EncodeUnreservedIdentity(s[1..]);
      assert [s[0]] + s[1..] == s;
    }
  }
}
