// `encodeURIComponent`, as section 19.2.6 (URI Handling Functions) of
// ECMA-262 defines it, together with `decodeURIComponent` as its partner:
// every character outside the unreserved set becomes the `%XX` escapes of
// its UTF-8 octets, with upper-case hexadecimal digits.

module UriEncoding {
  import opened Optional

  type byte = b: int | 0 <= b < 256

  /** The characters `encodeURIComponent` leaves as they are: letters, digits and `-_.!~*'()`. */
  predicate IsUnreserved(c: char) {
    ('A' <= c <= 'Z') || ('a' <= c <= 'z') || ('0' <= c <= '9') ||
    c == '-' || c == '_' || c == '.' || c == '!' || c == '~' || c == '*' || c == '\'' || c == '(' || c == ')'
  }

  /** The hexadecimal digits the encoder writes. */
  predicate IsUpperHex(c: char) {
    ('0' <= c <= '9') || ('A' <= c <= 'F')
  }

  /** The UTF-8 octets of one code point. */
  function Utf8(c: char): (r: seq<byte>)
    ensures 1 <= |r| <= 4
  {
    var cp := c as int;
    if cp < 0x80 then [cp]
    else if cp < 0x800 then [0xC0 + cp / 0x40, 0x80 + cp % 0x40]
    else if cp < 0x1_0000 then [0xE0 + cp / 0x1000, 0x80 + (cp / 0x40) % 0x40, 0x80 + cp % 0x40]
    else [0xF0 + cp / 0x4_0000, 0x80 + (cp / 0x1000) % 0x40, 0x80 + (cp / 0x40) % 0x40, 0x80 + cp % 0x40]
  }

  function HexDigit(n: int): (c: char)
    requires 0 <= n < 16
    ensures IsUpperHex(c)
  {
    if n < 10 then ('0' as int + n) as char else ('A' as int + n - 10) as char
  }

  /** One octet as `%XX`. */
  function PercentByte(b: byte): string {
    ['%', HexDigit(b / 16), HexDigit(b % 16)]
  }

  function PercentBytes(bs: seq<byte>): (r: string)
    ensures |r| == 3 * |bs|
  {
    if bs == [] then [] else PercentByte(bs[0]) + PercentBytes(bs[1..])
  }

  function EncodeChar(c: char): string {
    if IsUnreserved(c) then [c] else PercentBytes(Utf8(c))
  }

  /** `encodeURIComponent(s)`. */
  function EncodeUriComponent(s: string): string {
    if s == [] then [] else EncodeChar(s[0]) + EncodeUriComponent(s[1..])
  }

  // ----------------------------------------------------------------- decoding

  /** The value of a hexadecimal digit of either case. */
  function HexValue(c: char): (r: Option<int>)
    ensures r.Some? ==> 0 <= r.value < 16
  {
    if '0' <= c <= '9' then Some(c as int - '0' as int)
    else if 'A' <= c <= 'F' then Some(c as int - 'A' as int + 10)
    else if 'a' <= c <= 'f' then Some(c as int - 'a' as int + 10)
    else None
  }

  /** The octet written as `%XX` at position `k` of `s`, if there is one. */
  function ByteAt(s: string, k: nat): Option<byte> {
    if k + 3 <= |s| && s[k] == '%' && HexValue(s[k + 1]).Some? && HexValue(s[k + 2]).Some? then
      Some(HexValue(s[k + 1]).value * 16 + HexValue(s[k + 2]).value)
    else None
  }

  /** `n` consecutive `%XX` escapes at the start of `s`. */
  function PercentRun(s: string, n: nat): (r: Option<seq<byte>>)
    ensures r.Some? ==> |r.value| == n && 3 * n <= |s|
  {
    if n == 0 then Some([])
    else
      match ByteAt(s, 0)
      case None => None
      case Some(b) =>
        match PercentRun(s[3..], n - 1)
        case None => None
        case Some(bs) => Some([b] + bs)
  }

  /** The length of the UTF-8 sequence a lead octet announces, 0 for an octet that cannot lead. */
  function SequenceLength(b: byte): nat {
    if b < 0x80 then 1
    else if 0xC0 <= b < 0xE0 then 2
    else if 0xE0 <= b < 0xF0 then 3
    else if 0xF0 <= b < 0xF8 then 4
    else 0
  }

  predicate IsContinuation(b: byte) { 0x80 <= b < 0xC0 }

  /** The code point a UTF-8 sequence encodes; `None` for an overlong, surrogate or out-of-range one. */
  function DecodeUtf8(bs: seq<byte>): Option<char>
    requires 1 <= |bs| <= 4 && |bs| == SequenceLength(bs[0])
  {
    if |bs| == 1 then Some(bs[0] as char)
    else if exists i :: 1 <= i < |bs| && !IsContinuation(bs[i]) then None
    else if |bs| == 2 then
      var cp := (bs[0] as int - 0xC0) * 0x40 + (bs[1] as int - 0x80);
      if cp < 0x80 then None else Some(cp as char)
    else if |bs| == 3 then
      var cp := (bs[0] as int - 0xE0) * 0x1000 + (bs[1] as int - 0x80) * 0x40 + (bs[2] as int - 0x80);
      if cp < 0x800 || (0xD800 <= cp < 0xE000) then None else Some(cp as char)
    else
      var cp := (bs[0] as int - 0xF0) * 0x4_0000 + (bs[1] as int - 0x80) * 0x1000 + (bs[2] as int - 0x80) * 0x40 + (bs[3] as int - 0x80);
      if cp < 0x1_0000 || cp > 0x10_FFFF then None else Some(cp as char)
  }

  /** `decodeURIComponent(s)`; `None` where it throws a URIError. */
  function DecodeUriComponent(s: string): Option<string>
    decreases |s|
  {
    if s == [] then Some([])
    else if s[0] != '%' then
      match DecodeUriComponent(s[1..])
      case None => None
      case Some(t) => Some([s[0]] + t)
    else
      match ByteAt(s, 0)
      case None => None
      case Some(b) =>
        var n := SequenceLength(b);
        if n == 0 then None
        else
          match PercentRun(s, n)
          case None => None
          case Some(bs) =>
            if bs[0] != b then None
            else
              match DecodeUtf8(bs)
              case None => None
              case Some(c) =>
                match DecodeUriComponent(s[3 * n..])
                case None => None
                case Some(t) => Some([c] + t)
  }

  // ---------------------------------------------------------------- the round trip

  lemma HexRoundTrip(n: int)
    requires 0 <= n < 16
    ensures HexValue(HexDigit(n)) == Some(n)
  {
  }

  lemma ByteAtPercent(b: byte, t: string)
    ensures ByteAt(PercentByte(b) + t, 0) == Some(b)
  {
    HexRoundTrip(b / 16);
    HexRoundTrip(b % 16);
    var s := PercentByte(b) + t;
    assert s[0] == '%' && s[1] == HexDigit(b / 16) && s[2] == HexDigit(b % 16);
  }

  lemma {:induction false} PercentRunOf(bs: seq<byte>, t: string)
    ensures PercentRun(PercentBytes(bs) + t, |bs|) == Some(bs)
  {
    if bs != [] {
      var rest := PercentBytes(bs[1..]) + t;
      PercentBytesCons(bs, t);
      ByteAtPercent(bs[0], rest);
      PercentRunOf(bs[1..], t);
      PercentRunStep(PercentByte(bs[0]) + rest, |bs|, bs[0], bs[1..]);
      assert [bs[0]] + bs[1..] == bs;
    }
  }

  lemma PercentBytesCons(bs: seq<byte>, t: string)
    requires bs != []
    ensures PercentBytes(bs) + t == PercentByte(bs[0]) + (PercentBytes(bs[1..]) + t)
    ensures (PercentByte(bs[0]) + (PercentBytes(bs[1..]) + t))[3..] == PercentBytes(bs[1..]) + t
  {
  }

  lemma PercentRunStep(s: string, n: nat, b: byte, bs: seq<byte>)
    requires n > 0 && |s| >= 3 && ByteAt(s, 0) == Some(b) && PercentRun(s[3..], n - 1) == Some(bs)
    ensures PercentRun(s, n) == Some([b] + bs)
  {
  }

  /** The first octet announces the sequence's length, and the sequence decodes to the character. */
  lemma Utf8Decodes(c: char)
    ensures SequenceLength(Utf8(c)[0]) == |Utf8(c)|
    ensures DecodeUtf8(Utf8(c)) == Some(c)
  {
    var cp := c as int;
    var u := Utf8(c);
    if cp < 0x80 {
    } else if cp < 0x800 {
      assert (cp / 0x40) * 0x40 + cp % 0x40 == cp;
    } else if cp < 0x1_0000 {
      var a := cp / 0x40;
      assert a * 0x40 + cp % 0x40 == cp;
      assert (a / 0x40) * 0x40 + a % 0x40 == a;
      assert cp / 0x1000 == a / 0x40;
    } else {
      var a := cp / 0x40;
      var d := a / 0x40;
      assert a * 0x40 + cp % 0x40 == cp;
      assert d * 0x40 + a % 0x40 == a;
      assert (d / 0x40) * 0x40 + d % 0x40 == d;
      assert cp / 0x1000 == d;
      assert cp / 0x4_0000 == d / 0x40;
    }
  }

  lemma DecodeChar(c: char, t: string)
    ensures DecodeUriComponent(EncodeChar(c) + t) ==
      match DecodeUriComponent(t)
      case None => None
      case Some(r) => Some([c] + r)
  {
    var s := EncodeChar(c) + t;
    if IsUnreserved(c) {
      assert s[1..] == t;
    } else {
      var u := Utf8(c);
      Utf8Decodes(c);
      assert s == PercentByte(u[0]) + (PercentBytes(u[1..]) + t);
      ByteAtPercent(u[0], PercentBytes(u[1..]) + t);
      PercentRunOf(u, t);
      assert s[3 * |u|..] == t;
    }
  }

  /** `decodeURIComponent(encodeURIComponent(s)) === s`: the encoding loses nothing. */
  lemma {:induction false} DecodeEncode(s: string)
    ensures DecodeUriComponent(EncodeUriComponent(s)) == Some(s)
  {
    if s != [] {
      DecodeEncode(s[1..]);
      DecodeChar(s[0], EncodeUriComponent(s[1..]));
      assert [s[0]] + s[1..] == s;
    }
  }

  /** Characters that may stand inside one query-string value: no `&`, `=`, `#`, `+`, `?` or space. */
  predicate IsQuerySafe(c: char) {
    IsUnreserved(c) || IsUpperHex(c) || c == '%'
  }

  lemma {:induction false} PercentBytesSafe(bs: seq<byte>)
    ensures forall i :: 0 <= i < |PercentBytes(bs)| ==> IsQuerySafe(PercentBytes(bs)[i])
  {
    if bs != [] {
      PercentBytesSafe(bs[1..]);
      var r := PercentBytes(bs);
      assert r == PercentByte(bs[0]) + PercentBytes(bs[1..]);
    }
  }

  /** The encoded text holds only unreserved characters, `%` and hexadecimal digits. */
  lemma {:induction false} EncodedIsQuerySafe(s: string)
    ensures forall i :: 0 <= i < |EncodeUriComponent(s)| ==> IsQuerySafe(EncodeUriComponent(s)[i])
  {
    if s != [] {
      EncodedIsQuerySafe(s[1..]);
      if !IsUnreserved(s[0]) {
        PercentBytesSafe(Utf8(s[0]));
      }
      var r := EncodeUriComponent(s);
      assert r == EncodeChar(s[0]) + EncodeUriComponent(s[1..]);
    }
  }

  /** Text made of unreserved characters only comes out unchanged. */
  lemma {:induction false} EncodeUnreserved(s: string)
    requires forall i :: 0 <= i < |s| ==> IsUnreserved(s[i])
    ensures EncodeUriComponent(s) == s
  {
    if s != [] {
      EncodeUnreserved(s[1..]);
      assert [s[0]] + s[1..] == s;
    }
  }
}
