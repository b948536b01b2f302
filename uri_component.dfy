/**
 * encodeURIComponent (section 19.2.6.4 of ECMA-262): every character outside the unescaped set is
 * written as the `%XX` triples of its UTF-8 bytes, upper-case hexadecimal (section 2.1 of RFC 3986).
 * The decoder is the reference inverse (decodeURIComponent, section 19.2.6.2) used to state the round trip.
 */
module UriComponent {
  import opened Outcomes
  import opened Octets

  /** uriAlpha, DecimalDigit and uriMark: the characters encodeURIComponent copies unchanged. */
  predicate IsUnescaped(c: char) {
    || ('A' <= c <= 'Z') || ('a' <= c <= 'z') || ('0' <= c <= '9')
    || c == '-' || c == '_' || c == '.' || c == '!' || c == '~' || c == '*' || c == '\'' || c == '(' || c == ')'
  }

  /** The UTF-8 encoding of one Unicode scalar value (section 3 of RFC 3629). */
  function Utf8(c: char): (bs: seq<Byte>)
    ensures 1 <= |bs| <= 4
    ensures |bs| == 1 <==> (c as int) < 0x80
  {
    var cp := c as int;
    if cp < 0x80 then [cp]
    else if cp < 0x800 then [0xC0 + cp / 64, 0x80 + cp % 64]
    else if cp < 0x10000 then [0xE0 + cp / 4096, 0x80 + (cp / 64) % 64, 0x80 + cp % 64]
    else [0xF0 + cp / 0x40000, 0x80 + (cp / 4096) % 64, 0x80 + (cp / 64) % 64, 0x80 + cp % 64]
  }

  /** Upper-case hexadecimal digit. */
  function HexDigit(d: nat): (c: char)
    requires d < 16
    ensures IsUnescaped(c)
  {
    if d < 10 then (('0' as int) + d) as char else (('A' as int) + d - 10) as char
  }

  /** The value of a hexadecimal digit of either case. */
  function HexValue(c: char): (v: Option<nat>)
    ensures v.Some? ==> v.value < 16
  {
    if '0' <= c <= '9' then Some((c as int) - ('0' as int))
    else if 'A' <= c <= 'F' then Some((c as int) - ('A' as int) + 10)
    else if 'a' <= c <= 'f' then Some((c as int) - ('a' as int) + 10)
    else None
  }

  /** Each byte as a `%XX` triple. */
  function PercentEncode(bs: seq<Byte>): (r: string)
    ensures |r| == 3 * |bs|
    ensures forall i | 0 <= i < |r| :: IsUnescaped(r[i]) || r[i] == '%'
    ensures bs != [] ==> r[0] == '%'
  {
    if bs == [] then [] else ['%', HexDigit(bs[0] / 16), HexDigit(bs[0] % 16)] + PercentEncode(bs[1..])
  }

  function EncodeChar(c: char): string {
    if IsUnescaped(c) then [c] else PercentEncode(Utf8(c))
  }

  /**
   * encodeURIComponent. The result holds only unescaped characters and `%`, so none of the
   * URI delimiters `@ : / ? & # ,` survive into it; it is the input itself exactly when the
   * input needs no escaping.
   */
  function EncodeUriComponent(s: string): (r: string)
    ensures forall i | 0 <= i < |r| :: IsUnescaped(r[i]) || r[i] == '%'
    ensures |r| >= |s|
    ensures |r| == |s| <==> forall i | 0 <= i < |s| :: IsUnescaped(s[i])
    ensures (forall i | 0 <= i < |s| :: IsUnescaped(s[i])) ==> r == s
  {
    if s == [] then [] else EncodeChar(s[0]) + EncodeUriComponent(s[1..])
  }

  // ---------------------------------------------------------------- decoding

  /** The byte written as `%XX` at the start of `s`. */
  function PercentByteAt(s: string): (r: Option<Byte>)
    ensures r.Some? ==> 3 <= |s| && s[0] == '%'
  {
    if |s| < 3 || s[0] != '%' then None
    else match (HexValue(s[1]), HexValue(s[2]))
      case (Some(h), Some(l)) => Some(16 * h + l)
      case _ => None
  }

  /** `n` consecutive `%XX` triples at the start of `s`. */
  function PercentBytesAt(s: string, n: nat): (r: Option<seq<Byte>>)
    ensures r.Some? ==> |r.value| == n && 3 * n <= |s|
    decreases n
  {
    if n == 0 then Some([])
    else match PercentByteAt(s)
      case None => None
      case Some(b) =>
        match PercentBytesAt(s[3..], n - 1)
        case None => None
        case Some(bs) => Some([b] + bs)
  }

  /** How many bytes a UTF-8 sequence with this first byte has; 0 when it cannot start one. */
  function Utf8SequenceLength(lead: Byte): nat {
    if lead < 0x80 then 1
    else if 0xC0 <= lead < 0xE0 then 2
    else if 0xE0 <= lead < 0xF0 then 3
    else if 0xF0 <= lead < 0xF8 then 4
    else 0
  }

  predicate IsContinuation(b: Byte) {
    0x80 <= b < 0xC0
  }

  /** The scalar value a complete UTF-8 sequence stands for, when it is its shortest encoding. */
  function Utf8Decode(bs: seq<Byte>): Option<char> {
    if |bs| == 0 || Utf8SequenceLength(bs[0]) != |bs| || !(forall i | 1 <= i < |bs| :: IsContinuation(bs[i])) then None
    else
      var cp: int :=
        if |bs| == 1 then bs[0]
        else if |bs| == 2 then (bs[0] as int - 0xC0) * 64 + (bs[1] as int - 0x80)
        else if |bs| == 3 then (bs[0] as int - 0xE0) * 4096 + (bs[1] as int - 0x80) * 64 + (bs[2] as int - 0x80)
        else (bs[0] as int - 0xF0) * 0x40000 + (bs[1] as int - 0x80) * 4096 + (bs[2] as int - 0x80) * 64 + (bs[3] as int - 0x80);
      var least: int := if |bs| == 1 then 0 else if |bs| == 2 then 0x80 else if |bs| == 3 then 0x800 else 0x10000;
      if cp < least || (0xD800 <= cp < 0xE000) || 0x110000 <= cp then None
      else Some(cp as char)
  }

  /** decodeURIComponent; `None` where it throws URIError. */
  function DecodeUriComponent(s: string): Option<string>
    decreases |s|
  {
    if s == [] then Some([])
    else if s[0] != '%' then
      match DecodeUriComponent(s[1..])
      case None => None
      case Some(t) => Some([s[0]] + t)
    else
      match PercentByteAt(s)
      case None => None
      case Some(lead) =>
        var n := Utf8SequenceLength(lead);
        if n == 0 then None
        else match PercentBytesAt(s, n)
          case None => None
          case Some(bs) =>
            match Utf8Decode(bs)
            case None => None
            case Some(c) =>
              match DecodeUriComponent(s[3 * n..])
              case None => None
              case Some(t) => Some([c] + t)
  }

  // ---------------------------------------------------------------- round trip

  /** Splitting a code point into 6-bit groups and joining them again gives it back. */
  lemma SixBitGroups(cp: int)
    requires 0 <= cp
    ensures cp == (cp / 64) * 64 + cp % 64
    ensures cp / 64 == (cp / 4096) * 64 + (cp / 64) % 64
    ensures cp / 4096 == (cp / 0x40000) * 64 + (cp / 4096) % 64
  {
  }

  /** A UTF-8 sequence is complete, well-formed and decodes to the scalar value it encodes. */
  lemma Utf8RoundTrip(c: char)
    ensures Utf8SequenceLength(Utf8(c)[0]) == |Utf8(c)|
    ensures forall i | 1 <= i < |Utf8(c)| :: IsContinuation(Utf8(c)[i])
    ensures Utf8Decode(Utf8(c)) == Some(c)
  {
    var cp := c as int;
    if cp < 0x80 {
    } else if cp < 0x800 {
      Utf8TwoBytes(c);
    } else if cp < 0x10000 {
      Utf8ThreeBytes(c);
    } else {
      Utf8FourBytes(c);
    }
  }

  lemma Utf8TwoBytes(c: char)
    requires 0x80 <= c as int < 0x800
    ensures Utf8SequenceLength(Utf8(c)[0]) == |Utf8(c)| == 2 && IsContinuation(Utf8(c)[1])
    ensures Utf8Decode(Utf8(c)) == Some(c)
  {
    var cp := c as int;
    var bs := Utf8(c);
    SixBitGroups(cp);
    assert bs[0] - 0xC0 == cp / 64 && bs[1] - 0x80 == cp % 64;
  }

  lemma Utf8ThreeBytes(c: char)
    requires 0x800 <= c as int < 0x10000
    ensures Utf8SequenceLength(Utf8(c)[0]) == |Utf8(c)| == 3 && IsContinuation(Utf8(c)[1]) && IsContinuation(Utf8(c)[2])
    ensures Utf8Decode(Utf8(c)) == Some(c)
  {
    var cp := c as int;
    var bs := Utf8(c);
    SixBitGroups(cp);
    assert bs[0] - 0xE0 == cp / 4096;
    assert bs[1] - 0x80 == (cp / 64) % 64 && bs[2] - 0x80 == cp % 64;
  }

  lemma Utf8FourBytes(c: char)
    requires 0x10000 <= c as int
    ensures Utf8SequenceLength(Utf8(c)[0]) == |Utf8(c)| == 4
    ensures IsContinuation(Utf8(c)[1]) && IsContinuation(Utf8(c)[2]) && IsContinuation(Utf8(c)[3])
    ensures Utf8Decode(Utf8(c)) == Some(c)
  {
    var cp := c as int;
    var bs := Utf8(c);
    SixBitGroups(cp);
    assert bs[0] - 0xF0 == cp / 0x40000;
    assert bs[1] - 0x80 == (cp / 4096) % 64 && bs[2] - 0x80 == (cp / 64) % 64 && bs[3] - 0x80 == cp % 64;
  }

  lemma HexRoundTrip(d: nat)
    requires d < 16
    ensures HexValue(HexDigit(d)) == Some(d)
  {
  }

  lemma {:induction false} PercentRoundTrip(bs: seq<Byte>, rest: string)
    ensures PercentBytesAt(PercentEncode(bs) + rest, |bs|) == Some(bs)
  {
    if bs != [] {
      var s := PercentEncode(bs) + rest;
      var b := bs[0];
      HexRoundTrip(b / 16);
      HexRoundTrip(b % 16);
      assert PercentByteAt(s) == Some(b);
      assert s[3..] == PercentEncode(bs[1..]) + rest;
      PercentRoundTrip(bs[1..], rest);
      assert [b] + bs[1..] == bs;
    }
  }

  lemma DecodeEncodeChar(c: char, rest: string)
    ensures DecodeUriComponent(EncodeChar(c) + rest) ==
      match DecodeUriComponent(rest)
      case None => None
      case Some(t) => Some([c] + t)
  {
    var s := EncodeChar(c) + rest;
    if IsUnescaped(c) {
      assert s[0] == c && s[1..] == rest;
    } else {
      var bs := Utf8(c);
      Utf8RoundTrip(c);
      PercentRoundTrip(bs, rest);
      assert PercentByteAt(s) == Some(bs[0]);
      assert s[3 * |bs|..] == rest;
    }
  }

  /** decodeURIComponent recovers exactly what encodeURIComponent encoded. */
  lemma {:induction false} DecodeEncode(s: string)
    ensures DecodeUriComponent(EncodeUriComponent(s)) == Some(s)
  {
    if s != [] {
      DecodeEncodeChar(s[0], EncodeUriComponent(s[1..]));
      DecodeEncode(s[1..]);
      assert [s[0]] + s[1..] == s;
    }
  }
}
