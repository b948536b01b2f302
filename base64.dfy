/**
 * `atob`: the forgiving-base64 decode of the HTML standard over the alphabet of section 4 of
 * RFC 4648, and the padded RFC 4648 encoder that serves as its reference inverse.
 */
module Base64 {
  import opened Outcomes
  import opened Octets

  /** Characters of the base64 alphabet (section 4 of RFC 4648, table 1). */
  predicate IsAlphabetChar(c: char) {
    ('A' <= c <= 'Z') || ('a' <= c <= 'z') || ('0' <= c <= '9') || c == '+' || c == '/'
  }

  /** The alphabet character for a 6-bit value. */
  function SextetChar(v: nat): (c: char)
    requires v < 64
    ensures IsAlphabetChar(c)
  {
    if v < 26 then (('A' as int) + v) as char
    else if v < 52 then (('a' as int) + v - 26) as char
    else if v < 62 then (('0' as int) + v - 52) as char
    else if v == 62 then '+'
    else '/'
  }

  /** The 6-bit value of an alphabet character; the inverse of SextetChar. */
  function SextetValue(c: char): (v: nat)
    requires IsAlphabetChar(c)
    ensures v < 64 && SextetChar(v) == c
  {
    if 'A' <= c <= 'Z' then (c as int) - ('A' as int)
    else if 'a' <= c <= 'z' then (c as int) - ('a' as int) + 26
    else if '0' <= c <= '9' then (c as int) - ('0' as int) + 52
    else if c == '+' then 62
    else 63
  }

  lemma SextetRoundTrip(v: nat)
    requires v < 64
    ensures SextetValue(SextetChar(v)) == v
  {
  }

  /** ASCII whitespace of the Infra standard: TAB, LF, FF, CR and SPACE. */
  predicate IsAsciiWhiteSpace(c: char) {
    c == '\t' || c == '\n' || c == '\U{000C}' || c == '\r' || c == ' '
  }

  /** Step 1 of forgiving-base64 decode: drop ASCII whitespace, keep everything else in order. */
  function RemoveAsciiWhiteSpace(s: string): (r: string)
    ensures forall i | 0 <= i < |r| :: !IsAsciiWhiteSpace(r[i]) && r[i] in s
    ensures (forall i | 0 <= i < |s| :: !IsAsciiWhiteSpace(s[i])) ==> r == s
  {
    if s == [] then []
    else (if IsAsciiWhiteSpace(s[0]) then [] else [s[0]]) + RemoveAsciiWhiteSpace(s[1..])
  }

  /** Step 2: when the length is a multiple of four, drop one or two trailing `=`. */
  function StripPadding(s: string): string {
    if |s| % 4 != 0 then s
    else if |s| >= 2 && s[|s| - 2..] == "==" then s[..|s| - 2]
    else if |s| >= 1 && s[|s| - 1] == '=' then s[..|s| - 1]
    else s
  }

  predicate AllAlphabet(s: string) {
    forall i | 0 <= i < |s| :: IsAlphabetChar(s[i])
  }

  /** A 6-bit value: what one alphabet character stands for. */
  type Sextet = v: int | 0 <= v < 64

  /** Step 5: the values of the characters, in order. */
  function SextetValues(d: string): (vs: seq<Sextet>)
    requires AllAlphabet(d)
    ensures |vs| == |d|
  {
    seq(|d|, i requires 0 <= i < |d| => SextetValue(d[i]))
  }

  /**
   * Steps 6 and 7: every four sextets give three bytes; a tail of two or three sextets gives
   * one or two bytes, the left-over bits being discarded.
   */
  function BytesOfSextets(vs: seq<Sextet>): seq<Byte>
    requires |vs| % 4 != 1
  {
    if |vs| == 0 then []
    else
      var v0: int, v1: int := vs[0], vs[1];
      if |vs| == 2 then [v0 * 4 + v1 / 16]
      else
        var v2: int := vs[2];
        if |vs| == 3 then [v0 * 4 + v1 / 16, (v1 % 16) * 16 + v2 / 4]
        else
          var v3: int := vs[3];
          [v0 * 4 + v1 / 16, (v1 % 16) * 16 + v2 / 4, (v2 % 4) * 64 + v3] + BytesOfSextets(vs[4..])
  }

  /**
   * `atob`: the byte values of the decoded binary string, or None where atob throws
   * (a length of 1 modulo 4 after padding removal, or a character outside the alphabet).
   */
  function Atob(s: string): Option<seq<Byte>> {
    var d := StripPadding(RemoveAsciiWhiteSpace(s));
    if |d| % 4 == 1 || !AllAlphabet(d) then None else Some(BytesOfSextets(SextetValues(d)))
  }

  // ---------------------------------------------------------------- the encoder

  /** Three bytes as four sextets, six bits each, most significant first. */
  function GroupSextets(b0: Byte, b1: Byte, b2: Byte): (g: seq<Sextet>)
    ensures |g| == 4
  {
    [b0 / 4, (b0 % 4) * 16 + b1 / 16, (b1 % 16) * 4 + b2 / 64, b2 % 64]
  }

  /** Three bytes as four sextets; a tail of one or two bytes as two or three, zero-filled. */
  function SextetsOfBytes(bs: seq<Byte>): (vs: seq<Sextet>)
    ensures |vs| % 4 == (if |bs| % 3 == 0 then 0 else |bs| % 3 + 1)
  {
    if |bs| == 0 then []
    else if |bs| == 1 then [bs[0] / 4, (bs[0] % 4) * 16]
    else if |bs| == 2 then [bs[0] / 4, (bs[0] % 4) * 16 + bs[1] / 16, (bs[1] % 16) * 4]
    else GroupSextets(bs[0], bs[1], bs[2]) + SextetsOfBytes(bs[3..])
  }

  /** Base64 without the trailing padding. */
  function EncodeUnpadded(bs: seq<Byte>): (r: string)
    ensures AllAlphabet(r)
    ensures |r| % 4 != 1
  {
    var vs := SextetsOfBytes(bs);
    seq(|vs|, i requires 0 <= i < |vs| => SextetChar(vs[i]))
  }

  function Padding(n: nat): string {
    if n % 3 == 1 then "==" else if n % 3 == 2 then "=" else ""
  }

  /** Base64 encoding with padding (section 4 of RFC 4648). */
  function Encode(bs: seq<Byte>): (r: string)
    ensures |r| % 4 == 0
    ensures forall i | 0 <= i < |r| :: IsAlphabetChar(r[i]) || r[i] == '='
  {
    EncodeUnpadded(bs) + Padding(|bs|)
  }

  /** The sextets of three bytes give the three bytes back. */
  lemma DecodeGroup(b0: Byte, b1: Byte, b2: Byte)
    ensures var v0, v1, v2, v3 := b0 / 4, (b0 % 4) * 16 + b1 / 16, (b1 % 16) * 4 + b2 / 64, b2 % 64;
      && v0 * 4 + v1 / 16 == b0
      && (v1 % 16) * 16 + v2 / 4 == b1
      && (v2 % 4) * 64 + v3 == b2
  {
  }

  /** A full group of four sextets decodes on its own, ahead of the rest. */
  lemma BytesOfSextetsGroup(g: seq<Sextet>, rest: seq<Sextet>)
    requires |g| == 4 && |rest| % 4 != 1
    ensures BytesOfSextets(g + rest) == BytesOfSextets(g) + BytesOfSextets(rest)
  {
    assert (g + rest)[4..] == rest;
    assert g[4..] == [];
  }

  lemma DecodeOneByte(b0: Byte)
    ensures BytesOfSextets([b0 / 4, (b0 % 4) * 16]) == [b0]
  {
  }

  lemma DecodeTwoBytes(b0: Byte, b1: Byte)
    ensures BytesOfSextets([b0 / 4, (b0 % 4) * 16 + b1 / 16, (b1 % 16) * 4]) == [b0, b1]
  {
    DecodeGroup(b0, b1, 0);
  }

  lemma DecodeThreeBytes(b0: Byte, b1: Byte, b2: Byte)
    ensures BytesOfSextets(GroupSextets(b0, b1, b2)) == [b0, b1, b2]
  {
    DecodeGroup(b0, b1, b2);
  }

  /** One trailing byte comes back from its two sextets. */
  lemma DecodeTailOfOne(bs: seq<Byte>)
    requires |bs| == 1
    ensures BytesOfSextets(SextetsOfBytes(bs)) == bs
  {
    DecodeOneByte(bs[0]);
  }

  /** Two trailing bytes come back from their three sextets. */
  lemma DecodeTailOfTwo(bs: seq<Byte>)
    requires |bs| == 2
    ensures BytesOfSextets(SextetsOfBytes(bs)) == bs
  {
    DecodeTwoBytes(bs[0], bs[1]);
  }

  /** The first three bytes come back from the first four sextets, ahead of the rest. */
  lemma DecodeLeadingGroup(bs: seq<Byte>)
    requires |bs| >= 3
    ensures BytesOfSextets(SextetsOfBytes(bs)) == [bs[0], bs[1], bs[2]] + BytesOfSextets(SextetsOfBytes(bs[3..]))
  {
    var g, rest := GroupSextets(bs[0], bs[1], bs[2]), SextetsOfBytes(bs[3..]);
    assert SextetsOfBytes(bs) == g + rest;
    BytesOfSextetsGroup(g, rest);
    DecodeThreeBytes(bs[0], bs[1], bs[2]);
  }

  lemma {:induction false} BytesOfSextetsOfBytes(bs: seq<Byte>)
    ensures BytesOfSextets(SextetsOfBytes(bs)) == bs
  {
    if |bs| == 1 {
      DecodeTailOfOne(bs);
    } else if |bs| == 2 {
      DecodeTailOfTwo(bs);
    } else if |bs| >= 3 {
      DecodeLeadingGroup(bs);
      BytesOfSextetsOfBytes(bs[3..]);
      assert bs == [bs[0], bs[1], bs[2]] + bs[3..];
    }
  }

  lemma DecodeEncodeUnpadded(bs: seq<Byte>)
    ensures BytesOfSextets(SextetValues(EncodeUnpadded(bs))) == bs
  {
    var vs := SextetsOfBytes(bs);
    var r := EncodeUnpadded(bs);
    forall i | 0 <= i < |vs| ensures SextetValues(r)[i] == vs[i] {
      SextetRoundTrip(vs[i]);
    }
    assert SextetValues(r) == vs;
    BytesOfSextetsOfBytes(bs);
  }

  lemma StripEncodedPadding(bs: seq<Byte>)
    ensures StripPadding(Encode(bs)) == EncodeUnpadded(bs)
  {
    var u := EncodeUnpadded(bs);
    var e := Encode(bs);
    if |bs| % 3 == 1 {
      assert e[|e| - 2..] == "==" && e[..|e| - 2] == u;
    } else if |bs| % 3 == 2 {
      assert e[|e| - 2] == u[|u| - 1] && e[|e| - 1] == '=' && e[..|e| - 1] == u;
    } else {
      assert e == u;
      if |u| > 0 {
        assert IsAlphabetChar(u[|u| - 1]);
        assert e[|e| - 1] != '=';
        assert |e| >= 2 ==> e[|e| - 2..][1] == e[|e| - 1];
      }
    }
  }

  /** `atob` decodes exactly what the RFC 4648 encoder produced. */
  lemma AtobEncode(bs: seq<Byte>)
    ensures Atob(Encode(bs)) == Some(bs)
  {
    var e := Encode(bs);
    assert RemoveAsciiWhiteSpace(e) == e;
    StripEncodedPadding(bs);
    DecodeEncodeUnpadded(bs);
  }

  // ---------------------------------------------------------------- white space

  /** Removing white space from two pieces of text one after the other keeps their order. */
  lemma {:induction false} RemoveAsciiWhiteSpaceConcat(a: string, b: string)
    ensures RemoveAsciiWhiteSpace(a + b) == RemoveAsciiWhiteSpace(a) + RemoveAsciiWhiteSpace(b)
  {
    if a == [] {
      assert a + b == b;
    } else {
      assert (a + b)[0] == a[0] && (a + b)[1..] == a[1..] + b;
      RemoveAsciiWhiteSpaceConcat(a[1..], b);
    }
  }

  /**
   * `atob` ignores ASCII white space wherever it stands: inserting one white-space character
   * anywhere in the input does not change the outcome, neither the bytes nor the failure.
   */
  lemma AtobIgnoresWhiteSpace(a: string, w: char, b: string)
    requires IsAsciiWhiteSpace(w)
    ensures Atob(a + [w] + b) == Atob(a + b)
  {
    WhiteSpaceDropped(a, w, b);
    assert a + [w] + b == a + ([w] + b);
    AtobSeesNoWhiteSpace(a + [w] + b, a + b);
  }

  lemma WhiteSpaceDropped(a: string, w: char, b: string)
    requires IsAsciiWhiteSpace(w)
    ensures RemoveAsciiWhiteSpace(a + ([w] + b)) == RemoveAsciiWhiteSpace(a + b)
  {
    LeadingWhiteSpaceDropped(w, b);
    RemoveAsciiWhiteSpaceConcat(a, [w] + b);
    RemoveAsciiWhiteSpaceConcat(a, b);
  }

  lemma LeadingWhiteSpaceDropped(w: char, b: string)
    requires IsAsciiWhiteSpace(w)
    ensures RemoveAsciiWhiteSpace([w] + b) == RemoveAsciiWhiteSpace(b)
  {
    assert ([w] + b)[1..] == b;
  }

  /** `atob` looks at its input only through what is left once the white space is removed. */
  lemma AtobSeesNoWhiteSpace(s: string, t: string)
    requires RemoveAsciiWhiteSpace(s) == RemoveAsciiWhiteSpace(t)
    ensures Atob(s) == Atob(t)
  {
  }
}
