/**
 * The configuration synthesis of js/app.js: `generateReserved`, `generateWireGuardConfig`,
 * `generateV2RayURL` and the `generateConfig` pipeline that feeds them from the account record.
 * Each artifact is paired with a reader that recovers what went into it.
 */
module ConfigSynthesis {
  import opened Outcomes
  import opened Octets
  import opened JsText
  import opened UriComponent
  import Base64

  // ---------------------------------------------------------------- reserved field

  /** The separator `generateReserved` joins with: an escaped comma, written out literally. */
  const ReservedSeparator: string := "%2C"

  /** `.join('%2C')` over byte values, each written by Number::toString. */
  function JoinReserved(bs: seq<Byte>): (r: string)
    ensures forall i | 0 <= i < |r| :: IsDigit(r[i]) || r[i] == '%' || r[i] == 'C'
    ensures bs != [] ==> |r| + 3 <= 6 * |bs|
  {
    if bs == [] then []
    else if |bs| == 1 then DecimalString(bs[0])
    else DecimalString(bs[0]) + ReservedSeparator + JoinReserved(bs[1..])
  }

  /** `.slice(0, 3)`: the first three elements, or all of them when there are fewer. */
  function FirstThree(bs: seq<Byte>): (r: seq<Byte>)
    ensures |r| <= 3 && |r| <= |bs| && r == bs[..|r|]
    ensures |r| == if |bs| < 3 then |bs| else 3
  {
    if |bs| <= 3 then bs else bs[..3]
  }

  /**
   * `generateReserved(clientId)`: None where `atob` throws. Otherwise the decimal values of at most
   * the first three decoded bytes separated by `%2C`, so only digits, `%` and `C` occur, and a
   * client id that decodes to fewer than three bytes gives fewer numbers without any error.
   */
  function GenerateReserved(clientId: string): (r: Option<string>)
    ensures r.Some? <==> Base64.Atob(clientId).Some?
    ensures r.Some? ==> |r.value| <= 15
    ensures r.Some? ==> forall i | 0 <= i < |r.value| :: IsDigit(r.value[i]) || r.value[i] == '%' || r.value[i] == 'C'
  {
    match Base64.Atob(clientId)
    case None => None
    case Some(bytes) => Some(JoinReserved(FirstThree(bytes)))
  }

  /** The number of leading decimal digits of `s`. */
  function DigitRun(s: string): (n: nat)
    ensures n <= |s| && (forall i | 0 <= i < n :: IsDigit(s[i])) && (n == |s| || !IsDigit(s[n]))
  {
    if s == [] || !IsDigit(s[0]) then 0 else 1 + DigitRun(s[1..])
  }

  /** Reads one or more decimal numbers separated by `%2C`. */
  function ParseReservedFields(s: string): Option<seq<nat>>
    decreases |s|
  {
    var n := DigitRun(s);
    if n == 0 then None
    else
      var v := DecimalValue(s[..n]);
      if n == |s| then Some([v])
      else if n + 3 <= |s| && s[n..n + 3] == ReservedSeparator then
        match ParseReservedFields(s[n + 3..])
        case None => None
        case Some(vs) => Some([v] + vs)
      else None
  }

  /** Reads a reserved field back into its numbers; the empty text is the empty list. */
  function ParseReserved(s: string): Option<seq<nat>> {
    if s == [] then Some([]) else ParseReservedFields(s)
  }

  lemma {:induction false} DigitRunIs(s: string, n: nat)
    requires n <= |s| && (forall i | 0 <= i < n :: IsDigit(s[i])) && (n == |s| || !IsDigit(s[n]))
    ensures DigitRun(s) == n
  {
    if n > 0 {
      DigitRunIs(s[1..], n - 1);
    }
  }

  lemma DigitRunOfDecimal(n: Byte, rest: string)
    requires rest == [] || !IsDigit(rest[0])
    ensures DigitRun(DecimalString(n) + rest) == |DecimalString(n)|
  {
    var d := DecimalString(n);
    DigitRunIs(d + rest, |d|);
  }

  /** One number followed by the separator and more text reads as that number, then the rest. */
  lemma ParseReservedStep(b: Byte, tail: string)
    ensures ParseReservedFields(DecimalString(b) + ReservedSeparator + tail) ==
      match ParseReservedFields(tail)
      case None => None
      case Some(vs) => Some([b] + vs)
  {
    var d := DecimalString(b);
    var rest := ReservedSeparator + tail;
    var s := d + rest;
    assert s == d + ReservedSeparator + tail;
    DecimalRoundTrip(b);
    DigitRunOfDecimal(b, rest);
    assert s[..|d|] == d && s[|d|..|d| + 3] == ReservedSeparator && s[|d| + 3..] == tail;
  }

  /** A single number reads as itself. */
  lemma ParseReservedLast(b: Byte)
    ensures ParseReservedFields(DecimalString(b)) == Some([b])
  {
    var d := DecimalString(b);
    DecimalRoundTrip(b);
    DigitRunOfDecimal(b, []);
    assert d + [] == d && d[..|d|] == d;
  }

  lemma {:induction false} ParseJoinReserved(bs: seq<Byte>)
    requires bs != []
    ensures ParseReservedFields(JoinReserved(bs)) == Some(bs)
  {
    if |bs| == 1 {
      ParseReservedLast(bs[0]);
      assert bs == [bs[0]];
    } else {
      ParseReservedStep(bs[0], JoinReserved(bs[1..]));
      ParseJoinReserved(bs[1..]);
      assert bs == [bs[0]] + bs[1..];
    }
  }

  /**
   * The reserved field reads back as exactly the first (at most) three bytes `atob` decodes from the
   * client id: at most three numbers, each in 0..255.
   */
  lemma ReservedReadsBackFirstBytes(clientId: string)
    requires Base64.Atob(clientId).Some?
    ensures var bytes := Base64.Atob(clientId).value;
      ParseReserved(GenerateReserved(clientId).value) == Some(FirstThree(bytes))
  {
    var first := FirstThree(Base64.Atob(clientId).value);
    if first != [] {
      ParseJoinReserved(first);
    }
  }

  lemma JoinReservedExample()
    ensures JoinReserved([10, 20, 30]) == "10%2C20%2C30"
  {
    assert DecimalString(10) == "10" && DecimalString(20) == "20" && DecimalString(30) == "30";
    assert JoinReserved([30]) == "30";
    assert [20, 30][1..] == [30];
    assert JoinReserved([20, 30]) == "20%2C30";
    assert [10, 20, 30][1..] == [20, 30];
  }

  /** A client id that is the base64 of bytes 10, 20, 30, ... gives `10%2C20%2C30`. */
  lemma ReservedExample(bs: seq<Byte>)
    requires |bs| >= 3 && bs[0] == 10 && bs[1] == 20 && bs[2] == 30
    ensures GenerateReserved(Base64.Encode(bs)) == Some("10%2C20%2C30")
  {
    Base64.AtobEncode(bs);
    assert FirstThree(bs) == [10, 20, 30];
    JoinReservedExample();
  }

  // ---------------------------------------------------------------- WireGuard configuration

  /** The fixed peer endpoint both artifacts name. */
  const Endpoint: string := "engage.cloudflareclient.com:2408"

  /** The fixed lines of the template (the DNS line written in two pieces only to keep it readable). */
  const InterfaceHeader: string := "[Interface]"
  const DnsLine: string := "DNS = 1.1.1.1, 1.0.0.1, " + "2606:4700:4700::1111, 2606:4700:4700::1001"
  const MtuLine: string := "MTU = 1280"
  const PeerHeader: string := "[Peer]"
  const AllowedIpsLine: string := "AllowedIPs = 0.0.0.0/0, ::/0"
  const EndpointLine: string := "Endpoint = " + Endpoint

  /** The lines of the `generateWireGuardConfig` template literal, which starts and ends with a line feed. */
  function TunnelLines(privateKey: string, v4: string, v6: string, peerPublicKey: string): (ls: seq<string>)
    ensures |ls| == 12
  {
    [ "",
      InterfaceHeader,
      "PrivateKey = " + privateKey,
      "Address = " + (v4 + "/32") + ", " + (v6 + "/128"),
      DnsLine,
      MtuLine,
      "",
      PeerHeader,
      "PublicKey = " + peerPublicKey,
      AllowedIpsLine,
      EndpointLine,
      "" ]
  }

  /** `generateWireGuardConfig`: the template literal, i.e. its lines joined by line feeds. */
  function WireGuardConfig(privateKey: string, v4: string, v6: string, peerPublicKey: string): string {
    JoinLines(TunnelLines(privateKey, v4, v6, peerPublicKey))
  }

  /** `split('\n')`: the pieces between line feeds; there is always one more piece than line feeds. */
  function SplitLines(s: string): (r: seq<string>)
    ensures |r| >= 1
    ensures forall i | 0 <= i < |r| :: '\n' !in r[i]
  {
    if s == [] then [""]
    else
      var rest := SplitLines(s[1..]);
      if s[0] == '\n' then [""] + rest else [[s[0]] + rest[0]] + rest[1..]
  }

  /** `join('\n')`. */
  function JoinLines(lines: seq<string>): string
    requires |lines| >= 1
  {
    if |lines| == 1 then lines[0] else lines[0] + "\n" + JoinLines(lines[1..])
  }

  lemma {:induction false} SplitLineAndRest(line: string, rest: string)
    requires '\n' !in line
    ensures SplitLines(line + "\n" + rest) == [line] + SplitLines(rest)
    decreases |line|
  {
    var s := line + "\n" + rest;
    if line == [] {
      assert s[0] == '\n' && s[1..] == rest;
    } else {
      assert s[1..] == line[1..] + "\n" + rest;
      SplitLineAndRest(line[1..], rest);
      assert [line[0]] + line[1..] == line;
    }
  }

  lemma {:induction false} SplitSingleLine(line: string)
    requires '\n' !in line
    ensures SplitLines(line) == [line]
    decreases |line|
  {
    if line != [] {
      SplitSingleLine(line[1..]);
      assert [line[0]] + line[1..] == line;
    }
  }

  /** Splitting joined lines at line feeds gives the lines back, when none of them holds a line feed. */
  lemma {:induction false} SplitJoinLines(lines: seq<string>)
    requires |lines| >= 1
    requires forall i | 0 <= i < |lines| :: '\n' !in lines[i]
    ensures SplitLines(JoinLines(lines)) == lines
  {
    if |lines| == 1 {
      SplitSingleLine(lines[0]);
    } else {
      SplitJoinLines(lines[1..]);
      SplitLineAndRest(lines[0], JoinLines(lines[1..]));
      assert lines == [lines[0]] + lines[1..];
    }
  }

  /** The template's fixed lines hold no line feed. */
  lemma FixedLinesHaveNoLineFeed()
    ensures '\n' !in InterfaceHeader && '\n' !in MtuLine && '\n' !in PeerHeader
    ensures '\n' !in AllowedIpsLine && '\n' !in EndpointLine
  {
    ShortLinesHaveNoLineFeed();
    AllowedIpsLineHasNoLineFeed();
  }

  lemma ShortLinesHaveNoLineFeed()
    ensures '\n' !in InterfaceHeader && '\n' !in MtuLine && '\n' !in PeerHeader
  {
  }

  lemma AllowedIpsLineHasNoLineFeed()
    ensures '\n' !in AllowedIpsLine
  {
  }

  lemma DnsLineHasNoLineFeed()
    ensures '\n' !in DnsLine
  {
    DnsServersHaveNoLineFeed();
    DnsV6ServersHaveNoLineFeed();
  }

  lemma DnsServersHaveNoLineFeed()
    ensures '\n' !in "DNS = 1.1.1.1, 1.0.0.1, "
  {
  }

  lemma DnsV6ServersHaveNoLineFeed()
    ensures '\n' !in "2606:4700:4700::1111, 2606:4700:4700::1001"
  {
  }

  /**
   * The WireGuard configuration has exactly the template's layout: an empty first line, the
   * `[Interface]` block with the private key, the /32 and /128 addresses, the fixed DNS list and
   * MTU 1280, an empty line, the `[Peer]` block with the peer key, the catch-all allowed IPs and the
   * fixed endpoint, and a final line feed. This holds whenever no interpolated value contains a line feed.
   */
  lemma WireGuardConfigLayout(privateKey: string, v4: string, v6: string, peerPublicKey: string)
    requires '\n' !in privateKey && '\n' !in v4 && '\n' !in v6 && '\n' !in peerPublicKey
    ensures SplitLines(WireGuardConfig(privateKey, v4, v6, peerPublicKey)) == TunnelLines(privateKey, v4, v6, peerPublicKey)
  {
    var ls := TunnelLines(privateKey, v4, v6, peerPublicKey);
    FixedLinesHaveNoLineFeed();
    DnsLineHasNoLineFeed();
    assert '\n' !in ls[2] && '\n' !in ls[3] && '\n' !in ls[8];
    SplitJoinLines(ls);
  }

  /** The lines a reader of the configuration finds the key, the addresses and the peer key on. */
  lemma WireGuardConfigFields(privateKey: string, v4: string, v6: string, peerPublicKey: string)
    requires '\n' !in privateKey && '\n' !in v4 && '\n' !in v6 && '\n' !in peerPublicKey
    ensures var lines := SplitLines(WireGuardConfig(privateKey, v4, v6, peerPublicKey));
      && |lines| == 12
      && lines[2] == "PrivateKey = " + privateKey
      && lines[3] == "Address = " + (v4 + "/32") + ", " + (v6 + "/128")
      && lines[8] == "PublicKey = " + peerPublicKey
  {
    WireGuardConfigLayout(privateKey, v4, v6, peerPublicKey);
  }

  lemma {:induction false} JoinLinesLast(lines: seq<string>)
    requires |lines| >= 2
    ensures JoinLines(lines) == JoinLines(lines[..|lines| - 1]) + "\n" + lines[|lines| - 1]
  {
    if |lines| > 2 {
      JoinLinesLast(lines[1..]);
      assert lines[1..][..|lines| - 2] == lines[..|lines| - 1][1..];
    }
  }

  /** The configuration text starts with a line feed and ends with the endpoint line and a line feed. */
  lemma WireGuardConfigEnds(privateKey: string, v4: string, v6: string, peerPublicKey: string)
    ensures var r := WireGuardConfig(privateKey, v4, v6, peerPublicKey);
      var last := EndpointLine + "\n";
      && |r| > |last| && r[0] == '\n' && r[|r| - |last|..] == last
  {
    var ls := TunnelLines(privateKey, v4, v6, peerPublicKey);
    var r := WireGuardConfig(privateKey, v4, v6, peerPublicKey);
    JoinLinesLast(ls);
    JoinLinesLast(ls[..11]);
    assert ls[..11][..10] == ls[..10];
    var head := JoinLines(ls[..10]);
    var last := EndpointLine + "\n";
    assert r == head + "\n" + ls[10] + "\n" + "";
    assert r == (head + "\n") + last;
    assert r == "" + "\n" + JoinLines(ls[1..]);
  }

  // ---------------------------------------------------------------- V2Ray URI

  /**
   * `generateV2RayURL`: the template literal with its five interpolations, its pieces grouped from
   * the right (concatenation is associative, so the text is the same).
   */
  function V2RayUrl(privateKey: string, publicKey: string, ipv4: string, ipv6: string, reserved: string): (r: string)
    ensures "wireguard://" <= r
  {
    "wireguard://" + (EncodeUriComponent(privateKey)
    + ("@" + ("engage.cloudflareclient.com:2408?address="
    + ((EncodeUriComponent(ipv4 + "/32") + ("," + EncodeUriComponent(ipv6 + "/128")))
    + ("&" + ("reserved=" + (reserved
    + ("&" + ("publickey=" + (EncodeUriComponent(publicKey)
    + ("&" + "mtu=1420#V2ray-Config")))))))))))
  }

  /** What a client reads out of a `wireguard://` URI. */
  datatype ProxyParams = ProxyParams(privateKey: string, address4: string, address6: string, reserved: string, publicKey: string)

  /** `s` without the prefix `p`. */
  function StripPrefix(s: string, p: string): (r: Option<string>)
    ensures r.Some? <==> p <= s
    ensures r.Some? ==> s == p + r.value
  {
    if p <= s then Some(s[|p|..]) else None
  }

  /** The text before and after the first occurrence of a delimiter. */
  datatype Split = Split(before: string, after: string)

  function SplitAtFirst(s: string, d: char): (r: Option<Split>)
    ensures r.Some? <==> d in s
    ensures r.Some? ==> s == r.value.before + ([d] + r.value.after) && d !in r.value.before
  {
    if s == [] then None
    else if s[0] == d then Some(Split([], s[1..]))
    else match SplitAtFirst(s[1..], d)
      case None => None
      case Some(t) => Some(Split([s[0]] + t.before, t.after))
  }

  /**
   * Reads a URI of the shape `generateV2RayURL` writes: the user information up to the first `@`,
   * the fixed endpoint, then the `address`, `reserved` and `publickey` parameters, each ending at the
   * next `&`, the two addresses split at the first `,`, and the fixed tail. Percent-encoded parts are
   * decoded; `reserved` is taken as it stands.
   */
  function ParseV2RayUrl(url: string): Option<ProxyParams> {
    var afterScheme :- StripPrefix(url, "wireguard://");
    var user :- SplitAtFirst(afterScheme, '@');
    var afterHost :- StripPrefix(user.after, "engage.cloudflareclient.com:2408?address=");
    var address :- SplitAtFirst(afterHost, '&');
    var addresses :- SplitAtFirst(address.before, ',');
    var afterAddress :- StripPrefix(address.after, "reserved=");
    var reserved :- SplitAtFirst(afterAddress, '&');
    var afterReserved :- StripPrefix(reserved.after, "publickey=");
    var publicKey :- SplitAtFirst(afterReserved, '&');
    if publicKey.after != "mtu=1420#V2ray-Config" then None
    else
      var privateKey :- DecodeUriComponent(user.before);
      var address4 :- DecodeUriComponent(addresses.before);
      var address6 :- DecodeUriComponent(addresses.after);
      var peerKey :- DecodeUriComponent(publicKey.before);
      Some(ProxyParams(privateKey, address4, address6, reserved.before, peerKey))
  }

  lemma StripPrefixConcat(p: string, x: string)
    ensures StripPrefix(p + x, p) == Some(x)
  {
    assert (p + x)[|p|..] == x;
  }

  /** A text splits in at most one way around a first delimiter. */
  lemma FirstDelimiterUnique(x: string, y: string, x2: string, y2: string, d: char)
    requires d !in x && d !in x2
    requires x + ([d] + y) == x2 + ([d] + y2)
    ensures x == x2 && y == y2
  {
    var s := x + ([d] + y);
    assert s[|x|] == d && s[|x2|] == d;
    assert forall i | 0 <= i < |x| :: s[i] == x[i];
    assert forall i | 0 <= i < |x2| :: s[i] == x2[i];
    assert |x| == |x2|;
    assert x == s[..|x|] == x2;
    assert y == s[|x| + 1..] == y2;
  }

  lemma SplitAtFirstConcat(a: string, d: char, b: string)
    requires d !in a
    ensures SplitAtFirst(a + ([d] + b), d) == Some(Split(a, b))
  {
    var s := a + ([d] + b);
    assert s[|a|] == d;
    var t := SplitAtFirst(s, d).value;
    FirstDelimiterUnique(a, b, t.before, t.after, d);
  }

  /** An encoded component holds no `@`, `&` or `,`, so the reader's delimiters cannot occur in it. */
  lemma EncodedHasNoDelimiters(s: string)
    ensures var e := EncodeUriComponent(s); '@' !in e && '&' !in e && ',' !in e
  {
    var e := EncodeUriComponent(s);
    forall i | 0 <= i < |e| ensures e[i] != '@' && e[i] != '&' && e[i] != ',' {
      assert IsUnescaped(e[i]) || e[i] == '%';
    }
  }

  /**
   * Reading the URI back gives the private key, `<ipv4>/32`, `<ipv6>/128`, the reserved text exactly
   * as it was inserted, and the peer's public key: percent-encoding loses nothing and keeps every
   * component inside its own field, provided `reserved` holds no `&` (which `generateReserved` never writes).
   */
  lemma V2RayUrlRoundTrip(privateKey: string, publicKey: string, ipv4: string, ipv6: string, reserved: string)
    requires '&' !in reserved
    ensures ParseV2RayUrl(V2RayUrl(privateKey, publicKey, ipv4, ipv6, reserved))
      == Some(ProxyParams(privateKey, ipv4 + "/32", ipv6 + "/128", reserved, publicKey))
  {
    var e1, e2, e3, e4 := EncodeUriComponent(privateKey), EncodeUriComponent(ipv4 + "/32"),
      EncodeUriComponent(ipv6 + "/128"), EncodeUriComponent(publicKey);
    EncodedHasNoDelimiters(privateKey);
    EncodedHasNoDelimiters(ipv4 + "/32");
    EncodedHasNoDelimiters(ipv6 + "/128");
    EncodedHasNoDelimiters(publicKey);
    var tail4 := "mtu=1420#V2ray-Config";
    var tail3 := "publickey=" + (e4 + ("&" + tail4));
    var tail2 := "reserved=" + (reserved + ("&" + tail3));
    var tail1 := "engage.cloudflareclient.com:2408?address=" + ((e2 + ("," + e3)) + ("&" + tail2));
    var afterScheme := e1 + ("@" + tail1);
    StripPrefixConcat("wireguard://", afterScheme);
    SplitAtFirstConcat(e1, '@', tail1);
    var afterHost := (e2 + ("," + e3)) + ("&" + tail2);
    StripPrefixConcat("engage.cloudflareclient.com:2408?address=", afterHost);
    assert '&' !in e2 + ("," + e3);
    SplitAtFirstConcat(e2 + ("," + e3), '&', tail2);
    SplitAtFirstConcat(e2, ',', e3);
    StripPrefixConcat("reserved=", reserved + ("&" + tail3));
    SplitAtFirstConcat(reserved, '&', tail3);
    StripPrefixConcat("publickey=", e4 + ("&" + tail4));
    SplitAtFirstConcat(e4, '&', tail4);
    DecodeEncode(privateKey);
    DecodeEncode(ipv4 + "/32");
    DecodeEncode(ipv6 + "/128");
    DecodeEncode(publicKey);
  }

  // ---------------------------------------------------------------- generateConfig

  /** The fields of the registration reply that `generateConfig` reads. */
  datatype AccountRecord = AccountRecord(clientId: string, address4: string, address6: string, peerPublicKeys: seq<string>)

  /** Why `generateConfig` throws before either artifact is shown. */
  datatype ConfigError =
    | InvalidClientId  // `atob` rejects `config.client_id`
    | NoPeer           // `config.peers[0]` is undefined, so reading `public_key` throws

  /** The two texts `generateConfig` puts on the page. */
  datatype Artifacts = Artifacts(wireGuard: string, v2ray: string)

  /** A key as a template literal or `encodeURIComponent` renders it: a missing key reads `null`. */
  function KeyText(key: Option<string>): (r: string)
    ensures key.Some? ==> r == key.value
    ensures key.None? ==> r == "null" && '\n' !in r
  {
    match key
    case None => "null"
    case Some(k) => k
  }

  /**
   * `generateConfig(data, privateKey)`: the reserved field is derived first, so a client id `atob`
   * rejects is reported even when there is no peer; then both artifacts are built from the first
   * peer only.
   */
  function GenerateConfig(record: AccountRecord, privateKey: Option<string>): (r: Result<Artifacts, ConfigError>)
    ensures r == Err(InvalidClientId) <==> Base64.Atob(record.clientId).None?
    ensures r == Err(NoPeer) <==> Base64.Atob(record.clientId).Some? && record.peerPublicKeys == []
    ensures r.Ok? ==>
              r.value.wireGuard == WireGuardConfig(KeyText(privateKey), record.address4, record.address6, record.peerPublicKeys[0])
  {
    match GenerateReserved(record.clientId)
    case None => Err(InvalidClientId)
    case Some(reserved) =>
      if record.peerPublicKeys == [] then Err(NoPeer)
      else
        var key := KeyText(privateKey);
        var peer := record.peerPublicKeys[0];
        Ok(Artifacts(WireGuardConfig(key, record.address4, record.address6, peer),
                     V2RayUrl(key, peer, record.address4, record.address6, reserved)))
  }

  /** Nothing `generateConfig` shows depends on any peer after the first. */
  lemma OnlyFirstPeerMatters(record: AccountRecord, privateKey: Option<string>, others: seq<string>)
    requires record.peerPublicKeys != []
    ensures GenerateConfig(record.(peerPublicKeys := record.peerPublicKeys[..1] + others), privateKey)
      == GenerateConfig(record, privateKey)
  {
    assert (record.peerPublicKeys[..1] + others)[0] == record.peerPublicKeys[0];
  }

  /**
   * The URI `generateConfig` shows reads back as the key it was given (`null` when there was
   * none), the account's addresses with their prefix lengths, the reserved field derived from the
   * client id, and the first peer's key.
   */
  lemma GeneratedUriReadsBack(record: AccountRecord, privateKey: Option<string>, a: Artifacts)
    requires GenerateConfig(record, privateKey) == Ok(a)
    ensures ParseV2RayUrl(a.v2ray) == Some(ProxyParams(KeyText(privateKey), record.address4 + "/32",
      record.address6 + "/128", GenerateReserved(record.clientId).value, record.peerPublicKeys[0]))
  {
    var reserved := GenerateReserved(record.clientId).value;
    assert '&' !in reserved by {
      forall i | 0 <= i < |reserved| ensures reserved[i] != '&' {
        assert IsDigit(reserved[i]) || reserved[i] == '%' || reserved[i] == 'C';
      }
    }
    V2RayUrlRoundTrip(KeyText(privateKey), record.peerPublicKeys[0], record.address4, record.address6, reserved);
  }

  /**
   * Both artifacts describe the same tunnel: reading the V2Ray URI back gives the private key and
   * the peer key written on the WireGuard `PrivateKey` and `PublicKey` lines, the two addresses of
   * the `Address` line, and a reserved field holding the first client-id bytes (when the inserted
   * texts hold no line feed, so that the configuration keeps its layout).
   */
  lemma ArtifactsAgree(record: AccountRecord, privateKey: Option<string>, a: Artifacts)
    requires GenerateConfig(record, privateKey) == Ok(a)
    requires privateKey.Some? ==> '\n' !in privateKey.value
    requires '\n' !in record.address4 && '\n' !in record.address6 && '\n' !in record.peerPublicKeys[0]
    ensures ParseV2RayUrl(a.v2ray).Some?
    ensures var lines, p := SplitLines(a.wireGuard), ParseV2RayUrl(a.v2ray).value;
      && |lines| == 12
      && lines[2] == "PrivateKey = " + p.privateKey
      && lines[3] == "Address = " + p.address4 + ", " + p.address6
      && lines[8] == "PublicKey = " + p.publicKey
      && ParseReserved(p.reserved) == Some(FirstThree(Base64.Atob(record.clientId).value))
  {
    WireGuardConfigFields(KeyText(privateKey), record.address4, record.address6, record.peerPublicKeys[0]);
    GeneratedUriReadsBack(record, privateKey, a);
    ReservedReadsBackFirstBytes(record.clientId);
  }
}
