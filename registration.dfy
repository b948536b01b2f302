/**
 * The client's provisioning flow (js/app.js): read the two keys from the key endpoint's text,
 * generate an identity, post the registration, check the reply's status and build both
 * artifacts. Every network exchange is a parameter: the text the key endpoint returned and a
 * function standing for the registration endpoint.
 */
module Registration {
  import opened Outcomes
  import opened JsText
  import opened KeyExtraction
  import opened Identity
  import opened ConfigSynthesis
  import Relay

  /** The relay both of the client's requests go to. */
  const RelayOrigin: string := "https://www.iranguard.workers.dev"

  // ---------------------------------------------------------------- fetchKeys

  /** The relay path the client reads its key pair from. */
  const KeysUrl: string := RelayOrigin + "/keys"

  /** What `fetchKeys` returns: each key, or null where `extractKey` found none. */
  datatype KeyPair = KeyPair(publicKey: Option<string>, privateKey: Option<string>)

  /** `fetchKeys` once the response text is in hand; the response status is not consulted. */
  function ReadKeys(text: string): (keys: KeyPair)
    ensures keys.publicKey.Some? ==> IsTrimmed(keys.publicKey.value)
    ensures keys.privateKey.Some? ==> IsTrimmed(keys.privateKey.value)
  {
    KeyPair(ExtractKey(text, "PublicKey"), ExtractKey(text, "PrivateKey"))
  }

  /** A line `<name>: <value>` as a key listing writes it. */
  function KeyLine(name: string, value: string): string {
    name + ": " + value + "\n"
  }

  /** The key conditions under which `extractKey` returns a written value unchanged. */
  predicate IsCleanKey(value: string) {
    && IsTrimmed(value)
    && forall i | 0 <= i < |value| :: !IsLineTerminator(value[i]) && value[i] != ':'
  }

  lemma ReadWrittenPublicKey(pub: string, priv: string)
    requires IsCleanKey(pub)
    ensures ExtractKey(KeyLine("PublicKey", pub) + KeyLine("PrivateKey", priv), "PublicKey") == Some(pub)
  {
    var tail := "\n" + KeyLine("PrivateKey", priv);
    assert KeyLine("PublicKey", pub) + KeyLine("PrivateKey", priv) == [] + "PublicKey" + ": " + pub + tail;
    ExtractWrittenKey([], "PublicKey", pub, tail);
  }

  lemma ReadWrittenPrivateKey(pub: string, priv: string)
    requires IsCleanKey(pub) && IsCleanKey(priv)
    ensures ExtractKey(KeyLine("PublicKey", pub) + KeyLine("PrivateKey", priv), "PrivateKey") == Some(priv)
  {
    var prefix := KeyLine("PublicKey", pub);
    assert forall i | 0 <= i < |pub| :: prefix[11 + i] == pub[i];
    assert forall q | 0 <= q < |prefix| && prefix[q] == ':' :: q < |"PrivateKey"|;
    assert prefix + KeyLine("PrivateKey", priv) == prefix + "PrivateKey" + ": " + priv + "\n";
    ExtractWrittenKey(prefix, "PrivateKey", priv, "\n");
  }

  /**
   * A listing with the line `PublicKey: <pub>` and then the line `PrivateKey: <priv>` reads back as
   * the two keys, provided each is non-empty, has no surrounding white space, no line terminator
   * and no colon.
   */
  lemma ReadWrittenKeys(pub: string, priv: string)
    requires IsCleanKey(pub) && IsCleanKey(priv)
    ensures ReadKeys(KeyLine("PublicKey", pub) + KeyLine("PrivateKey", priv)) == KeyPair(Some(pub), Some(priv))
  {
    ReadWrittenPublicKey(pub, priv);
    ReadWrittenPrivateKey(pub, priv);
  }

  // ---------------------------------------------------------------- fetchAccount

  /** The relay path the registration is posted to. */
  const AccountUrl: string := RelayOrigin + "/wg"

  /**
   * Both client URLs are on the relay, and the path after the relay's origin is, for each, the
   * route the relay forwards to the matching upstream.
   */
  lemma ClientPathsAreRelayRoutes()
    ensures RelayOrigin <= KeysUrl && RelayOrigin <= AccountUrl
    ensures var keysPath := KeysUrl[|RelayOrigin|..];
      |keysPath| >= 1 && keysPath[0] == '/' && Relay.RouteApi(keysPath) == Some(Relay.KeysUpstream)
    ensures var accountPath := AccountUrl[|RelayOrigin|..];
      |accountPath| >= 1 && accountPath[0] == '/' && Relay.RouteApi(accountPath) == Some(Relay.RegistrationUpstream)
  {
    assert KeysUrl[|RelayOrigin|..] == "/keys";
    assert AccountUrl[|RelayOrigin|..] == "/wg";
  }

  /** The headers `fetchAccount` sends, in the order it lists them. */
  const RegistrationHeaders: seq<(string, string)> :=
    [("User-Agent", "okhttp/3.12.1"), ("CF-Client-Version", "a-6.10-2158"), ("Content-Type", "application/json")]

  /**
   * The object `fetchAccount` serialises as its JSON body, field by field; a missing public key is
   * sent as JSON null.
   */
  datatype RegistrationBody = RegistrationBody(
    key: Option<string>, installId: string, fcmToken: string, tos: string,
    model: string, serialNumber: string, locale: string)

  /** The request `fetchAccount` hands to `fetch`. */
  datatype RegistrationRequest =
    RegistrationRequest(verb: string, url: string, headers: seq<(string, string)>, body: RegistrationBody)

  /**
   * The registration for a public key, an identity and the moment `new Date().toISOString()`
   * rendered (taken as a parameter): a POST to the account path with the three fixed headers,
   * the install id sent again as the serial number, model `PC` and locale `de_DE`.
   */
  function AccountRequest(publicKey: Option<string>, id: Identity, tos: string): (r: RegistrationRequest)
    ensures r.verb == "POST" && r.url == AccountUrl && r.headers == RegistrationHeaders
    ensures r.body.key == publicKey && r.body.tos == tos
    ensures r.body.installId == id.installId && r.body.serialNumber == id.installId && r.body.fcmToken == id.fcmToken
    ensures r.body.model == "PC" && r.body.locale == "de_DE"
  {
    RegistrationRequest("POST", AccountUrl, RegistrationHeaders,
      RegistrationBody(publicKey, id.installId, id.fcmToken, tos, "PC", id.installId, "de_DE"))
  }

  /**
   * In every registration the client generates, the serial number is the install id, and the FCM
   * token starts with that id followed by `:APA91b`; all three hold only ASCII letters and digits
   * apart from the token's colon.
   */
  lemma RegistrationIdentityConsistent(publicKey: Option<string>, draws: seq<Draw>, tos: string)
    requires |draws| == IdentityDraws
    ensures var b := AccountRequest(publicKey, GenerateIdentity(draws), tos).body;
      && b.serialNumber == b.installId && |b.installId| == 22
      && b.fcmToken[..22] == b.serialNumber && b.fcmToken[22..29] == ":APA91b"
      && (forall i | 0 <= i < 22 :: IsAlphanumeric(b.serialNumber[i]))
      && (forall i | 29 <= i < |b.fcmToken| :: IsAlphanumeric(b.fcmToken[i]))
  {
    var id := GenerateIdentity(draws);
    assert id.fcmToken == FcmToken(id.installId, draws[22..]);
  }

  /** A response status, which the Fetch standard keeps in the range 0 to 999. */
  type Status = s: nat | s <= 999

  /** `response.ok`: a status in the range 200 to 299. */
  predicate IsOkStatus(status: Status) {
    200 <= status <= 299
  }

  /** The text before the status in the error `fetchAccount` throws. */
  const RejectionPrefix: string := "Failed to fetch account: "

  /** The message of the error `fetchAccount` throws for a status outside 200 to 299. */
  function RejectionMessage(status: Status): (m: string)
    ensures |m| > |RejectionPrefix| && m[..|RejectionPrefix|] == RejectionPrefix
    ensures forall i | |RejectionPrefix| <= i < |m| :: IsDigit(m[i])
  {
    RejectionPrefix + DecimalString(status)
  }

  /** The status can be read back from the message: it is the decimal number after the prefix. */
  lemma RejectionMessageNamesStatus(status: Status)
    ensures DecimalValue(RejectionMessage(status)[|RejectionPrefix|..]) == status
  {
    assert RejectionMessage(status)[|RejectionPrefix|..] == DecimalString(status);
    DecimalRoundTrip(status);
  }

  // ---------------------------------------------------------------- the click handler

  /**
   * `response.json()` on a successful reply: not JSON at all, a falsy value, a truthy value that
   * lacks a field `generateConfig` reads (`{}`, `[]`, `1`, `"x"`, an object without `config` or
   * without its `interface`, `addresses` or `peers`), or the account.
   */
  datatype AccountJson = NotJson | Falsy | Malformed | Account(record: AccountRecord)

  /** What the registration endpoint did: the request failed, or it answered with a status and a body. */
  datatype AccountReply = Unreachable | Reply(status: Status, body: AccountJson)

  /** Why a click ends with nothing on the page (each is logged and swallowed by the handler). */
  datatype Failure =
    | KeysUnreachable                // the key fetch rejected
    | AccountUnreachable             // the registration fetch rejected
    | AccountRejected(message: string)
    | AccountNotJson                 // `response.json()` rejected
    | AccountMalformed               // `generateConfig` read a field of a missing object and threw
    | ConfigFailed(error: ConfigError)

  /** The registration one click sends, given the key text and the draws. */
  function ClickRequest(keysText: string, draws: seq<Draw>, tos: string): RegistrationRequest
    requires |draws| == IdentityDraws
  {
    AccountRequest(ReadKeys(keysText).publicKey, GenerateIdentity(draws), tos)
  }

  /**
   * One click (js/app.js:8-23): the artifacts shown, `Ok(None)` when the account data is falsy and
   * nothing is shown, or the failure that stopped the flow. `keysText` is None when the key fetch
   * rejected; `register` answers the registration request.
   */
  function Provision(keysText: Option<string>, draws: seq<Draw>, tos: string,
                     register: RegistrationRequest -> AccountReply): (r: Result<Option<Artifacts>, Failure>)
    requires |draws| == IdentityDraws
    ensures keysText.None? <==> r == Err(KeysUnreachable)
    ensures keysText.Some? ==>
              var reply := register(ClickRequest(keysText.value, draws, tos));
              && (reply.Unreachable? <==> r == Err(AccountUnreachable))
              && (reply.Reply? && !IsOkStatus(reply.status) ==> r == Err(AccountRejected(RejectionMessage(reply.status))))
              && (reply.Reply? && IsOkStatus(reply.status) ==>
                    && (reply.body.NotJson? ==> r == Err(AccountNotJson))
                    && (reply.body.Falsy? ==> r == Ok(None))
                    && (reply.body.Malformed? ==> r == Err(AccountMalformed))
                    && (reply.body.Account? && GenerateConfig(reply.body.record, ReadKeys(keysText.value).privateKey).Err? ==>
                          r == Err(ConfigFailed(GenerateConfig(reply.body.record, ReadKeys(keysText.value).privateKey).error))))
              && (r.Ok? && r.value.Some? <==>
                    && reply.Reply? && IsOkStatus(reply.status) && reply.body.Account?
                    && GenerateConfig(reply.body.record, ReadKeys(keysText.value).privateKey).Ok?)
              && (r.Ok? && r.value.Some? ==>
                    GenerateConfig(reply.body.record, ReadKeys(keysText.value).privateKey) == Ok(r.value.value))
  {
    match keysText
    case None => Err(KeysUnreachable)
    case Some(text) =>
      var keys := ReadKeys(text);
      match register(ClickRequest(text, draws, tos))
      case Unreachable => Err(AccountUnreachable)
      case Reply(status, body) =>
        if !IsOkStatus(status) then Err(AccountRejected(RejectionMessage(status)))
        else match body
          case NotJson => Err(AccountNotJson)
          case Falsy => Ok(None)
          case Malformed => Err(AccountMalformed)
          case Account(record) =>
            match GenerateConfig(record, keys.privateKey)
            case Err(e) => Err(ConfigFailed(e))
            case Ok(artifacts) => Ok(Some(artifacts))
  }

  /** A click whose registration is accepted with a usable account shows what `generateConfig` builds. */
  lemma ProvisionShows(text: string, draws: seq<Draw>, tos: string,
                       register: RegistrationRequest -> AccountReply, status: Status, record: AccountRecord)
    requires |draws| == IdentityDraws && IsOkStatus(status)
    requires register(ClickRequest(text, draws, tos)) == Reply(status, Account(record))
    requires GenerateConfig(record, ReadKeys(text).privateKey).Ok?
    ensures Provision(Some(text), draws, tos, register) == Ok(Some(GenerateConfig(record, ReadKeys(text).privateKey).value))
  {
  }

  /**
   * End to end: with a key text listing both keys and a registration endpoint that accepts and
   * returns a usable account, the request carries the public key and the identity, and the V2Ray
   * URI shown reads back as the private key, the account's addresses and its first peer's key.
   */
  lemma ProvisionEndToEnd(pub: string, priv: string, draws: seq<Draw>, tos: string,
                          register: RegistrationRequest -> AccountReply, status: Status, record: AccountRecord)
    requires |draws| == IdentityDraws
    requires IsCleanKey(pub) && IsCleanKey(priv)
    requires IsOkStatus(status)
    requires register(ClickRequest(KeyLine("PublicKey", pub) + KeyLine("PrivateKey", priv), draws, tos))
             == Reply(status, Account(record))
    requires GenerateConfig(record, Some(priv)).Ok?
    ensures var text := KeyLine("PublicKey", pub) + KeyLine("PrivateKey", priv);
      ClickRequest(text, draws, tos).body.key == Some(pub)
    ensures var text := KeyLine("PublicKey", pub) + KeyLine("PrivateKey", priv);
      var r := Provision(Some(text), draws, tos, register);
      && r.Ok? && r.value.Some?
      && ParseV2RayUrl(r.value.value.v2ray)
         == Some(ProxyParams(priv, record.address4 + "/32", record.address6 + "/128",
                             GenerateReserved(record.clientId).value, record.peerPublicKeys[0]))
  {
    var text := KeyLine("PublicKey", pub) + KeyLine("PrivateKey", priv);
    ReadWrittenKeys(pub, priv);
    var a := GenerateConfig(record, Some(priv)).value;
    ProvisionShows(text, draws, tos, register, status, record);
    GeneratedUriReadsBack(record, Some(priv), a);
  }
}
