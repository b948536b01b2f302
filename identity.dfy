/**
 * `generateRandomString` and the install identifiers built from it (js/app.js).
 * `Math.floor(Math.random() * 62)` is an index in 0..61; the model takes the indices drawn as input.
 */
module Identity {

  const UpperCase: string := "ABCDEFGHIJKLMNOPQRSTUVWXYZ"
  const LowerCase: string := "abcdefghijklmnopqrstuvwxyz"
  const Digits: string := "0123456789"

  /** The 62-character alphabet literal the client draws from (upper case, lower case, digits). */
  const Alphanumeric: string := UpperCase + LowerCase + Digits

  /** One draw `Math.floor(Math.random() * 62)`. */
  type Draw = d: int | 0 <= d < 62

  predicate IsAlphanumeric(c: char) {
    ('A' <= c <= 'Z') || ('a' <= c <= 'z') || ('0' <= c <= '9')
  }

  /** Where a character sits in the alphabet: the draw that produces it. */
  function DrawOf(c: char): (d: Draw)
    requires IsAlphanumeric(c)
  {
    if 'A' <= c <= 'Z' then (c as int) - ('A' as int)
    else if 'a' <= c <= 'z' then (c as int) - ('a' as int) + 26
    else (c as int) - ('0' as int) + 52
  }

  lemma UpperCaseCodes()
    ensures |UpperCase| == 26 && forall i | 0 <= i < 26 :: UpperCase[i] as int == 'A' as int + i
  {
  }

  lemma LowerCaseCodes()
    ensures |LowerCase| == 26 && forall i | 0 <= i < 26 :: LowerCase[i] as int == 'a' as int + i
  {
  }

  lemma DigitCodes()
    ensures |Digits| == 10 && forall i | 0 <= i < 10 :: Digits[i] as int == '0' as int + i
  {
  }

  /** The character at each position of the alphabet, by its code. */
  lemma AlphabetCodes()
    ensures |Alphanumeric| == 62
    ensures forall d: Draw ::
      Alphanumeric[d] as int == if d < 26 then 'A' as int + d else if d < 52 then 'a' as int + d - 26 else '0' as int + d - 52
  {
    UpperCaseCodes();
    LowerCaseCodes();
    DigitCodes();
    forall d: Draw ensures Alphanumeric[d] as int == if d < 26 then 'A' as int + d else if d < 52 then 'a' as int + d - 26 else '0' as int + d - 52 {
      if d < 26 {
        assert Alphanumeric[d] == UpperCase[d];
      } else if d < 52 {
        assert Alphanumeric[d] == LowerCase[d - 26];
      } else {
        assert Alphanumeric[d] == Digits[d - 52];
      }
    }
  }

  /** The alphabet holds exactly the 62 ASCII letters and digits, each once, at the position DrawOf gives. */
  lemma AlphabetIsAlphanumeric()
    ensures |Alphanumeric| == 62
    ensures forall d: Draw :: IsAlphanumeric(Alphanumeric[d]) && DrawOf(Alphanumeric[d]) == d
    ensures forall c | IsAlphanumeric(c) :: Alphanumeric[DrawOf(c)] == c
  {
    AlphabetCodes();
  }

  /**
   * `generateRandomString(length)` given the `length` draws it makes, in order. The result has
   * exactly `length` characters, all letters or digits, and its characters give the draws back,
   * so distinct draws give distinct strings.
   */
  function GenerateRandomString(length: nat, draws: seq<Draw>): (s: string)
    requires |draws| == length
    ensures |s| == length
    ensures forall i | 0 <= i < |s| :: IsAlphanumeric(s[i]) && DrawOf(s[i]) == draws[i]
  {
    AlphabetIsAlphanumeric();
    seq(length, i requires 0 <= i < length => Alphanumeric[draws[i]])
  }

  /** The fixed text between the install id and the random tail of an FCM token. */
  const TokenInfix: string := ":APA91b"

  /** `${installId}:APA91b${generateRandomString(134)}` (js/app.js:15). */
  function FcmToken(installId: string, draws: seq<Draw>): (t: string)
    requires |draws| == 134
    ensures |t| == |installId| + 141
    ensures t[..|installId|] == installId && t[|installId|..|installId| + 7] == TokenInfix
    ensures forall i | |installId| + 7 <= i < |t| :: IsAlphanumeric(t[i])
  {
    installId + TokenInfix + GenerateRandomString(134, draws)
  }

  /** The identifiers one provisioning attempt generates. */
  datatype Identity = Identity(installId: string, fcmToken: string)

  /** How many draws one attempt consumes: 22 for the install id, then 134 for the token. */
  const IdentityDraws: nat := 22 + 134

  /** js/app.js:14-15: the install id takes the first 22 draws, the token's tail the next 134. */
  function GenerateIdentity(draws: seq<Draw>): (id: Identity)
    requires |draws| == IdentityDraws
    ensures |id.installId| == 22 && |id.fcmToken| == 163
    ensures forall i | 0 <= i < 22 :: IsAlphanumeric(id.installId[i])
    ensures id.fcmToken[..22] == id.installId && id.fcmToken[22..29] == TokenInfix
  {
    var installId := GenerateRandomString(22, draws[..22]);
    Identity(installId, FcmToken(installId, draws[22..]))
  }

  /** Splitting a token at its first `:` gives back the install id, and the rest is `APA91b` and the 134 drawn characters. */
  lemma TokenSplitsAtFirstColon(draws: seq<Draw>)
    requires |draws| == IdentityDraws
    ensures var id := GenerateIdentity(draws);
      && (forall i | 0 <= i < 22 :: id.fcmToken[i] != ':')
      && id.fcmToken[22] == ':'
      && id.fcmToken[23..29] == "APA91b"
      && id.fcmToken[29..] == GenerateRandomString(134, draws[22..])
  {
    var id := GenerateIdentity(draws);
    assert id.fcmToken == id.installId + TokenInfix + GenerateRandomString(134, draws[22..]);
    assert id.fcmToken[22..29] == TokenInfix;
    assert id.fcmToken[23..29] == TokenInfix[1..];
  }
}
