# WireGuard / V2Ray configuration generator — a verified model

The system has two parts. A browser client (`js/app.js`) provisions a WARP account. It reads a
key pair from the text the key endpoint serves, and it generates an install id and an FCM token
from random alphanumeric characters. It then registers with the account endpoint and turns the
account record into two artifacts: a WireGuard configuration and a `wireguard://` V2Ray URI. A
relay worker (`js/worker.js`) stands between the page and the upstream services. It answers CORS
preflights itself and maps `/keys` and `/wg` to their upstream URLs. It forwards other requests
on those paths, and it rewrites the upstream response so that a page on another origin may read
it.

The Dafny modules follow that structure:

- `Outcomes` (`outcomes.dfy`): the `Option` and `Result` types.
- `Octets` (`octets.dfy`): byte values.
- `JsText` (`js_text.dfy`): the ECMAScript pieces the client relies on. These are the WhiteSpace
  and LineTerminator sets, `String.prototype.trim`, and `Number::toString` for integers from 0
  below 10^21, where it writes plain digits; the client formats only bytes and HTTP statuses.
- `UriComponent` (`uri_component.dfy`): `encodeURIComponent` (UTF-8, upper-case hex), and a
  decoder that serves as its inverse.
- `Base64` (`base64.dfy`): `atob` as the forgiving-base64 decode of the HTML standard, and the
  RFC 4648 section 4 encoder as its reference inverse.
- `KeyExtraction` (`key_extraction.dfy`): `extractKey`. The regular expression `<name>:\s(.+)`
  is modelled as a leftmost-match search, with a greedy capture up to the next line terminator.
- `Identity` (`identity.dfy`): `generateRandomString` and the install id / FCM token pair. Each
  `Math.floor(Math.random() * 62)` becomes a draw the caller supplies.
- `ConfigSynthesis` (`config_synthesis.dfy`): `generateReserved`, `generateWireGuardConfig`,
  `generateV2RayURL` and `generateConfig`. Each artifact has a reader that recovers what went
  into it.
- `Registration` (`registration.dfy`): `fetchKeys`, the request `fetchAccount` sends, its status
  check, and the click handler as one function from the network's answers to what the page
  shows.
- `Http` (`http.dfy`): the part of the Fetch standard the worker uses. Header lists are keyed by
  lower-cased name. A `Headers` class has `set`, and the `Response` constructor adds a default
  content type.
- `Relay` (`relay.dfy`): `routeApi`, `handlePreflight`, `handleApiResponse`, the 404 and 500
  responses, and `handleRequest`. `handleApiResponse` and `handleRequest` are methods proved
  against the functions `CorsRewrite` and `Handle`.

## Model

| member | source | states |
|---|---|---|
| JsText.Trim | js/app.js:37 | the result has no white space at either end; it is empty exactly when the input is all white space |
| JsText.TrimIsSlice | js/app.js:37 | what `trim` keeps is one contiguous slice of the input, with only white space before and after it |
| JsText.DecimalRoundTrip | js/app.js:96-98 | the decimal text `Number::toString` writes for a byte value or a status reads back as that number |
| JsText.DecimalString | js/app.js:98 | below 10^21 the text is one or more digits without a leading zero, one digit exactly below 10, at most two below 100 and at most three below 1000 (its value is in DecimalRoundTrip) |
| KeyExtraction.ExtractKey | js/app.js:36-37 | a result is the trimmed capture of the leftmost match of `<name>:\s(.+)`; it is non-empty, trimmed and has no line terminator; null exactly when nothing matches or the leftmost capture is all white space |
| KeyExtraction.LeftmostMatchIsUnique | js/app.js:37 | the leftmost match the expression reports is unique |
| KeyExtraction.ExtractWrittenKey | js/app.js:36-37 | a key written as `<name>: <value>` and ended by a line terminator reads back as `<value>` when nothing earlier can match |
| Registration.ReadWrittenKeys | js/app.js:26-33 | a listing with a `PublicKey:` line and then a `PrivateKey:` line gives both keys back to `fetchKeys` |
| Registration.ReadKeys | js/app.js:26-33 | each key `fetchKeys` returns is null or a non-empty text with no white space at either end; ReadWrittenKeys gives the listing it reads back |
| Registration.ClientPathsAreRelayRoutes | js/app.js:27 | both client URLs start with the relay's origin, and the path after it is the route the relay forwards to the key upstream and to the registration upstream |
| UriComponent.EncodeUriComponent | js/app.js:101-106 | the encoding holds only unreserved characters and `%`; it equals its input exactly when every input character is unreserved |
| UriComponent.Utf8RoundTrip | js/app.js:101-106 | the UTF-8 bytes of every scalar value form one complete, well-formed sequence that decodes to that value |
| UriComponent.DecodeEncode | js/app.js:101-106 | percent-decoding the encoding of any string gives the string back |
| Base64.AtobEncode | js/app.js:95 | `atob` of the RFC 4648 encoding of any byte sequence gives those bytes back |
| Base64.Atob | js/app.js:95 | `atob` as forgiving-base64 decode; AtobEncode gives its inverse and AtobIgnoresWhiteSpace its treatment of white space |
| Base64.RemoveAsciiWhiteSpaceConcat | js/app.js:95 | removing white space from two texts one after the other keeps their order |
| Base64.AtobIgnoresWhiteSpace | js/app.js:95 | inserting an ASCII white-space character anywhere in the input changes neither the decoded bytes nor a failure |
| ConfigSynthesis.JoinReserved | js/app.js:96-98 | the joined text holds only digits, `%` and `C`, and is at most six characters per byte |
| ConfigSynthesis.FirstThree | js/app.js:97 | `slice(0, 3)` keeps a prefix of length min(3, n) |
| ConfigSynthesis.GenerateReserved | js/app.js:94-98 | `generateReserved` fails exactly when `atob` throws; otherwise it gives at most 15 characters of digits, `%` and `C` |
| ConfigSynthesis.ParseJoinReserved | js/app.js:96-98 | numbers joined with `%2C` split back into the same numbers |
| ConfigSynthesis.ReservedReadsBackFirstBytes | js/app.js:94-98 | the reserved field reads back as exactly the first (at most three) bytes `atob` decodes from the client id |
| ConfigSynthesis.ReservedExample | js/app.js:94-98 | a client id that encodes bytes 10, 20, 30, … gives `10%2C20%2C30` |
| ConfigSynthesis.SplitJoinLines | js/app.js:80-91 | splitting lines joined by line feeds gives the lines back when none holds a line feed |
| ConfigSynthesis.WireGuardConfig | js/app.js:80-91 | the template literal as its lines joined by line feeds; WireGuardConfigLayout, WireGuardConfigFields and WireGuardConfigEnds state its shape |
| ConfigSynthesis.WireGuardConfigLayout | js/app.js:80-91 | the configuration splits into exactly the template's twelve lines when no inserted value holds a line feed |
| ConfigSynthesis.WireGuardConfigFields | js/app.js:82-88 | the private key, the /32 and /128 addresses and the peer key sit on lines 2, 3 and 8 of the configuration |
| ConfigSynthesis.WireGuardConfigEnds | js/app.js:80-91 | the configuration starts with a line feed and ends with the endpoint line and a line feed, whatever is inserted |
| ConfigSynthesis.KeyText | js/app.js:82 | a missing key is rendered as `null`, a present one as itself |
| ConfigSynthesis.EncodedHasNoDelimiters | js/app.js:101-106 | no encoded component holds `@`, `&` or `,`, so no component can spill into the next field of the URI |
| ConfigSynthesis.V2RayUrl | js/app.js:101-106 | the URI starts with `wireguard://`; V2RayUrlRoundTrip gives back every value it was built from |
| ConfigSynthesis.V2RayUrlRoundTrip | js/app.js:101-106 | reading the URI back gives the private key, `<ipv4>/32`, `<ipv6>/128`, the reserved text and the peer key it was built from |
| ConfigSynthesis.GenerateConfig | js/app.js:64-77 | `generateConfig` fails on the client id exactly when `atob` rejects it; it fails on the peer exactly when the id decodes and there is no peer; otherwise the configuration is built from the key and the first peer |
| ConfigSynthesis.OnlyFirstPeerMatters | js/app.js:69 | peers after the first do not change either artifact |
| ConfigSynthesis.GeneratedUriReadsBack | js/app.js:64-73 | the URI shown reads back as the key (`null` when missing), both addresses, the reserved field of the client id and the first peer's key |
| ConfigSynthesis.ArtifactsAgree | js/app.js:64-73 | the two artifacts describe the same tunnel: the WireGuard key, address and peer lines carry what the URI reads back as, and its reserved field holds the first client-id bytes |
| Identity.AlphabetIsAlphanumeric | js/app.js:165 | the 62-character alphabet holds each ASCII letter and digit exactly once, at the index that draws it |
| Identity.GenerateRandomString | js/app.js:163-168 | the string has the requested length, only letters and digits, and its characters give the draws back |
| Identity.FcmToken | js/app.js:15 | the token is the install id, then `:APA91b`, then 134 letters and digits |
| Identity.GenerateIdentity | js/app.js:14-15 | the install id has 22 letters and digits and is the token's prefix, followed by `:APA91b` |
| Identity.TokenSplitsAtFirstColon | js/app.js:14-15 | the token's first colon comes right after the install id, and the 134 drawn characters follow `APA91b` |
| Registration.AccountRequest | js/app.js:40-58 | the registration is a POST to `/wg` with the three fixed headers; its body carries the key, the install id (also as serial number), the token, the timestamp, model `PC` and locale `de_DE` |
| Registration.RegistrationIdentityConsistent | js/app.js:49-57 | in every registration the client generates, the serial number is the install id, and the token starts with it followed by `:APA91b` |
| Registration.RejectionMessage | js/app.js:59 | the error for a status outside 200-299 is the fixed prefix followed by decimal digits |
| Registration.RejectionMessageNamesStatus | js/app.js:59 | the digits in the error message are the status |
| Registration.IsOkStatus | js/app.js:59 | `response.ok` is a status from 200 to 299; Provision states what each side of it leads to |
| Registration.Provision | js/app.js:8-23 | a click fails with KeysUnreachable exactly when the key fetch fails, and with AccountUnreachable exactly when the registration is unreachable; a non-2xx status fails with the rejection message; on a 2xx status a body that is not JSON fails, a falsy body shows nothing without an error, a truthy body that is not an account fails, and an account on which `generateConfig` throws fails with that error; the artifacts are shown exactly when the reply is 2xx with an account and `generateConfig` succeeds |
| Registration.ProvisionShows | js/app.js:16-17 | an accepted registration with a usable account shows what `generateConfig` builds |
| Registration.ProvisionEndToEnd | js/app.js:8-23 | with both keys listed and the account accepted, the request carries the public key, and the URI shown reads back as the private key, the account's addresses, the reserved field and the first peer's key |
| Http.LowerAsciiIsLower | js/worker.js:62-65 | lower-casing gives a lower-case name and leaves a lower-case name alone |
| Http.HeadersOf | js/worker.js:41-48 | every name of the record, lower-cased, is in the header list |
| Http.HeadersOfAppendNew | js/worker.js:41-48 | appending a pair whose name is new adds exactly that name with its value |
| Http.Headers.constructor | js/worker.js:62 | the new `Headers` object holds a copy of the upstream list |
| Http.Headers.Set | js/worker.js:63-65 | `set` makes the lower-cased name map to exactly the value and changes no other name |
| Http.NewResponse | js/worker.js:67-71 | the response keeps status, status text and body; a string body gains `content-type: text/plain;charset=UTF-8` unless a content type is given; no other header changes |
| Relay.RouteApi | js/worker.js:52-58 | a route exists exactly for `/keys` and `/wg`, which map to the key upstream and the registration upstream |
| Relay.CorsHeadersAre | js/worker.js:43-47 | the CORS grant is exactly origin `*`, methods `GET, POST, OPTIONS` and headers `*`, with no content type |
| Relay.Preflight | js/worker.js:40-49 | the preflight answer is 204 with no body and exactly the three CORS headers |
| Relay.NotFound | js/worker.js:15-17 | the 404 has the body `Not Found` and only the default text content type |
| Relay.FetchError | js/worker.js:28-35 | the 500 names the error's message after `Error fetching data: `, and has exactly the `text/plain` type and `Access-Control-Allow-Origin: *` |
| Relay.FetchErrorGrantsOriginOnly | js/worker.js:31-34 | of the CORS headers, the 500 carries only the origin grant |
| Relay.ForwardedRequest | js/worker.js:21-25 | the upstream call keeps the method and headers, and drops the body for GET and HEAD only |
| Relay.CorsRewrite | js/worker.js:61-71 | the rewrite keeps status, status text and body and grants all three CORS headers; CorsRewriteKeepsUpstream adds that every other upstream header is kept |
| Relay.CorsRewriteKeepsUpstream | js/worker.js:61-71 | the rewritten response keeps status, status text and body, grants the three CORS headers, and keeps every other upstream header with its value |
| Relay.CorsRewriteIdempotent | js/worker.js:61-71 | rewriting a rewritten response changes nothing |
| Relay.SettingCorsIsUnion | js/worker.js:62-65 | the three `set` calls write the CORS grant over the copied header list |
| Relay.HandleApiResponse | js/worker.js:61-71 | the method's response is the CORS rewrite of the upstream response |
| Relay.Handle | js/worker.js:5-37 | upstream is called exactly for a request that is not a preflight and whose path is routed; the lemmas below state each outcome |
| Relay.HandleRequest | js/worker.js:5-37 | the method's result (response and upstream call) is the relay's decision `Handle` for the request |
| Relay.PreflightAnsweredLocally | js/worker.js:9-11 | an OPTIONS request to any path gets the 204 grant and makes no upstream call |
| Relay.UpstreamCalledOnlyForRoutes | js/worker.js:14-25 | upstream is called exactly for non-preflight requests to `/keys` and `/wg`, at the mapped URL; every other path gets the 404 |
| Relay.ForwardedResponseGrantsCors | js/worker.js:21-27 | whatever upstream answers, the forwarded response grants all three CORS headers |
| Relay.FailedFetchGrantsOriginOnly | js/worker.js:28-35 | a rejected upstream fetch gives a 500 with the origin grant but no methods or headers grant |
| Relay.UnroutedResponseHasNoCors | js/worker.js:15-17 | the 404 carries no CORS header |

## Left out

- The network: every `fetch` is a parameter. In the client these are the key text (None when the fetch or `response.text()` rejects) and a function answering the registration. In the worker it is a function from the forwarded request to a response or a rejection message. Timing, retries and concurrency are not modelled.
- `Math.random`: the client's draws are inputs, so the model says nothing about their distribution.
- `new Date().toISOString()`: the timestamp is a parameter.
- JSON: `JSON.stringify` of the registration body is modelled as a record of its fields. `response.json()` is modelled as its possible outcomes: not JSON, a falsy value, a truthy value without an object `generateConfig` reads through (`config`, `interface`, `addresses`, `peers`), or an account record. A text field the account omits is rendered by JavaScript as `undefined`; the model takes that field as the text `undefined`, and non-text field values are not modelled.
- The DOM (`updateDOM`, spinner, copy buttons, download) and console logging: these are display only. `updateDOM` trims the texts it shows; the model stops at the texts `generateConfig` hands to it.
- URL parsing of the incoming request: the worker model takes the pathname as given.
- Header lists are maps. Header order, the validation and normalisation of header values, and non-ASCII header names are not modelled.
- Response bodies are opaque (`Stream`). Reading or locking a stream, and the `RangeError` the `Response` constructor throws for a status outside 200-599, are not modelled.
- `extractKey` is modelled for key names made only of ASCII letters and digits, which are the only names the client passes. The general regular-expression engine is not modelled.
- Strings are sequences of Unicode scalar values. Unpaired surrogates, for which `encodeURIComponent` throws `URIError`, cannot occur in the model. A character outside the Basic Multilingual Plane is one element, not two UTF-16 code units.
- Account records hold the peer keys as strings. A peer object without `public_key`, which JavaScript would render as `undefined`, is not modelled.
- Http.HeadersOf: states only that every name in the record is present. That a repeated name's values are combined with `, ` is in its body, not its contract.
- The code's behaviour in these places is easy to miss, and the model follows it:
  - `generateReserved` does not fail when the client id decodes to fewer than three bytes. It joins what there is, and the empty byte sequence gives the empty text.
  - The key fetch's status is never checked, and a key that is not found is null rather than an error. The null public key is sent as JSON null, and the null private key is rendered as `null` in both artifacts.
  - The registration reply's fields are not validated. A falsy reply shows nothing without an error. A missing peer throws while the artifacts are built, and a client id that `atob` rejects throws before that.
  - The relay's 404 carries no CORS header. Its 500 carries `Access-Control-Allow-Origin` but not the methods or headers grant.
