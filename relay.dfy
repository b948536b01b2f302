/**
 * The relay worker (js/worker.js): answers CORS preflights itself, maps two paths to their
 * upstream URLs, forwards everything else that matches, and rewrites the upstream response's
 * headers so that a browser page on another origin may read it. The upstream `fetch` is a
 * parameter: a function from the forwarded request to what the network produced.
 */
module Relay {
  import opened Outcomes
  import opened Http

  /** The pathname of a parsed request URL, which always begins with `/`. */
  type Pathname = p: string | |p| >= 1 && p[0] == '/' witness "/"

  /** An incoming request: its method, the pathname of its URL, its headers and its body. */
  datatype Request = Request(verb: string, pathname: Pathname, headers: HeaderMap, body: Body)

  /** The request the relay hands to `fetch`. */
  datatype UpstreamRequest = UpstreamRequest(url: string, verb: string, headers: HeaderMap, body: Body)

  /** What `fetch` produced: a response, or a rejection with its error message. */
  datatype FetchOutcome = Received(response: Response) | Rejected(message: string)

  // ---------------------------------------------------------------- routeApi

  const KeysUpstream: string := "https://xxxxxxxxxx"
  const RegistrationUpstream: string := "https://api.cloudflareclient.com/v0a2158/reg"

  /**
   * `routeApi(pathname)`: the upstream for `/keys` and for `/wg`, and null for every other path.
   * A pathname starts with `/`, so no property inherited by the route object can be hit.
   */
  function RouteApi(pathname: Pathname): (r: Option<string>)
    ensures r.Some? <==> pathname == "/keys" || pathname == "/wg"
    ensures pathname == "/keys" ==> r == Some(KeysUpstream)
    ensures pathname == "/wg" ==> r == Some(RegistrationUpstream)
  {
    if pathname == "/keys" then Some(KeysUpstream)
    else if pathname == "/wg" then Some(RegistrationUpstream)
    else None
  }

  // ---------------------------------------------------------------- the relay's own responses

  const AllowOrigin: string := "access-control-allow-origin"
  const AllowMethods: string := "access-control-allow-methods"
  const AllowHeaders: string := "access-control-allow-headers"

  /** The names the worker writes, in its own capitalisation, lower-case to the CORS names. */
  lemma CorsNamesLowerCase()
    ensures LowerAscii("Access-Control-Allow-Origin") == AllowOrigin
    ensures LowerAscii("Access-Control-Allow-Methods") == AllowMethods
    ensures LowerAscii("Access-Control-Allow-Headers") == AllowHeaders
    ensures LowerAscii("Content-Type") == ContentType
  {
    AllowOriginLowerCase();
    AllowMethodsLowerCase();
    AllowHeadersLowerCase();
    LowerPrefix("Content-Type", ContentType);
  }

  lemma AllowOriginLowerCase()
    ensures LowerAscii("Access-Control-Allow-Origin") == AllowOrigin
  {
    AllowPrefixLowerCase();
    LowerPrefix("Origin", "origin");
    LowerAsciiConcat("Access-Control-Allow-", "Origin");
    assert "Access-Control-Allow-Origin" == "Access-Control-Allow-" + "Origin";
    assert AllowOrigin == "access-control-allow-" + "origin";
  }

  lemma AllowMethodsLowerCase()
    ensures LowerAscii("Access-Control-Allow-Methods") == AllowMethods
  {
    AllowPrefixLowerCase();
    LowerPrefix("Methods", "methods");
    LowerAsciiConcat("Access-Control-Allow-", "Methods");
    assert "Access-Control-Allow-Methods" == "Access-Control-Allow-" + "Methods";
    assert AllowMethods == "access-control-allow-" + "methods";
  }

  lemma AllowHeadersLowerCase()
    ensures LowerAscii("Access-Control-Allow-Headers") == AllowHeaders
  {
    AllowPrefixLowerCase();
    LowerPrefix("Headers", "headers");
    LowerAsciiConcat("Access-Control-Allow-", "Headers");
    assert "Access-Control-Allow-Headers" == "Access-Control-Allow-" + "Headers";
    assert AllowHeaders == "access-control-allow-" + "headers";
  }

  lemma AllowPrefixLowerCase()
    ensures LowerAscii("Access-Control-Allow-") == "access-control-allow-"
  {
    LowerPrefix("Access-Control-Allow-", "access-control-allow-");
  }

  lemma LowerPrefix(s: string, t: string)
    requires |s| == |t| && forall i | 0 <= i < |s| :: LowerChar(s[i]) == t[i]
    ensures LowerAscii(s) == t
  {
  }

  lemma LowerAsciiConcat(a: string, b: string)
    ensures LowerAscii(a + b) == LowerAscii(a) + LowerAscii(b)
  {
  }

  /** The header record `handlePreflight` passes; `handleApiResponse` sets the same three names to the same values. */
  const PreflightRecord: seq<(string, string)> :=
    [("Access-Control-Allow-Origin", "*"), ("Access-Control-Allow-Methods", "GET, POST, OPTIONS"), ("Access-Control-Allow-Headers", "*")]

  /** The three CORS headers the relay grants, as a header list. */
  const CorsHeaders: HeaderMap := HeadersOf(PreflightRecord)

  /** The four header names the relay writes are distinct. */
  lemma RelayNamesDistinct()
    ensures AllowOrigin != AllowMethods && AllowOrigin != AllowHeaders && AllowMethods != AllowHeaders
    ensures ContentType != AllowOrigin && ContentType != AllowMethods && ContentType != AllowHeaders
  {
    assert |AllowOrigin| == 27 && |AllowMethods| == 28 && |AllowHeaders| == 28 && |ContentType| == 12;
    assert AllowMethods[21] != AllowHeaders[21];
  }

  /** The grant is `*` for origins and headers and `GET, POST, OPTIONS` for methods, and nothing else. */
  lemma CorsHeadersAre()
    ensures CorsHeaders == map[AllowOrigin := "*", AllowMethods := "GET, POST, OPTIONS", AllowHeaders := "*"]
    ensures CorsHeaders.Keys == {AllowOrigin, AllowMethods, AllowHeaders} && ContentType !in CorsHeaders
    ensures CorsHeaders[AllowOrigin] == "*" && CorsHeaders[AllowMethods] == "GET, POST, OPTIONS" && CorsHeaders[AllowHeaders] == "*"
  {
    CorsNamesLowerCase();
    RelayNamesDistinct();
    var p0, p1, p2 := PreflightRecord[0], PreflightRecord[1], PreflightRecord[2];
    assert HeadersOf([]) == map[];
    HeadersOfAppendNew([], p0.0, p0.1);
    assert [] + [p0] == [p0];
    HeadersOfAppendNew([p0], p1.0, p1.1);
    assert [p0] + [p1] == [p0, p1];
    HeadersOfAppendNew([p0, p1], p2.0, p2.1);
    assert [p0, p1] + [p2] == PreflightRecord;
  }

  /** `handlePreflight()`: 204, no body, and exactly the three CORS headers. */
  function Preflight(): (r: Response)
    ensures r.status == 204 && r.body == Null && r.headers == CorsHeaders
  {
    NewResponse(Null, 204, "", CorsHeaders)
  }

  /** The 404 for a path with no route: the text `Not Found` and the string body's default type, no CORS header. */
  function NotFound(): (r: Response)
    ensures r.status == 404 && r.body == Text("Not Found")
    ensures r.headers == map[ContentType := TextPlainUtf8]
  {
    NewResponse(Text("Not Found"), 404, "", map[])
  }

  /** The header record of the 500 response. */
  const ErrorRecord: seq<(string, string)> := [("Content-Type", "text/plain"), ("Access-Control-Allow-Origin", "*")]

  lemma ErrorRecordHeaders()
    ensures HeadersOf(ErrorRecord) == map[ContentType := "text/plain", AllowOrigin := "*"]
  {
    CorsNamesLowerCase();
    var p0, p1 := ErrorRecord[0], ErrorRecord[1];
    assert HeadersOf([]) == map[];
    HeadersOfAppendNew([], p0.0, p0.1);
    assert [] + [p0] == [p0];
    HeadersOfAppendNew([p0], p1.0, p1.1);
    assert [p0] + [p1] == ErrorRecord;
  }

  /** The text before the error's message in the body of the 500 response. */
  const ErrorPrefix: string := "Error fetching data: "

  /**
   * The 500 for a rejected upstream fetch: the body names the error's message, the type is
   * `text/plain` as given, and of the CORS headers only `Access-Control-Allow-Origin` is present.
   */
  function FetchError(message: string): (r: Response)
    ensures r.status == 500 && r.body == Text(ErrorPrefix + message)
    ensures r.headers == map[ContentType := "text/plain", AllowOrigin := "*"]
  {
    ErrorRecordHeaders();
    NewResponse(Text(ErrorPrefix + message), 500, "", HeadersOf(ErrorRecord))
  }

  /** Of the CORS headers, the 500 carries only `Access-Control-Allow-Origin: *`. */
  lemma FetchErrorGrantsOriginOnly(message: string)
    ensures var h := FetchError(message).headers;
      AllowOrigin in h && h[AllowOrigin] == "*" && AllowMethods !in h && AllowHeaders !in h
  {
    RelayNamesDistinct();
  }

  // ---------------------------------------------------------------- forwarding

  /** The methods whose requests carry no body upstream. */
  predicate IsBodyless(verb: string) {
    verb == "GET" || verb == "HEAD"
  }

  /** The `fetch` call for a routed request: same method and headers, the body dropped for GET and HEAD. */
  function ForwardedRequest(request: Request, url: string): (u: UpstreamRequest)
    ensures u.url == url && u.verb == request.verb && u.headers == request.headers
    ensures u.body == if IsBodyless(request.verb) then Null else request.body
  {
    UpstreamRequest(url, request.verb, request.headers, if !IsBodyless(request.verb) then request.body else Null)
  }

  // ---------------------------------------------------------------- handleApiResponse

  /**
   * The response `handleApiResponse` makes of an upstream response: the same status, status text
   * and body, and the upstream headers with the three CORS headers written over them.
   */
  function CorsRewrite(upstream: Response): (r: Response)
    ensures r.status == upstream.status && r.statusText == upstream.statusText && r.body == upstream.body
    ensures forall n | n in CorsHeaders :: n in r.headers && r.headers[n] == CorsHeaders[n]
  {
    CorsHeadersAre();
    NewResponse(upstream.body, upstream.status, upstream.statusText, upstream.headers + CorsHeaders)
  }

  /**
   * The rewrite keeps the status, the status text and the body; it grants the three CORS headers
   * whatever the upstream said; and it keeps every other upstream header with its value. A
   * response `fetch` delivers never has a string body, so nothing else is added.
   */
  lemma CorsRewriteKeepsUpstream(upstream: Response)
    requires !upstream.body.Text?
    ensures var r := CorsRewrite(upstream);
      && r.status == upstream.status && r.statusText == upstream.statusText && r.body == upstream.body
      && (forall n | n in CorsHeaders :: n in r.headers && r.headers[n] == CorsHeaders[n])
      && (forall n | n !in CorsHeaders :: (n in r.headers <==> n in upstream.headers))
      && (forall n | n !in CorsHeaders && n in upstream.headers :: r.headers[n] == upstream.headers[n])
  {
  }

  /** Rewriting twice is rewriting once: a response the relay already rewrote passes unchanged. */
  lemma CorsRewriteIdempotent(upstream: Response)
    ensures CorsRewrite(CorsRewrite(upstream)) == CorsRewrite(upstream)
  {
    var r := CorsRewrite(upstream);
    var h := upstream.headers + CorsHeaders;
    if upstream.body.Text? && ContentType !in h {
      assert r.headers == h[ContentType := TextPlainUtf8];
      assert r.headers + CorsHeaders == r.headers;
    } else {
      assert r.headers == h;
      assert h + CorsHeaders == h;
    }
  }

  /** Setting the three names one after another writes the CORS grant over a header list. */
  lemma SettingCorsIsUnion(m: HeaderMap)
    ensures m[AllowOrigin := "*"][AllowMethods := "GET, POST, OPTIONS"][AllowHeaders := "*"] == m + CorsHeaders
  {
    CorsHeadersAre();
  }

  /**
   * `handleApiResponse(response)`: copy the upstream header list into a fresh `Headers` object,
   * set the three CORS headers on it, and build a new response around the upstream body.
   */
  method HandleApiResponse(upstream: Response) returns (r: Response)
    ensures r == CorsRewrite(upstream)
  {
    CorsNamesLowerCase();
    var headers := new Headers(upstream.headers);
    headers.Set("Access-Control-Allow-Origin", "*");
    headers.Set("Access-Control-Allow-Methods", "GET, POST, OPTIONS");
    headers.Set("Access-Control-Allow-Headers", "*");
    SettingCorsIsUnion(upstream.headers);
    r := NewResponse(upstream.body, upstream.status, upstream.statusText, headers.entries);
  }

  // ---------------------------------------------------------------- handleRequest

  /** What one request leads to: the response, and the upstream call made for it, if any. */
  datatype Handled = Handled(response: Response, upstreamCall: Option<UpstreamRequest>)

  /**
   * The specification of `HandleRequest`: the relay's whole decision for one request, as a value.
   * Upstream is called exactly when the request is not a preflight and its path is routed.
   */
  function Handle(request: Request, fetch: UpstreamRequest -> FetchOutcome): (h: Handled)
    ensures h.upstreamCall.Some? <==> request.verb != "OPTIONS" && RouteApi(request.pathname).Some?
  {
    if request.verb == "OPTIONS" then Handled(Preflight(), None)
    else match RouteApi(request.pathname)
      case None => Handled(NotFound(), None)
      case Some(url) =>
        var call := ForwardedRequest(request, url);
        match fetch(call)
        case Received(upstream) => Handled(CorsRewrite(upstream), Some(call))
        case Rejected(message) => Handled(FetchError(message), Some(call))
  }

  /**
   * `handleRequest(request)`: a preflight is answered at once, an unrouted path gets the 404, and
   * anything else is forwarded, its response rewritten or its failure turned into the 500.
   */
  method HandleRequest(request: Request, fetch: UpstreamRequest -> FetchOutcome) returns (h: Handled)
    ensures h == Handle(request, fetch)
  {
    if request.verb == "OPTIONS" {
      return Handled(Preflight(), None);
    }
    var url := RouteApi(request.pathname);
    if url.None? {
      return Handled(NotFound(), None);
    }
    var call := ForwardedRequest(request, url.value);
    var outcome := fetch(call);
    match outcome {
      case Received(upstream) =>
        var response := HandleApiResponse(upstream);
        h := Handled(response, Some(call));
      case Rejected(message) =>
        h := Handled(FetchError(message), Some(call));
    }
  }

  /** A preflight, to any path, is answered by the relay itself with the CORS grant and no upstream call. */
  lemma PreflightAnsweredLocally(request: Request, fetch: UpstreamRequest -> FetchOutcome)
    requires request.verb == "OPTIONS"
    ensures var h := Handle(request, fetch);
      h.upstreamCall.None? && h.response.status == 204 && h.response.body == Null && h.response.headers == CorsHeaders
  {
  }

  /** Upstream is called exactly for non-preflight requests to `/keys` and `/wg`, and the call goes to the mapped URL. */
  lemma UpstreamCalledOnlyForRoutes(request: Request, fetch: UpstreamRequest -> FetchOutcome)
    ensures var h := Handle(request, fetch);
      && (h.upstreamCall.Some? <==> request.verb != "OPTIONS" && (request.pathname == "/keys" || request.pathname == "/wg"))
      && (h.upstreamCall.Some? && request.pathname == "/keys" ==> h.upstreamCall.value.url == KeysUpstream)
      && (h.upstreamCall.Some? && request.pathname == "/wg" ==> h.upstreamCall.value.url == RegistrationUpstream)
      && (h.upstreamCall.None? && request.verb != "OPTIONS" ==> h.response.status == 404)
  {
  }

  /** A forwarded request's response, whatever the upstream sent, grants all three CORS headers. */
  lemma ForwardedResponseGrantsCors(request: Request, fetch: UpstreamRequest -> FetchOutcome)
    requires request.verb != "OPTIONS" && RouteApi(request.pathname).Some?
    requires fetch(ForwardedRequest(request, RouteApi(request.pathname).value)).Received?
    ensures var headers := Handle(request, fetch).response.headers;
      && AllowOrigin in headers && headers[AllowOrigin] == "*"
      && AllowMethods in headers && headers[AllowMethods] == "GET, POST, OPTIONS"
      && AllowHeaders in headers && headers[AllowHeaders] == "*"
  {
    var upstream := fetch(ForwardedRequest(request, RouteApi(request.pathname).value)).response;
    assert Handle(request, fetch).response == CorsRewrite(upstream);
    CorsHeadersAre();
    RelayNamesDistinct();
  }

  /**
   * When the upstream fetch rejects, the 500 lets any origin read it but grants neither methods
   * nor headers.
   */
  lemma FailedFetchGrantsOriginOnly(request: Request, fetch: UpstreamRequest -> FetchOutcome)
    requires request.verb != "OPTIONS" && RouteApi(request.pathname).Some?
    requires fetch(ForwardedRequest(request, RouteApi(request.pathname).value)).Rejected?
    ensures var r := Handle(request, fetch).response;
      && r.status == 500
      && AllowOrigin in r.headers && r.headers[AllowOrigin] == "*"
      && AllowMethods !in r.headers && AllowHeaders !in r.headers
  {
    var message := fetch(ForwardedRequest(request, RouteApi(request.pathname).value)).message;
    assert Handle(request, fetch).response == FetchError(message);
    FetchErrorGrantsOriginOnly(message);
  }

  /** The 404 for an unrouted path carries no CORS header, so a page on another origin cannot read it. */
  lemma UnroutedResponseHasNoCors(request: Request, fetch: UpstreamRequest -> FetchOutcome)
    requires request.verb != "OPTIONS" && RouteApi(request.pathname).None?
    ensures var r := Handle(request, fetch).response;
      r.status == 404 && AllowOrigin !in r.headers && AllowMethods !in r.headers && AllowHeaders !in r.headers
  {
    RelayNamesDistinct();
  }
}
