/**
 * The slice of the Fetch standard the relay relies on: header lists keyed by lower-cased name
 * (a `Headers` object and its `set`), response bodies, and the `Response` constructor's
 * default `Content-Type` for a string body.
 */
module Http {
  import opened Outcomes

  /** ASCII lower-casing of one character; every other character is left alone. */
  function LowerChar(c: char): (r: char)
    ensures 'A' <= c <= 'Z' ==> r as int == c as int + 32
    ensures !('A' <= c <= 'Z') ==> r == c
  {
    if 'A' <= c <= 'Z' then (c as int + 32) as char else c
  }

  /** Byte-lower-casing a header name, the form a header list compares names in. */
  function LowerAscii(s: string): (r: string)
    ensures |r| == |s|
    ensures forall i | 0 <= i < |s| :: r[i] == LowerChar(s[i])
  {
    seq(|s|, i requires 0 <= i < |s| => LowerChar(s[i]))
  }

  /** A name with no upper-case ASCII letter. */
  predicate IsLowerName(s: string) {
    forall i | 0 <= i < |s| :: !('A' <= s[i] <= 'Z')
  }

  /** Lower-casing leaves a lower-case name, and a lower-case name is left alone. */
  lemma LowerAsciiIsLower(s: string)
    ensures IsLowerName(LowerAscii(s))
    ensures IsLowerName(s) ==> LowerAscii(s) == s
  {
  }

  /** A header list: names lower-cased, each mapped to its (combined) value. */
  type HeaderMap = m: map<string, string> | forall n | n in m :: IsLowerName(n)
    witness map[]

  /**
   * A header list built from `{name: value, ...}` pairs in order, as `new Headers(record)` does it:
   * each pair is appended, so a repeated name has its values combined with `, `.
   */
  function HeadersOf(pairs: seq<(string, string)>): (m: HeaderMap)
    ensures forall i | 0 <= i < |pairs| :: LowerAscii(pairs[i].0) in m
  {
    if pairs == [] then map[]
    else
      var m := HeadersOf(pairs[..|pairs| - 1]);
      var (name, value) := pairs[|pairs| - 1];
      var n := LowerAscii(name);
      LowerAsciiIsLower(name);
      if n in m then m[n := m[n] + ", " + value] else m[n := value]
  }

  /** Appending a pair whose name is new adds exactly that name. */
  lemma HeadersOfAppendNew(pairs: seq<(string, string)>, name: string, value: string)
    requires LowerAscii(name) !in HeadersOf(pairs)
    ensures HeadersOf(pairs + [(name, value)]) == HeadersOf(pairs)[LowerAscii(name) := value]
  {
    assert (pairs + [(name, value)])[..|pairs|] == pairs;
  }

  /**
   * A `Headers` object: the relay copies an upstream response's list into a fresh one and then
   * sets names on it in place.
   */
  class Headers {
    var entries: HeaderMap

    /** `new Headers(other)`: a copy of another header list. */
    constructor (init: HeaderMap)
      ensures entries == init
    {
      entries := init;
    }

    /** `set(name, value)`: the name, lower-cased, now maps to exactly `value`; no other name changes. */
    method Set(name: string, value: string)
      modifies this
      ensures entries == old(entries)[LowerAscii(name) := value]
    {
      LowerAsciiIsLower(name);
      entries := entries[LowerAscii(name) := value];
    }
  }

  /** A body: none (`null`), a string, or a stream passed along without being read. */
  datatype Body = Null | Text(text: string) | Stream(id: nat)

  /** A response as the relay builds it or receives it. */
  datatype Response = Response(status: nat, statusText: string, headers: HeaderMap, body: Body)

  const ContentType: string := "content-type"

  /** The type the Fetch standard's body extraction gives a string body. */
  const TextPlainUtf8: string := "text/plain;charset=UTF-8"

  /**
   * `new Response(body, {status, statusText, headers})`: a string body gives the response a
   * `content-type` of `text/plain;charset=UTF-8` unless the headers already name one; a null or
   * stream body adds nothing.
   */
  function NewResponse(body: Body, status: nat, statusText: string, headers: HeaderMap): (r: Response)
    ensures r.status == status && r.statusText == statusText && r.body == body
    ensures forall n | n != ContentType :: (n in r.headers <==> n in headers) && (n in headers ==> r.headers[n] == headers[n])
    ensures ContentType in headers ==> ContentType in r.headers && r.headers[ContentType] == headers[ContentType]
    ensures ContentType !in headers ==> (ContentType in r.headers <==> body.Text?)
    ensures ContentType !in headers && body.Text? ==> r.headers[ContentType] == TextPlainUtf8
  {
    var h: HeaderMap := if body.Text? && ContentType !in headers then headers[ContentType := TextPlainUtf8] else headers;
    Response(status, statusText, h, body)
  }
}
