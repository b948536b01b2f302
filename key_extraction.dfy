/**
 * `extractKey` (js/app.js): the value of the first `<keyName>:\s(.+)` match in the key
 * endpoint's text, trimmed, or null.
 */
module KeyExtraction {
  import opened Outcomes
  import opened JsText

  /** A name made of ASCII letters and digits: built into a RegExp it matches itself literally. */
  predicate IsPlainName(keyName: string) {
    forall i | 0 <= i < |keyName| :: ('A' <= keyName[i] <= 'Z') || ('a' <= keyName[i] <= 'z') || ('0' <= keyName[i] <= '9')
  }

  /**
   * The pattern `<keyName>:\s(.+)` matches starting at position `i`: the name, a colon, exactly one
   * white-space character (which may be a line terminator), and at least one character that `.` accepts.
   */
  ghost predicate MatchesAt(data: string, keyName: string, i: int) {
    var p := i + |keyName| + 1;
    && 0 <= i && p + 1 < |data|
    && data[i..i + |keyName|] == keyName && data[i + |keyName|] == ':'
    && IsWhiteSpace(data[p]) && !IsLineTerminator(data[p + 1])
  }

  /** `i` is the leftmost position where the pattern matches: the match a non-global RegExp reports. */
  ghost predicate IsFirstMatch(data: string, keyName: string, i: int) {
    MatchesAt(data, keyName, i) && forall j | 0 <= j < i :: !MatchesAt(data, keyName, j)
  }

  /** What greedy `.+` consumes from `p`: the longest run of characters that are not line terminators. */
  function LineFrom(data: string, p: nat): (r: string)
    requires p <= |data|
    ensures p + |r| <= |data| && r == data[p..p + |r|]
    ensures forall i | 0 <= i < |r| :: !IsLineTerminator(r[i])
    ensures p + |r| == |data| || IsLineTerminator(data[p + |r|])
    decreases |data| - p
  {
    if p == |data| || IsLineTerminator(data[p]) then [] else [data[p]] + LineFrom(data, p + 1)
  }

  /** Capture group 1 of a match at `i`. */
  function Capture(data: string, keyName: string, i: nat): string
    requires i + |keyName| + 2 <= |data|
  {
    LineFrom(data, i + |keyName| + 2)
  }

  /** The search the RegExp engine performs: try each start position from `from` on. */
  function FirstMatchFrom(data: string, keyName: string, from: nat): (r: Option<nat>)
    ensures r.Some? ==> from <= r.value && MatchesAt(data, keyName, r.value)
    ensures forall j | from <= j && (r.None? || j < r.value) :: !MatchesAt(data, keyName, j)
    decreases |data| - from
  {
    var p := from + |keyName| + 1;
    if p + 1 >= |data| then None
    else if data[from..from + |keyName|] == keyName && data[from + |keyName|] == ':'
      && IsWhiteSpace(data[p]) && !IsLineTerminator(data[p + 1])
    then Some(from)
    else FirstMatchFrom(data, keyName, from + 1)
  }

  /**
   * `extractKey(data, keyName)`. A result is the trimmed capture of the leftmost match, and it is
   * non-empty, starts and ends with a non-white-space character and holds no line terminator.
   * The result is null exactly when nothing matches or the leftmost match's capture is all white space
   * (a later match is then not consulted).
   */
  function ExtractKey(data: string, keyName: string): (r: Option<string>)
    requires IsPlainName(keyName)
    ensures r.Some? ==> IsTrimmed(r.value)
    ensures r.Some? ==> forall i | 0 <= i < |r.value| :: !IsLineTerminator(r.value[i])
    ensures r.Some? ==> exists i :: IsFirstMatch(data, keyName, i) && r.value == Trim(Capture(data, keyName, i))
    ensures r.None? <==>
      (forall i :: !MatchesAt(data, keyName, i))
      || (exists i :: IsFirstMatch(data, keyName, i) && Trim(Capture(data, keyName, i)) == [])
  {
    match FirstMatchFrom(data, keyName, 0)
    case None => None
    case Some(i) =>
      var v := Trim(Capture(data, keyName, i));
      assert IsFirstMatch(data, keyName, i);
      if v == [] then None
      else
        LeftmostMatchIsUnique(data, keyName, i);
        Some(v)
  }

  /** There is at most one leftmost match. */
  lemma LeftmostMatchIsUnique(data: string, keyName: string, i: int)
    requires IsFirstMatch(data, keyName, i)
    ensures forall k | IsFirstMatch(data, keyName, k) :: k == i
  {
  }

  /** `LineFrom` is the only run of non-terminators from `p` that ends at a terminator or at the end. */
  lemma LineFromIs(data: string, p: nat, v: string)
    requires p + |v| <= |data| && data[p..p + |v|] == v
    requires forall i | 0 <= i < |v| :: !IsLineTerminator(v[i])
    requires p + |v| == |data| || IsLineTerminator(data[p + |v|])
    ensures LineFrom(data, p) == v
  {
    var r := LineFrom(data, p);
    assert forall i | 0 <= i < |r| :: data[p + i] == r[i];
    assert forall i | 0 <= i < |v| :: data[p + i] == v[i];
    assert |r| == |v|;
  }

  /** A string that `trim` leaves alone. */
  lemma TrimOfTrimmed(v: string)
    requires IsTrimmed(v)
    ensures Trim(v) == v
  {
    assert TrimStart(v) == v;
  }

  /** The search stops at the leftmost match. */
  lemma FirstMatchFound(data: string, keyName: string, k: nat)
    requires IsFirstMatch(data, keyName, k)
    ensures FirstMatchFrom(data, keyName, 0) == Some(k)
  {
  }

  /** The value the leftmost match captures, if `trim` leaves it alone, is what `extractKey` returns. */
  lemma ExtractAtFirstMatch(data: string, keyName: string, k: nat, value: string)
    requires IsPlainName(keyName) && FirstMatchFrom(data, keyName, 0) == Some(k)
    requires LineFrom(data, k + |keyName| + 2) == value
    requires IsTrimmed(value)
    ensures ExtractKey(data, keyName) == Some(value)
  {
    TrimOfTrimmed(value);
    assert Trim(Capture(data, keyName, k)) == value;
  }

  /**
   * A key written as `<keyName>: <value>` and ended by a line terminator (or the end of the text)
   * reads back as `<value>`, provided the value is non-empty, has no surrounding white space and
   * no line terminator, and every colon before the key's name comes too early to end another
   * occurrence of the name.
   */
  lemma ExtractWrittenKey(prefix: string, keyName: string, value: string, rest: string)
    requires IsPlainName(keyName)
    requires forall q | 0 <= q < |prefix| && prefix[q] == ':' :: q < |keyName|
    requires IsTrimmed(value)
    requires forall i | 0 <= i < |value| :: !IsLineTerminator(value[i])
    requires rest == [] || IsLineTerminator(rest[0])
    ensures ExtractKey(prefix + keyName + ": " + value + rest, keyName) == Some(value)
  {
    var data := prefix + keyName + ": " + value + rest;
    var k := |prefix|;
    var p := k + |keyName| + 2;
    assert data[k..k + |keyName|] == keyName;
    assert data[k + |keyName|] == ':' && data[k + |keyName| + 1] == ' ';
    assert data[p..p + |value|] == value;
    assert data[p] == value[0];
    assert MatchesAt(data, keyName, k);
    forall j | 0 <= j < k ensures !MatchesAt(data, keyName, j) {
      if j + |keyName| < k {
        assert data[j + |keyName|] == prefix[j + |keyName|];
      } else {
        assert data[j + |keyName|] == keyName[j + |keyName| - k];
      }
    }
    assert p + |value| == |data| || IsLineTerminator(data[p + |value|]) by {
      if rest != [] {
        assert data[p + |value|] == rest[0];
      }
    }
    LineFromIs(data, p, value);
    FirstMatchFound(data, keyName, k);
    ExtractAtFirstMatch(data, keyName, k, value);
  }
}
