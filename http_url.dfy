/**
 * The part of OkHttp's `HttpUrl.Builder` the search requests use: appending
 * path segments, appending query parameters, and rendering the URL with
 * percent-encoding (UTF-8 bytes, upper-case hex).
 */
module HttpUrl {
  import opened KotlinText

  /** The characters of a `%XY` escape. */
  predicate EscapeChar(c: char)
  {
    c == '%' || ('0' <= c <= '9') || ('A' <= c <= 'F')
  }

  /** An upper-case hexadecimal digit. */
  function HexDigit(d: nat): (c: char)
    requires d < 16
    ensures EscapeChar(c) && c != '%'
  {
    if d < 10 then ('0' as int + d) as char else ('A' as int + d - 10) as char
  }

  /** `%XY` for one byte. */
  function PercentByte(b: nat): (r: string)
    requires b < 256
    ensures |r| == 3 && r[0] == '%' && EscapeChar(r[1]) && EscapeChar(r[2])
  {
    ['%', HexDigit(b / 16), HexDigit(b % 16)]
  }

  /** The UTF-8 encoding of one character. */
  function Utf8(c: char): (r: seq<nat>)
    ensures 1 <= |r| <= 4
    ensures forall k :: 0 <= k < |r| ==> r[k] < 256
    ensures (c as int) < 0x80 <==> |r| == 1
    ensures (c as int) < 0x80 ==> r == [c as int]
  {
    var n := c as int;
    if n < 0x80 then [n]
    else if n < 0x800 then [0xC0 + n / 64, 0x80 + n % 64]
    else if n < 0x1_0000 then [0xE0 + n / 4096, 0x80 + (n / 64) % 64, 0x80 + n % 64]
    else [0xF0 + n / 0x4_0000, 0x80 + (n / 4096) % 64, 0x80 + (n / 64) % 64, 0x80 + n % 64]
  }

  function PercentBytes(bs: seq<nat>): (r: string)
    requires forall k :: 0 <= k < |bs| ==> bs[k] < 256
    ensures |r| == 3 * |bs|
    ensures forall k :: 0 <= k < |r| ==> EscapeChar(r[k])
  {
    if |bs| == 0 then "" else PercentByte(bs[0]) + PercentBytes(bs[1..])
  }

  /** Characters `addQueryParameter` escapes (query-component set, `+`, `%`, controls, non-ASCII). */
  predicate QueryEscapes(c: char)
  {
    var n := c as int;
    n < 0x20 || n >= 0x7F
    || c == ' ' || c == '!' || c == '"' || c == '#' || c == '$' || c == '&' || c == '\'' || c == '('
    || c == ')' || c == ',' || c == '/' || c == ':' || c == ';' || c == '<' || c == '=' || c == '>'
    || c == '?' || c == '@' || c == '[' || c == ']' || c == '\\' || c == '^' || c == '`' || c == '{'
    || c == '|' || c == '}' || c == '~' || c == '+' || c == '%'
  }

  /** Characters `addPathSegment` escapes (path-segment set, `%`, controls, non-ASCII). */
  predicate PathEscapes(c: char)
  {
    var n := c as int;
    n < 0x20 || n >= 0x7F
    || c == ' ' || c == '"' || c == '<' || c == '>' || c == '^' || c == '`' || c == '{' || c == '}'
    || c == '|' || c == '/' || c == '\\' || c == '?' || c == '#' || c == '%'
  }

  predicate Escapes(c: char, query: bool)
  {
    if query then QueryEscapes(c) else PathEscapes(c)
  }

  /** One character: kept as is, or its UTF-8 bytes as `%XY` triples. */
  function EncodeChar(c: char, query: bool): (r: string)
    ensures |r| >= 1
    ensures !Escapes(c, query) ==> r == [c]
    ensures Escapes(c, query) ==> forall k :: 0 <= k < |r| ==> EscapeChar(r[k])
  {
    if Escapes(c, query) then PercentBytes(Utf8(c)) else [c]
  }

  /** Percent-encode a query component (`query`) or a path segment. */
  function Encode(s: string, query: bool): string
  {
    if |s| == 0 then "" else EncodeChar(s[0], query) + Encode(s[1..], query)
  }

  /** A text with no character to escape is encoded as itself. */
  lemma {:induction false} EncodePlain(s: string, query: bool)
    requires forall k :: 0 <= k < |s| ==> !Escapes(s[k], query)
    ensures Encode(s, query) == s
  {
    if |s| > 0 {
      EncodePlain(s[1..], query);
      assert [s[0]] + s[1..] == s;
    }
  }

  /** Encoding never shortens a text. */
  lemma {:induction false} EncodeNonEmpty(s: string, query: bool)
    ensures |Encode(s, query)| >= |s|
  {
    if |s| > 0 {
      EncodeNonEmpty(s[1..], query);
    }
  }

  /** OkHttp's `push`: a trailing empty segment is replaced, otherwise the segment is appended. */
  function PushSegment(segments: seq<string>, s: string): (r: seq<string>)
    ensures |segments| > 0 && segments[|segments| - 1] == "" ==> r == segments[..|segments| - 1] + [s]
    ensures (|segments| == 0 || segments[|segments| - 1] != "") ==> r == segments + [s]
  {
    if |segments| > 0 && segments[|segments| - 1] == "" then segments[..|segments| - 1] + [s]
    else segments + [s]
  }

  /** One rendered parameter: the encoded name, `=`, the encoded value. */
  function QueryPair(p: (string, string)): string
  {
    Encode(p.0, true) + "=" + Encode(p.1, true)
  }

  function QueryPairs(ps: seq<(string, string)>): seq<string>
  {
    if |ps| == 0 then [] else [QueryPair(ps[0])] + QueryPairs(ps[1..])
  }

  /**
   * The rendered URL: origin, `/`-joined segments, then `?name=value&…` when
   * parameters were added. Parameters are kept as given and encoded here,
   * which renders the same text as encoding them when they are added.
   */
  function Render(origin: string, segments: seq<string>, query: seq<(string, string)>): string
  {
    origin + "/" + Join(segments, "/") + (if |query| == 0 then "" else "?" + Join(QueryPairs(query), "&"))
  }

  class UrlBuilder {
    const origin: string
    var segments: seq<string>
    var query: seq<(string, string)>

    /** `"origin/seg1/…/segN".toHttpUrl().newBuilder()`; `[""]` is the root path `/`. */
    constructor (origin: string, segments: seq<string>)
      ensures this.origin == origin && this.segments == segments && query == []
    {
      this.origin := origin;
      this.segments := segments;
      query := [];
    }

    method AddPathSegment(s: string)
      modifies this
      ensures segments == PushSegment(old(segments), Encode(s, false))
      ensures query == old(query)
    {
      segments := PushSegment(segments, Encode(s, false));
    }

    method AddQueryParameter(name: string, value: string)
      modifies this
      ensures query == old(query) + [(name, value)]
      ensures segments == old(segments)
    {
      query := query + [(name, value)];
    }

    function ToString(): string
      reads this
    {
      Render(origin, segments, query)
    }
  }

  // ---------------------------------------------------------------------
  // Properties
  // ---------------------------------------------------------------------

  /** Splitting a join on a one-character separator absent from every part gives the parts back. */
  lemma {:induction false} SplitJoin(parts: seq<string>, c: char)
    requires |parts| > 0
    requires forall k :: 0 <= k < |parts| ==> c !in parts[k]
    ensures Split(Join(parts, [c]), [c]) == parts
  {
    if |parts| == 1 {
      NoCharNoOccurrence(parts[0], c);
    } else {
      var rest := Join(parts[1..], [c]);
      SplitJoin(parts[1..], c);
      FirstAtEndChar(parts[0], c);
      FirstOccurrence(parts[0], [c], rest);
      assert parts == [parts[0]] + parts[1..];
    }
  }

  lemma NoCharNoOccurrence(s: string, c: char)
    requires c !in s
    ensures !Contains(s, [c])
  {
    forall j | 0 <= j < |s|
      ensures !OccursAt(s, [c], j)
    {
      assert s[j..j + 1][0] == s[j];
    }
    assert !OccursAt(s, [c], IndexOf(s, [c]));
  }

  /** A character that cannot end a query component or start a new one. */
  predicate Inert(c: char)
  {
    c != ' ' && c != '&' && c != '=' && c != '#' && c != '+' && (c as int) < 0x7F
  }

  lemma EncodeCharInert(c: char)
    ensures forall k :: 0 <= k < |EncodeChar(c, true)| ==> Inert(EncodeChar(c, true)[k])
  {
    var r := EncodeChar(c, true);
    if Escapes(c, true) {
      forall k | 0 <= k < |r|
        ensures Inert(r[k])
      {
        assert EscapeChar(r[k]);
      }
    }
  }

  /**
   * An encoded query component is plain ASCII without `&`, `=`, `#`, space
   * or `+`, so it cannot break the query apart.
   */
  lemma {:induction false} EncodedComponentIsInert(s: string)
    ensures forall k :: 0 <= k < |Encode(s, true)| ==> Inert(Encode(s, true)[k])
  {
    if |s| > 0 {
      EncodedComponentIsInert(s[1..]);
      EncodeCharInert(s[0]);
      var head := EncodeChar(s[0], true);
      var tail := Encode(s[1..], true);
      forall k | 0 <= k < |head| + |tail|
        ensures Inert((head + tail)[k])
      {
        if k < |head| {
          assert (head + tail)[k] == head[k];
        } else {
          assert (head + tail)[k] == tail[k - |head|];
        }
      }
    }
  }

  /** An encoded component contains no `&`. */
  lemma NoAmpersand(s: string)
    ensures '&' !in Encode(s, true)
  {
    EncodedComponentIsInert(s);
    var e := Encode(s, true);
    assert forall k :: 0 <= k < |e| ==> e[k] != '&';
  }

  lemma {:induction false} PairsFree(query: seq<(string, string)>)
    ensures |QueryPairs(query)| == |query|
    ensures forall k :: 0 <= k < |query| ==> QueryPairs(query)[k] == QueryPair(query[k]) && '&' !in QueryPairs(query)[k]
  {
    if |query| > 0 {
      PairsFree(query[1..]);
      NoAmpersand(query[0].0);
      NoAmpersand(query[0].1);
    }
  }

  /**
   * Whatever names and values were added, splitting the rendered query on
   * `&` gives back one `name=value` piece per parameter, in order.
   */
  lemma QueryReadBack(query: seq<(string, string)>)
    requires |query| > 0
    ensures Split(Join(QueryPairs(query), "&"), "&") == QueryPairs(query)
  {
    PairsFree(query);
    SplitJoin(QueryPairs(query), '&');
  }
}
