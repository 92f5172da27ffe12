/** Endpoint lists: parsing `url|token` entries, and stripping the tokens for logs. */
module EndpointSpecs {
  import opened Wrappers
  import opened Text

  datatype EndpointSpec = EndpointSpec(url: string, token: Option<string>)

  predicate TokenChar(c: char) {
    'a' <= c <= 'z' || 'A' <= c <= 'Z' || '0' <= c <= '9' || c in {'-', '_', '.', '~'}
  }

  /** `AuthToken::from_str` accepts the string. */
  predicate IsToken(s: string) {
    s != [] && forall i :: 0 <= i < |s| ==> TokenChar(s[i])
  }

  function TrimmedParts(parts: seq<string>): seq<string> {
    if parts == [] then []
    else (if Trim(parts[0]) == [] then [] else [Trim(parts[0])]) + TrimmedParts(parts[1..])
  }

  /** The non-empty, trimmed entries of a comma-separated list. */
  function Entries(spec: string): seq<string> {
    TrimmedParts(Split(spec, ','))
  }

  /** URL and token part of an entry; no bar means no token part. */
  function SplitEntry(entry: string): (string, string) {
    var bar := Find(entry, c => c == '|');
    if bar == |entry| then (entry, []) else (Trim(entry[..bar]), Trim(entry[bar + 1..]))
  }

  function Url(entry: string): string { SplitEntry(entry).0 }

  /** A failure names the endpoint's URL, never its token. */
  function ParseEntry(entry: string): Result<EndpointSpec, string> {
    var (url, token) := SplitEntry(entry);
    if token == [] then Ok(EndpointSpec(url, None))
    else if IsToken(token) then Ok(EndpointSpec(url, Some(token)))
    else Err(url)
  }

  /** The first entry that does not parse fails the list. */
  function ParseEntries(entries: seq<string>): Result<seq<EndpointSpec>, string> {
    if entries == [] then Ok([])
    else
      match ParseEntry(entries[0])
      case Err(which) => Err(which)
      case Ok(spec) =>
        match ParseEntries(entries[1..])
        case Err(which) => Err(which)
        case Ok(rest) => Ok([spec] + rest)
  }

  function ParseEndpointSpecs(spec: string): Result<seq<EndpointSpec>, string> {
    ParseEntries(Entries(spec))
  }

  function Urls(entries: seq<string>): seq<string> {
    if entries == [] then [] else [Url(entries[0])] + Urls(entries[1..])
  }

  function RedactEndpointSpecs(spec: string): string {
    Join(Urls(Entries(spec)), ", ")
  }

  // ---- The redacted list ----

  function UrlsOf(specs: seq<EndpointSpec>): seq<string> {
    if specs == [] then [] else [specs[0].url] + UrlsOf(specs[1..])
  }

  lemma {:induction false} ParsedUrls(entries: seq<string>)
    requires ParseEntries(entries).Ok?
    ensures UrlsOf(ParseEntries(entries).value) == Urls(entries)
  {
    if entries != [] {
      ParsedUrls(entries[1..]);
      var spec, rest := ParseEntry(entries[0]).value, ParseEntries(entries[1..]).value;
      assert ([spec] + rest)[1..] == rest;
    }
  }

  /** When the list parses, its redacted form is the join of the parsed URLs. */
  lemma {:induction false} RedactionJoinsParsedUrls(spec: string)
    requires ParseEndpointSpecs(spec).Ok?
    ensures RedactEndpointSpecs(spec) == Join(UrlsOf(ParseEndpointSpecs(spec).value), ", ")
  {
    ParsedUrls(Entries(spec));
  }

  /** A URL part: trimmed, with neither separator in it. */
  predicate IsUrlPart(s: string) {
    Trimmed(s) && ',' !in s && '|' !in s
  }

  lemma {:induction false} UrlIsUrlPart(entry: string)
    requires Trimmed(entry) && ',' !in entry
    ensures IsUrlPart(Url(entry))
  {
    var bar := Find(entry, c => c == '|');
    if bar < |entry| {
      TrimTrims(entry[..bar]);
    }
  }

  lemma {:induction false} PartsAreEntries(parts: seq<string>)
    requires forall p :: p in parts ==> ',' !in p
    ensures forall e :: e in TrimmedParts(parts) ==> Trimmed(e) && ',' !in e
  {
    if parts != [] {
      assert parts[0] in parts;
      TrimTrims(parts[0]);
      PartsAreEntries(parts[1..]);
    }
  }

  lemma {:induction false} UrlsAreUrlParts(entries: seq<string>)
    requires forall e :: e in entries ==> Trimmed(e) && ',' !in e
    ensures forall u :: u in Urls(entries) ==> IsUrlPart(u)
  {
    if entries != [] {
      assert entries[0] in entries;
      UrlIsUrlPart(entries[0]);
      UrlsAreUrlParts(entries[1..]);
    }
  }

  function NonEmpty(parts: seq<string>): seq<string> {
    if parts == [] then [] else (if parts[0] == [] then [] else [parts[0]]) + NonEmpty(parts[1..])
  }

  lemma {:induction false} SpaceTrimmed(u: string)
    requires Trimmed(u)
    ensures Trim([' '] + u) == u && Trim(u) == u
  {
    assert IsSpace(' ');
    var s := [' '] + u;
    assert s[1..] == u;
    assert TrimStart(s) == TrimStart(u) == u;
  }

  lemma {:induction false} TrimmedPartsCons(first: string, rest: seq<string>)
    ensures TrimmedParts([first] + rest) == (if Trim(first) == [] then [] else [Trim(first)]) + TrimmedParts(rest)
  {
    assert ([first] + rest)[1..] == rest;
  }

  /** An entry: trimmed, with no comma in it. */
  predicate IsEntry(s: string) {
    Trimmed(s) && ',' !in s
  }

  /** The entries of a join, its first part possibly with white space around it. */
  lemma {:induction false} EntriesFrom(first: string, rest: seq<string>)
    requires ',' !in first
    requires forall u :: u in rest ==> IsEntry(u)
    ensures Entries(if rest == [] then first else first + ", " + Join(rest, ", "))
            == (if Trim(first) == [] then [] else [Trim(first)]) + NonEmpty(rest)
    decreases |rest|
  {
    if rest == [] {
      SplitFree(first, ',');
      TrimmedPartsCons(first, []);
      assert [first] + [] == [first];
    } else {
      var next := [' '] + rest[0];
      var tail := if rest[1..] == [] then next else next + ", " + Join(rest[1..], ", ");
      assert first + ", " + Join(rest, ", ") == first + [','] + tail;
      SplitAtSeparator(first, tail, ',');
      TrimmedPartsCons(first, Split(tail, ','));
      assert rest[0] in rest;
      SpaceTrimmed(rest[0]);
      EntriesFrom(next, rest[1..]);
    }
  }

  lemma {:induction false} EntriesOfJoin(parts: seq<string>)
    requires forall u :: u in parts ==> IsEntry(u)
    ensures Entries(Join(parts, ", ")) == NonEmpty(parts)
  {
    if parts == [] {
      TrimmedPartsCons([], []);
      var none: seq<string> := [[]];
      assert none + [] == none == Split([], ',');
    } else {
      assert parts[0] in parts;
      SpaceTrimmed(parts[0]);
      EntriesFrom(parts[0], parts[1..]);
    }
  }

  function WithoutTokens(urls: seq<string>): seq<EndpointSpec> {
    if urls == [] then [] else [EndpointSpec(urls[0], None)] + WithoutTokens(urls[1..])
  }

  lemma {:induction false} BareUrlsParse(urls: seq<string>)
    requires forall u :: u in urls ==> IsUrlPart(u)
    ensures ParseEntries(urls) == Ok(WithoutTokens(urls))
  {
    if urls != [] {
      assert urls[0] in urls;
      assert ParseEntry(urls[0]) == Ok(EndpointSpec(urls[0], None));
      BareUrlsParse(urls[1..]);
    }
  }

  lemma {:induction false} NonEmptyParts(parts: seq<string>)
    ensures forall u :: u in NonEmpty(parts) ==> u in parts
    ensures |NonEmpty(parts)| <= |parts|
    ensures NonEmpty(parts) == parts <==> [] !in parts
  {
    if parts != [] {
      NonEmptyParts(parts[1..]);
      assert parts == [parts[0]] + parts[1..];
    }
  }

  lemma {:induction false} WithoutTokensUrls(urls: seq<string>)
    ensures UrlsOf(WithoutTokens(urls)) == urls
  {
    if urls != [] {
      WithoutTokensUrls(urls[1..]);
      assert ([EndpointSpec(urls[0], None)] + WithoutTokens(urls[1..]))[1..] == WithoutTokens(urls[1..]);
    }
  }

  /** The redacted list always parses, to the non-empty URLs of the original in order, without
      tokens; so it gives back the URLs exactly when none of them is empty. */
  lemma {:induction false} RedactedListParses(spec: string)
    ensures
      var urls := Urls(Entries(spec));
      var parsed := ParseEndpointSpecs(RedactEndpointSpecs(spec));
      && parsed == Ok(WithoutTokens(NonEmpty(urls)))
      && (UrlsOf(parsed.value) == urls <==> [] !in urls)
  {
    var urls := Urls(Entries(spec));
    SplitPartsFree(spec, ',');
    PartsAreEntries(Split(spec, ','));
    UrlsAreUrlParts(Entries(spec));
    EntriesOfJoin(urls);
    NonEmptyParts(urls);
    BareUrlsParse(NonEmpty(urls));
    WithoutTokensUrls(NonEmpty(urls));
  }

  /** Redaction depends on the URL parts only, so nothing after a bar reaches the log. */
  lemma {:induction false} RedactionIgnoresTokens(spec: string, other: string)
    requires Urls(Entries(spec)) == Urls(Entries(other))
    ensures RedactEndpointSpecs(spec) == RedactEndpointSpecs(other)
    ensures '|' !in RedactEndpointSpecs(spec)
  {
    SplitPartsFree(spec, ',');
    PartsAreEntries(Split(spec, ','));
    UrlsAreUrlParts(Entries(spec));
    NoBarInJoin(Urls(Entries(spec)));
  }

  lemma {:induction false} NoBarInJoin(parts: seq<string>)
    requires forall u :: u in parts ==> IsUrlPart(u)
    ensures '|' !in Join(parts, ", ")
  {
    if parts != [] {
      assert parts[0] in parts;
      NoBarInJoin(parts[1..]);
    }
  }

  // ---- What parses, and to what ----

  /** The unreserved characters of section 2.3 of RFC 3986, by code point. */
  lemma TokenAlphabet(c: char)
    ensures
      var n := c as nat;
      TokenChar(c) <==>
        48 <= n <= 57 || 65 <= n <= 90 || 97 <= n <= 122 || n == 45 || n == 46 || n == 95 || n == 126
  {
  }

  predicate BadToken(entry: string) {
    SplitEntry(entry).1 != [] && !IsToken(SplitEntry(entry).1)
  }

  /** Parsing fails exactly when some entry has a token that is not one, and names the URL of the first. */
  lemma {:induction false} ParseFailsExactly(entries: seq<string>)
    ensures
      match ParseEntries(entries)
      case Ok(specs) => |specs| == |entries| && forall i :: 0 <= i < |entries| ==> !BadToken(entries[i])
      case Err(url) =>
        exists i :: 0 <= i < |entries| && BadToken(entries[i]) && url == Url(entries[i])
                    && forall j :: 0 <= j < i ==> !BadToken(entries[j])
  {
    if entries != [] {
      var rest := entries[1..];
      ParseFailsExactly(rest);
      assert forall i :: 1 <= i < |entries| ==> entries[i] == rest[i - 1];
      if BadToken(entries[0]) {
        assert BadToken(entries[0]) && ParseEntries(entries) == Err(Url(entries[0]));
      } else if ParseEntries(rest).Err? {
        var i :| 0 <= i < |rest| && BadToken(rest[i]) && ParseEntries(rest).error == Url(rest[i])
                 && forall j :: 0 <= j < i ==> !BadToken(rest[j]);
        assert BadToken(entries[i + 1]) && forall j :: 0 <= j < i + 1 ==> !BadToken(entries[j]);
      }
    }
  }

  /** How a list of endpoints is written. */
  function Render(spec: EndpointSpec): string {
    if spec.token.None? then spec.url else spec.url + "|" + spec.token.value
  }

  function Rendered(specs: seq<EndpointSpec>): seq<string> {
    if specs == [] then [] else [Render(specs[0])] + Rendered(specs[1..])
  }

  /** Something to write, with a URL part and, if any, an accepted token. */
  predicate WellFormed(spec: EndpointSpec) {
    && IsUrlPart(spec.url)
    && (spec.token.None? ==> spec.url != [])
    && (spec.token.Some? ==> IsToken(spec.token.value))
  }

  lemma {:induction false} TokenIsTrimmed(token: string)
    requires IsToken(token)
    ensures Trimmed(token) && ',' !in token && Trim(token) == token
  {
    assert TokenChar(token[0]) && TokenChar(token[|token| - 1]);
  }

  lemma {:induction false} SplitRendered(url: string, token: string)
    requires Trimmed(url) && Trimmed(token) && '|' !in url
    ensures SplitEntry(url + "|" + token) == (url, token)
  {
    var entry := url + "|" + token;
    assert entry == url + ("|" + token);
    FindAt(url, "|" + token, c => c == '|');
    assert entry[..|url|] == url && entry[|url| + 1..] == token;
  }

  lemma RenderParses(spec: EndpointSpec)
    requires WellFormed(spec)
    ensures ParseEntry(Render(spec)) == Ok(spec)
  {
    if spec.token.Some? {
      TokenIsTrimmed(spec.token.value);
      SplitRendered(spec.url, spec.token.value);
    }
  }

  lemma RenderIsEntry(spec: EndpointSpec)
    requires WellFormed(spec)
    ensures IsEntry(Render(spec)) && Render(spec) != []
  {
    if spec.token.Some? {
      TokenIsTrimmed(spec.token.value);
    }
  }

  lemma {:induction false} RenderedParse(specs: seq<EndpointSpec>)
    requires forall s :: s in specs ==> WellFormed(s)
    ensures ParseEntries(Rendered(specs)) == Ok(specs)
    ensures NonEmpty(Rendered(specs)) == Rendered(specs) && forall e :: e in Rendered(specs) ==> IsEntry(e)
  {
    if specs != [] {
      assert specs[0] in specs;
      RenderParses(specs[0]);
      RenderIsEntry(specs[0]);
      RenderedParse(specs[1..]);
      assert Rendered(specs)[1..] == Rendered(specs[1..]);
      assert [specs[0]] + specs[1..] == specs;
    }
  }

  /** The round trip: a list of endpoints, written with their tokens, parses to itself. */
  lemma {:induction false} ParsesWhatIsRendered(specs: seq<EndpointSpec>)
    requires forall s :: s in specs ==> WellFormed(s)
    ensures ParseEndpointSpecs(Join(Rendered(specs), ", ")) == Ok(specs)
  {
    RenderedParse(specs);
    EntriesOfJoin(Rendered(specs));
  }
}
