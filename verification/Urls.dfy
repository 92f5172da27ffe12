/** The scanner's URL functions: splicing a token, deriving the WebSocket URL, redacting it. */
module Urls {
  import opened Wrappers
  import opened Text
  import opened EndpointSpecs

  predicate SchemeEndsAt(s: string, i: nat) {
    i + 3 <= |s| && s[i..i + 3] == "://"
  }

  /** Scheme and rest, split at the first "://". */
  function SplitScheme(s: string): (r: Option<(string, string)>)
    ensures r.Some? ==> s == r.value.0 + "://" + r.value.1
    ensures r.Some? ==> forall j :: 0 <= j < |r.value.0| ==> !SchemeEndsAt(s, j)
    ensures r.None? ==> forall j: nat :: !SchemeEndsAt(s, j)
  {
    SplitSchemeFrom(s, 0)
  }

  function SplitSchemeFrom(s: string, i: nat): (r: Option<(string, string)>)
    requires i <= |s|
    requires forall j :: 0 <= j < i ==> !SchemeEndsAt(s, j)
    ensures r.Some? ==> s == r.value.0 + "://" + r.value.1
    ensures r.Some? ==> forall j :: 0 <= j < |r.value.0| ==> !SchemeEndsAt(s, j)
    ensures r.None? ==> forall j: nat :: !SchemeEndsAt(s, j)
    decreases |s| - i
  {
    if SchemeEndsAt(s, i) then
      assert s == s[..i] + s[i..i + 3] + s[i + 3..];
      Some((s[..i], s[i + 3..]))
    else if i == |s| then None
    else SplitSchemeFrom(s, i + 1)
  }

  function WithAuthToken(url: string, token: Option<string>): Result<string, string> {
    match token
    case None => Ok(url)
    case Some(t) =>
      match SplitScheme(url)
      case None => Err(url)
      case Some((scheme, rest)) => Ok(scheme + "://:" + t + "@" + rest)
  }

  function TrimSlashes(s: string): (r: string)
    ensures r <= s && forall i :: |r| <= i < |s| ==> s[i] == '/'
    ensures r != [] ==> r[|r| - 1] != '/'
  {
    if s != [] && s[|s| - 1] == '/' then TrimSlashes(s[..|s| - 1]) else s
  }

  function Glue(scheme: string, rest: string): string {
    scheme + "://" + rest
  }

  function WsBase(base: string): string {
    if Glue("https", "") <= base then Glue("wss", base[8..])
    else if Glue("http", "") <= base then Glue("ws", base[7..])
    else base
  }

  function DeriveWsUrl(url: string): string {
    WsBase(TrimSlashes(url)) + "/websocket"
  }

  predicate EndsAuthority(c: char) {
    c == '/' || c == '?' || c == '#'
  }

  /** Position of the last '@', or the length. */
  function LastAt(s: string): (i: nat)
    ensures i <= |s|
    ensures i < |s| ==> s[i] == '@' && '@' !in s[i + 1..]
    ensures i == |s| ==> '@' !in s
  {
    if s == [] then 0
    else if s[|s| - 1] == '@' then |s| - 1
    else
      var i := LastAt(s[..|s| - 1]);
      if i == |s| - 1 then |s| else
        assert s[i + 1..] == s[..|s| - 1][i + 1..] + [s[|s| - 1]];
        i
  }

  function RedactUserinfo(url: string): string {
    match SplitScheme(url)
    case None => url
    case Some((scheme, rest)) =>
      var end := Find(rest, EndsAuthority);
      var at := LastAt(rest[..end]);
      if at == end then url else scheme + "://***@" + rest[at + 1..end] + rest[end..]
  }

  // ---- Splitting ----

  lemma {:induction false} SplitSchemeAt(t: string, scheme: string, rest: string)
    requires t == Glue(scheme, rest)
    requires forall j :: 0 <= j < |scheme| ==> !SchemeEndsAt(t, j)
    ensures SplitScheme(t) == Some((scheme, rest))
  {
    assert t[|scheme|..|scheme| + 3] == "://";
    assert SchemeEndsAt(t, |scheme|);
    var r := SplitScheme(t);
    var got := r.value.0;
    assert t[|got|..|got| + 3] == "://";
    assert SchemeEndsAt(t, |got|);
    assert |got| == |scheme|;
    assert got == t[..|got|] == scheme;
    assert r.value.1 == t[|got| + 3..] == rest;
  }

  /** A scheme that ends at its first "://" does so whatever follows. */
  lemma {:induction false} SchemeIndependent(s: string, scheme: string, rest: string, other: string)
    requires SplitScheme(s) == Some((scheme, rest))
    ensures SplitScheme(Glue(scheme, other)) == Some((scheme, other))
  {
    var t := Glue(scheme, other);
    forall j: nat | j < |scheme|
      ensures !SchemeEndsAt(t, j)
    {
      assert !SchemeEndsAt(s, j);
      assert t[j..j + 3] == s[j..j + 3];
    }
    SplitSchemeAt(t, scheme, other);
  }

  /** A scheme without a colon ends at its "://". */
  lemma {:induction false} KnownScheme(scheme: string, rest: string)
    requires ':' !in scheme
    ensures SplitScheme(Glue(scheme, rest)) == Some((scheme, rest))
  {
    var t := Glue(scheme, rest);
    forall j: nat | j < |scheme|
      ensures !SchemeEndsAt(t, j)
    {
      assert t[j] == scheme[j] && scheme[j] in scheme;
      assert t[j..j + 3][0] == t[j];
    }
    SplitSchemeAt(t, scheme, rest);
  }

  lemma {:induction false} TrimSlashesKeeps(front: string, rest: string)
    requires front != [] && front[|front| - 1] != '/'
    ensures TrimSlashes(front + rest) == front + TrimSlashes(rest)
    decreases |rest|
  {
    var s := front + rest;
    if rest == [] {
      assert s == front;
    } else if rest[|rest| - 1] == '/' {
      assert s[..|s| - 1] == front + rest[..|rest| - 1];
      TrimSlashesKeeps(front, rest[..|rest| - 1]);
    }
  }

  // ---- The spliced URL ----

  /** The scheme of the WebSocket URL. */
  function WsScheme(scheme: string): string {
    if scheme == "https" then "wss" else if scheme == "http" then "ws" else scheme
  }

  lemma {:induction false} PrefixIsScheme(s: string, scheme: string, rest: string, known: string)
    requires SplitScheme(s) == Some((scheme, rest)) && ':' !in known
    ensures Glue(known, "") <= s <==> scheme == known
    ensures scheme == known ==> s[|known| + 3..] == rest
  {
    if Glue(known, "") <= s {
      assert s == Glue(known, s[|known| + 3..]);
      KnownScheme(known, s[|known| + 3..]);
    }
  }

  /** The WebSocket form of a URL with a scheme translates the scheme. */
  lemma {:induction false} WsOfSplit(s: string, scheme: string, rest: string)
    requires SplitScheme(s) == Some((scheme, rest))
    ensures WsBase(s) == Glue(WsScheme(scheme), rest)
    ensures SplitScheme(WsBase(s)) == Some((WsScheme(scheme), rest))
  {
    PrefixIsScheme(s, scheme, rest, "https");
    PrefixIsScheme(s, scheme, rest, "http");
    if scheme == "https" || scheme == "http" {
      KnownScheme(WsScheme(scheme), rest);
    }
  }

  lemma {:induction false} FindSkips(front: string, rest: string, p: char -> bool)
    requires forall c :: c in front ==> !p(c)
    ensures Find(front + rest, p) == |front| + Find(rest, p)
  {
    if front == [] {
      assert front + rest == rest;
    } else {
      assert front[0] in front;
      assert (front + rest)[1..] == front[1..] + rest;
      FindSkips(front[1..], rest, p);
    }
  }

  /** The authority without its userinfo. */
  function Host(authority: string): string {
    var at := LastAt(authority);
    if at == |authority| then authority else authority[at + 1..]
  }

  lemma {:induction false} LastAtUnique(s: string, i: nat)
    requires i < |s| && s[i] == '@' && '@' !in s[i + 1..]
    ensures LastAt(s) == i
  {
    forall k | i < k < |s|
      ensures s[k] != '@'
    {
      assert s[k] == s[i + 1..][k - i - 1];
    }
    var l := LastAt(s);
    forall k | l < k < |s|
      ensures s[k] != '@'
    {
      assert s[k] == s[l + 1..][k - l - 1];
    }
  }

  /** Credentials in front of an authority are what the last '@' cuts off, unless the authority
      has credentials of its own. */
  lemma {:induction false} HostBehind(creds: string, authority: string)
    requires creds != [] && creds[|creds| - 1] == '@'
    ensures
      var at := LastAt(creds + authority);
      at < |creds + authority| && (creds + authority)[at + 1..] == Host(authority)
  {
    var all, at := creds + authority, LastAt(authority);
    if at == |authority| {
      assert all[|creds|..] == authority;
      LastAtUnique(all, |creds| - 1);
    } else {
      assert all[|creds| + at + 1..] == authority[at + 1..];
      LastAtUnique(all, |creds| + at);
    }
  }

  function ShownParts(scheme: string, host: string, tail: string): string {
    scheme + "://***@" + host + tail
  }

  /** What a redacted URL shows: scheme, host and tail. */
  function Shown(scheme: string, rest: string): string {
    var end := Find(rest, EndsAuthority);
    ShownParts(scheme, Host(rest[..end]), rest[end..])
  }

  /** The authority has credentials, and behind them the host; the tail follows. */
  predicate PartsOf(all: string, host: string, tail: string) {
    var end := Find(all, EndsAuthority);
    var at := LastAt(all[..end]);
    at < end && all[at + 1..end] == host && all[end..] == tail
  }

  predicate IsCreds(creds: string) {
    creds != [] && creds[|creds| - 1] == '@' && forall c :: c in creds ==> !EndsAuthority(c)
  }

  lemma {:induction false} SlicesOfConcat(a: string, b: string, i: nat, end: nat)
    requires i <= |a| + end && end <= |b|
    ensures (a + b)[..|a| + end] == a + b[..end]
    ensures (a + b)[|a| + end..] == b[end..]
    ensures (a + b)[i..|a| + end] == (a + b[..end])[i..]
  {
    assert (a + b)[..|a| + end] == a + b[..end];
    assert (a + b)[i..|a| + end] == (a + b)[..|a| + end][i..];
  }

  /** Cutting the credentials off a spliced authority leaves the host. */
  lemma {:induction false} SplicedHost(creds: string, rest: string, all: string, end: nat)
    requires creds != [] && creds[|creds| - 1] == '@' && end <= |rest| && all == creds + rest
    ensures
      var at := LastAt(all[..|creds| + end]);
      at < |creds| + end && all[at + 1..|creds| + end] == Host(rest[..end]) && all[|creds| + end..] == rest[end..]
  {
    HostBehind(creds, rest[..end]);
    SlicesOfConcat(creds, rest, 0, end);
    SlicesOfConcat(creds, rest, LastAt(creds + rest[..end]) + 1, end);
  }

  /** Credentials do not end the authority. */
  lemma {:induction false} SplicedEnd(creds: string, rest: string, all: string, end: nat)
    requires IsCreds(creds) && end == Find(rest, EndsAuthority) && all == creds + rest
    ensures Find(all, EndsAuthority) == |creds| + end
  {
    FindSkips(creds, rest, EndsAuthority);
  }

  lemma {:induction false} PartsAt(all: string, end: nat, at: nat, host: string, tail: string)
    requires end == Find(all, EndsAuthority) <= |all| && at == LastAt(all[..end])
    requires at < end && all[at + 1..end] == host && all[end..] == tail
    ensures PartsOf(all, host, tail)
  {
  }

  lemma {:induction false} SplicedParts(creds: string, rest: string, all: string, end: nat, host: string, tail: string)
    requires IsCreds(creds) && all == creds + rest && end == Find(rest, EndsAuthority)
    requires host == Host(rest[..end]) && tail == rest[end..]
    ensures PartsOf(all, host, tail)
  {
    SplicedEnd(creds, rest, all, end);
    SplicedHost(creds, rest, all, end);
    PartsAt(all, |creds| + end, LastAt(all[..|creds| + end]), host, tail);
  }

  lemma {:induction false} RedactedParts(s: string, scheme: string, all: string, host: string, tail: string)
    requires SplitScheme(s) == Some((scheme, all)) && PartsOf(all, host, tail)
    ensures RedactUserinfo(s) == ShownParts(scheme, host, tail)
  {
  }

  /** Redacting hides whatever credentials were spliced in, and any the URL had of its own. */
  lemma {:induction false} RedactSpliced(s: string, scheme: string, creds: string, rest: string)
    requires IsCreds(creds) && SplitScheme(s) == Some((scheme, creds + rest))
    ensures RedactUserinfo(s) == Shown(scheme, rest)
  {
    var end := Find(rest, EndsAuthority);
    SplicedParts(creds, rest, creds + rest, end, Host(rest[..end]), rest[end..]);
    RedactedParts(s, scheme, creds + rest, Host(rest[..end]), rest[end..]);
  }

  function Creds(token: string): string {
    ":" + token + "@"
  }

  lemma {:induction false} CredsPlain(token: string)
    requires IsToken(token)
    ensures IsCreds(Creds(token))
  {
  }

  lemma {:induction false} GlueAssoc(scheme: string, front: string, back: string)
    ensures Glue(scheme, front + back) == Glue(scheme, front) + back
  {
  }

  lemma {:induction false} ConcatAssoc(a: string, b: string, c: string)
    ensures a + b + c == a + (b + c)
  {
  }

  /** Trailing slashes are cut from the rest only. */
  lemma {:induction false} TrimSpliced(scheme: string, creds: string, rest: string)
    requires IsCreds(creds)
    ensures TrimSlashes(Glue(scheme, creds + rest)) == Glue(scheme, creds + TrimSlashes(rest))
  {
    var front := Glue(scheme, creds);
    GlueAssoc(scheme, creds, rest);
    GlueAssoc(scheme, creds, TrimSlashes(rest));
    assert front[|front| - 1] == creds[|creds| - 1];
    TrimSlashesKeeps(front, rest);
  }

  /** Appending to a URL appends to its rest. */
  lemma {:induction false} Extended(url: string, scheme: string, rest: string, more: string)
    requires url == Glue(scheme, rest) && SplitScheme(url) == Some((scheme, rest))
    ensures SplitScheme(url + more) == Some((scheme, rest + more))
  {
    GlueAssoc(scheme, rest, more);
    SchemeIndependent(url, scheme, rest, rest + more);
  }

  /** The WebSocket URL of a spliced URL. */
  lemma {:induction false} WsOfSpliced(url: string, scheme: string, creds: string, rest: string)
    requires SplitScheme(url) == Some((scheme, rest)) && IsCreds(creds)
    ensures
      var ws := DeriveWsUrl(Glue(scheme, creds + rest));
      SplitScheme(ws) == Some((WsScheme(scheme), creds + (TrimSlashes(rest) + "/websocket")))
  {
    var body := creds + TrimSlashes(rest);
    TrimSpliced(scheme, creds, rest);
    SchemeIndependent(url, scheme, rest, body);
    WsOfSplit(Glue(scheme, body), scheme, body);
    Extended(WsBase(Glue(scheme, body)), WsScheme(scheme), body, "/websocket");
    ConcatAssoc(creds, TrimSlashes(rest), "/websocket");
  }

  /** A token never shows: whatever valid token is spliced into a URL, the redacted WebSocket URL
      is the same string, which keeps the URL's host and tail. */
  lemma {:induction false} TokenNeverShows(url: string, token: string)
    requires IsToken(token) && SplitScheme(url).Some?
    ensures
      var (scheme, rest) := SplitScheme(url).value;
      var spliced := WithAuthToken(url, Some(token));
      && spliced.Ok?
      && RedactUserinfo(DeriveWsUrl(spliced.value))
         == Shown(WsScheme(scheme), TrimSlashes(rest) + "/websocket")
  {
    var (scheme, rest) := SplitScheme(url).value;
    var creds := Creds(token);
    CredsPlain(token);
    SplicedUrl(url, token);
    WsOfSpliced(url, scheme, creds, rest);
    var shown := TrimSlashes(rest) + "/websocket";
    RedactSpliced(DeriveWsUrl(Glue(scheme, creds + rest)), WsScheme(scheme), creds, shown);
  }

  lemma {:induction false} SplicedUrl(url: string, token: string)
    requires SplitScheme(url).Some?
    ensures
      var (scheme, rest) := SplitScheme(url).value;
      WithAuthToken(url, Some(token)) == Ok(Glue(scheme, Creds(token) + rest))
  {
    var (scheme, rest) := SplitScheme(url).value;
    assert scheme + "://:" + token + "@" + rest == Glue(scheme, Creds(token) + rest);
  }

  /** Splicing fails exactly for a token on a URL without a scheme. */
  lemma {:induction false} SplicingFails(url: string, token: Option<string>)
    ensures WithAuthToken(url, token).Err? <==> token.Some? && SplitScheme(url).None?
  {
  }

  // ---- What the URL functions do to a URL, part by part ----

  /** "https" becomes "wss", "http" becomes "ws", any other scheme stays. */
  lemma SchemesTranslated(rest: string)
    ensures WsBase(Glue("https", rest)) == Glue("wss", rest)
    ensures WsBase(Glue("http", rest)) == Glue("ws", rest)
    ensures forall scheme :: scheme !in {"http", "https"} ==> WsScheme(scheme) == scheme
  {
    KnownScheme("https", rest);
    KnownScheme("http", rest);
    WsOfSplit(Glue("https", rest), "https", rest);
    WsOfSplit(Glue("http", rest), "http", rest);
  }

  /** The WebSocket URL: the scheme translated, trailing slashes dropped, "/websocket" appended. */
  lemma {:induction false} WsUrlExactly(url: string, scheme: string, rest: string)
    requires SplitScheme(url) == Some((scheme, rest)) && TrimSlashes(rest) != []
    ensures DeriveWsUrl(url) == Glue(WsScheme(scheme), TrimSlashes(rest)) + "/websocket"
  {
    var body := TrimSlashes(rest);
    TrimGlued(scheme, rest, body, rest[|body|..]);
    SchemeIndependent(url, scheme, rest, body);
    WsOfSplit(Glue(scheme, body), scheme, body);
  }

  lemma {:induction false} TrimGlued(scheme: string, rest: string, body: string, slashes: string)
    requires body == TrimSlashes(rest) != [] && rest == body + slashes
    requires forall i :: 0 <= i < |slashes| ==> slashes[i] == '/'
    ensures TrimSlashes(Glue(scheme, rest)) == Glue(scheme, body)
  {
    var front := Glue(scheme, body);
    GlueAssoc(scheme, body, slashes);
    AllSlashes(slashes);
    assert front[|front| - 1] == body[|body| - 1];
    TrimSlashesKeeps(front, slashes);
  }

  lemma {:induction false} AllSlashes(s: string)
    requires forall i :: 0 <= i < |s| ==> s[i] == '/'
    ensures TrimSlashes(s) == []
  {
    if s != [] {
      AllSlashes(s[..|s| - 1]);
    }
  }

  predicate Plain(s: string) {
    forall i :: 0 <= i < |s| ==> s[i] !in {'/', '?', '#', '@'}
  }

  predicate StartsTail(tail: string) {
    tail == [] || tail[0] in {'/', '?', '#'}
  }

  lemma EndOfAuthority(authority: string, tail: string)
    requires StartsTail(tail) && forall i :: 0 <= i < |authority| ==> authority[i] !in {'/', '?', '#'}
    ensures Find(authority + tail, EndsAuthority) == |authority|
  {
    if tail == [] {
      assert authority + tail == authority;
      assert Find(authority, EndsAuthority) == |authority|;
    } else {
      FindAt(authority, tail, EndsAuthority);
    }
  }

  /** Credentials are replaced, and nothing else: host and tail stay, whatever the tail contains. */
  lemma {:induction false} RedactExactly(url: string, scheme: string, user: string, host: string, tail: string)
    requires SplitScheme(url) == Some((scheme, user + "@" + host + tail))
    requires Plain(user) && Plain(host) && StartsTail(tail)
    ensures RedactUserinfo(url) == scheme + "://***@" + host + tail
  {
    var creds := user + "@";
    assert user + "@" + host + tail == creds + (host + tail);
    EndOfAuthority(host, tail);
    assert (host + tail)[..|host|] == host && (host + tail)[|host|..] == tail;
    PlainHasNoAt(host);
    RedactSpliced(url, scheme, creds, host + tail);
  }

  lemma {:induction false} PlainHasNoAt(host: string)
    requires Plain(host)
    ensures LastAt(host) == |host|
  {
  }

  /** A URL without credentials is left as it is. */
  lemma {:induction false} RedactLeavesPlain(url: string, scheme: string, host: string, tail: string)
    requires SplitScheme(url) == Some((scheme, host + tail)) && Plain(host) && StartsTail(tail)
    ensures RedactUserinfo(url) == url
  {
    EndOfAuthority(host, tail);
    assert (host + tail)[..|host|] == host;
    PlainHasNoAt(host);
  }
}
