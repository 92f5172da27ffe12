/** `derive_forwarding_address`: normalisation of its inputs and the preimage of the call digest.
    The hash and the bech32 encoding are arbitrary functions. */
module Derivation {
  import opened Wrappers

  type Byte = b: nat | b < 256
  type U32 = n: nat | n < 0x1_0000_0000
  type Digest = s: seq<Byte> | |s| == 32 witness Zeros(32)

  function Zeros(n: nat): (bytes: seq<Byte>)
    ensures |bytes| == n && AllZero(bytes)
  {
    if n == 0 then [] else [0] + Zeros(n - 1)
  }

  predicate AllZero(bytes: seq<Byte>) {
    forall i :: 0 <= i < |bytes| ==> bytes[i] == 0
  }

  datatype Error =
    | RecipientHex | RecipientLength(length: nat) | TokenHex | HookHex | HookLength(length: nat) | MetadataHex

  // ---- Hex ----

  function HexDigit(c: char): Option<nat> {
    if '0' <= c <= '9' then Some(c as nat - '0' as nat)
    else if 'a' <= c <= 'f' then Some(10 + (c as nat - 'a' as nat))
    else if 'A' <= c <= 'F' then Some(10 + (c as nat - 'A' as nat))
    else None
  }

  function HexDecode(s: string): Option<seq<Byte>> {
    if s == [] then Some([])
    else if |s| == 1 then None
    else
      match (HexDigit(s[0]), HexDigit(s[1]), HexDecode(s[2..]))
      case (Some(hi), Some(lo), Some(rest)) =>
        if hi < 16 && lo < 16 then Some([16 * hi + lo] + rest) else None
      case _ => None
  }

  /** All leading "0x" are dropped. */
  function Strip(s: string): string {
    if |s| >= 2 && s[0] == '0' && s[1] == 'x' then Strip(s[2..]) else s
  }

  function HexChar(d: nat): (c: char)
    requires d < 16
    ensures HexDigit(c) == Some(d)
  {
    if d < 10 then ('0' as nat + d) as char else ('a' as nat + d - 10) as char
  }

  function HexEncode(bytes: seq<Byte>): string {
    if bytes == [] then [] else [HexChar(bytes[0] / 16), HexChar(bytes[0] % 16)] + HexEncode(bytes[1..])
  }

  lemma {:induction false} HexRoundTrip(bytes: seq<Byte>)
    ensures HexDecode(HexEncode(bytes)) == Some(bytes)
    ensures Strip(HexEncode(bytes)) == HexEncode(bytes)
  {
    if bytes != [] {
      HexRoundTrip(bytes[1..]);
      var s := HexEncode(bytes);
      assert s[2..] == HexEncode(bytes[1..]);
      assert [bytes[0]] + bytes[1..] == bytes;
    }
  }

  /** Leading "0x" make no difference. */
  lemma {:induction false} StripIgnoresPrefix(s: string)
    ensures Strip("0x" + s) == Strip(s)
  {
    assert ("0x" + s)[2..] == s;
  }

  predicate IsHexDigit(c: char) {
    '0' <= c <= '9' || 'a' <= c <= 'f' || 'A' <= c <= 'F'
  }

  lemma HexDigitExactly(c: char)
    ensures HexDigit(c).Some? <==> IsHexDigit(c)
    ensures HexDigit(c).Some? ==> HexDigit(c).value < 16
  {
  }

  predicate IsHex(s: string) {
    |s| % 2 == 0 && forall i :: 0 <= i < |s| ==> IsHexDigit(s[i])
  }

  lemma {:induction false} IsHexRest(s: string)
    requires |s| >= 2
    ensures IsHex(s) <==> IsHexDigit(s[0]) && IsHexDigit(s[1]) && IsHex(s[2..])
  {
    assert forall i :: 0 <= i < |s| - 2 ==> s[2..][i] == s[i + 2];
    if IsHexDigit(s[0]) && IsHexDigit(s[1]) && IsHex(s[2..]) {
      forall i | 0 <= i < |s|
        ensures IsHexDigit(s[i])
      {
        assert i >= 2 ==> IsHexDigit(s[2..][i - 2]);
      }
    }
  }

  /** Decoding succeeds exactly on an even number of hex digits, and yields half as many bytes. */
  lemma {:induction false} DecodesExactly(s: string)
    ensures HexDecode(s).Some? <==> IsHex(s)
    ensures HexDecode(s).Some? ==> |HexDecode(s).value| == |s| / 2
    decreases |s|
  {
    if |s| >= 2 {
      DecodesExactly(s[2..]);
      HexDigitExactly(s[0]);
      HexDigitExactly(s[1]);
      IsHexRest(s);
    }
  }

  function UpperDigit(c: char): char {
    if 97 <= c as nat <= 102 then (c as nat - 32) as char else c
  }

  function Upper(s: string): string {
    if s == [] then [] else [UpperDigit(s[0])] + Upper(s[1..])
  }

  /** Upper and lower case digits mean the same. */
  lemma {:induction false} DecodeIgnoresCase(s: string)
    ensures |Upper(s)| == |s| && HexDecode(Upper(s)) == HexDecode(s)
    decreases |s|
  {
    if |s| == 1 {
      assert |Upper(s)| == 1;
    } else if |s| >= 2 {
      var u := Upper(s);
      assert s[1..][1..] == s[2..];
      assert Upper(s[1..]) == [UpperDigit(s[1])] + Upper(s[2..]);
      assert u == [UpperDigit(s[0])] + Upper(s[1..]);
      assert u[2..] == Upper(s[2..]);
      DecodeIgnoresCase(s[2..]);
    }
  }

  // ---- Inputs and their normal form ----

  datatype Params = Params(domain: U32, recipient: string, token: string, hook: Option<string>, metadata: Option<string>)

  /** Decoded inputs; absent, empty and all-zero hooks are `None`, as is empty metadata. */
  datatype Normal = Normal(domain: U32, recipient: seq<Byte>, token: seq<Byte>, hook: Option<seq<Byte>>, metadata: Option<seq<Byte>>)

  function NormalHook(hook: Option<string>): Result<Option<seq<Byte>>, Error> {
    if hook.None? || Strip(hook.value) == [] then Ok(None)
    else
      match HexDecode(Strip(hook.value))
      case None => Err(HookHex)
      case Some(bytes) =>
        if |bytes| != 32 then Err(HookLength(|bytes|)) else Ok(if AllZero(bytes) then None else Some(bytes))
  }

  function NormalMetadata(metadata: Option<string>): Result<Option<seq<Byte>>, Error> {
    if metadata.None? || Strip(metadata.value) == [] then Ok(None)
    else
      match HexDecode(Strip(metadata.value))
      case None => Err(MetadataHex)
      case Some(bytes) => Ok(Some(bytes))
  }

  /** Inputs are checked in the order recipient, token, hook, metadata. */
  function Normalise(p: Params): Result<Normal, Error> {
    match HexDecode(Strip(p.recipient))
    case None => Err(RecipientHex)
    case Some(recipient) =>
      if |recipient| != 32 then Err(RecipientLength(|recipient|)) else
      match HexDecode(Strip(p.token))
      case None => Err(TokenHex)
      case Some(token) =>
        match NormalHook(p.hook)
        case Err(e) => Err(e)
        case Ok(hook) =>
          match NormalMetadata(p.metadata)
          case Err(e) => Err(e)
          case Ok(metadata) => Ok(Normal(p.domain, recipient, token, hook, metadata))
  }

  /** The normal forms of accepted inputs. */
  predicate Canonical(n: Normal) {
    && |n.recipient| == 32
    && (n.hook.Some? ==> |n.hook.value| == 32 && !AllZero(n.hook.value))
    && (n.metadata.Some? ==> n.metadata.value != [])
  }

  lemma {:induction false} DecodedNonEmpty(s: string)
    requires s != [] && HexDecode(s).Some?
    ensures HexDecode(s).value != []
  {
  }

  lemma NormaliseCanonical(p: Params)
    requires Normalise(p).Ok?
    ensures Canonical(Normalise(p).value)
  {
    if NormalMetadata(p.metadata).Ok? && NormalMetadata(p.metadata).value.Some? {
      DecodedNonEmpty(Strip(p.metadata.value));
    }
  }

  /** 32 bytes in hex. */
  predicate IsWord(s: string) {
    |s| == 64 && IsHex(s)
  }

  /** Exactly which inputs are accepted; absent and empty hooks and metadata are. */
  lemma AcceptedExactly(p: Params)
    ensures
      Normalise(p).Ok?
      <==>
      && IsWord(Strip(p.recipient))
      && IsHex(Strip(p.token))
      && (p.hook.None? || Strip(p.hook.value) == [] || IsWord(Strip(p.hook.value)))
      && (p.metadata.None? || IsHex(Strip(p.metadata.value)))
  {
    DecodesExactly(Strip(p.recipient));
    DecodesExactly(Strip(p.token));
    if p.hook.Some? {
      DecodesExactly(Strip(p.hook.value));
    }
    if p.metadata.Some? {
      DecodesExactly(Strip(p.metadata.value));
    }
  }

  /** The default hook: absent, empty, or 32 zero bytes. */
  lemma DefaultHooks()
    ensures NormalHook(None) == NormalHook(Some("")) == NormalHook(Some("0x")) == Ok(None)
    ensures NormalHook(Some(HexEncode(Zeros(32)))) == Ok(None)
  {
    StripIgnoresPrefix("");
    assert "0x" + "" == "0x";
    HexRoundTrip(Zeros(32));
  }

  function Prefixed(s: Option<string>): Option<string> {
    if s.None? then None else Some("0x" + s.value)
  }

  /** Any field may be written with "0x" in front. */
  lemma PrefixesIgnored(p: Params)
    ensures Normalise(Params(p.domain, "0x" + p.recipient, "0x" + p.token, Prefixed(p.hook), Prefixed(p.metadata)))
            == Normalise(p)
  {
    StripIgnoresPrefix(p.recipient);
    StripIgnoresPrefix(p.token);
    if p.hook.Some? {
      StripIgnoresPrefix(p.hook.value);
    }
    if p.metadata.Some? {
      StripIgnoresPrefix(p.metadata.value);
    }
  }

  /** A plain spelling of a normal form. */
  function Spell(n: Normal): Params {
    Params(n.domain, HexEncode(n.recipient), HexEncode(n.token),
           if n.hook.Some? then Some(HexEncode(n.hook.value)) else None,
           if n.metadata.Some? then Some(HexEncode(n.metadata.value)) else None)
  }

  /** Every canonical tuple is the normal form of some accepted input. */
  lemma SpellRoundTrip(n: Normal)
    requires Canonical(n)
    ensures Normalise(Spell(n)) == Ok(n)
  {
    HexRoundTrip(n.recipient);
    HexRoundTrip(n.token);
    if n.hook.Some? {
      HexRoundTrip(n.hook.value);
    }
    if n.metadata.Some? {
      HexRoundTrip(n.metadata.value);
    }
  }

  // ---- The preimage ----

  function BigEndian(n: U32): (bytes: seq<Byte>)
    ensures |bytes| == 4
  {
    [n / 0x100_0000, n / 0x1_0000 % 256, n / 0x100 % 256, n % 256]
  }

  /** 32 bytes, the domain right-aligned. */
  function DomainBytes(domain: U32): seq<Byte> {
    Zeros(28) + BigEndian(domain)
  }

  predicate Bound(n: Normal) {
    n.hook.Some? || n.metadata.Some?
  }

  /** What a bound address commits to beyond domain, recipient and token. */
  function Binding(n: Normal): seq<Byte> {
    if Bound(n) then
      (if n.hook.Some? then n.hook.value else Zeros(32)) + (if n.metadata.Some? then n.metadata.value else [])
    else []
  }

  function Preimage(n: Normal): seq<Byte> {
    DomainBytes(n.domain) + n.recipient + n.token + Binding(n)
  }

  lemma {:induction false} RightAligned(bytes: seq<Byte>, be: seq<Byte>)
    requires |bytes| == 32 && |be| == 4 && forall k :: 0 <= k < 28 ==> bytes[k] == 0
    requires bytes[28] == be[0] && bytes[29] == be[1] && bytes[30] == be[2] && bytes[31] == be[3]
    ensures bytes == Zeros(28) + be
  {
    assert bytes[28..] == be;
    assert bytes[..28] == Zeros(28);
    assert bytes == bytes[..28] + bytes[28..];
  }

  /** The hasher's input, filled step by step as the source does. */
  method FeedHasher(n: Normal) returns (fed: seq<Byte>)
    ensures fed == Preimage(n)
  {
    var domainBytes := new Byte[32](i => 0);
    var be := BigEndian(n.domain);
    domainBytes[28], domainBytes[29], domainBytes[30], domainBytes[31] := be[0], be[1], be[2], be[3];
    RightAligned(domainBytes[..], be);
    fed := domainBytes[..];
    fed := fed + n.recipient;
    fed := fed + n.token;
    if n.hook.Some? || n.metadata.Some? {
      fed := fed + if n.hook.Some? then n.hook.value else Zeros(32);
      fed := fed + if n.metadata.Some? then n.metadata.value else [];
    }
  }

  function FromBigEndian(bytes: seq<Byte>): nat
    requires |bytes| == 4
  {
    var a: nat, b: nat, c: nat, d: nat := bytes[0], bytes[1], bytes[2], bytes[3];
    0x100_0000 * a + 0x1_0000 * b + 0x100 * c + d
  }

  lemma BigEndianRoundTrip(n: U32)
    ensures FromBigEndian(BigEndian(n)) == n
  {
    var q := n / 0x100;
    var r := q / 0x100;
    assert n / 0x1_0000 == r && r / 0x100 == n / 0x100_0000;
    assert n == 0x100 * q + n % 256 && q == 0x100 * r + q % 256 && r == 0x100 * (r / 0x100) + r % 256;
  }

  /** The binding determines hook and metadata. */
  lemma BindingInjective(m: Normal, n: Normal)
    requires Canonical(m) && Canonical(n) && Binding(m) == Binding(n)
    ensures m.hook == n.hook && m.metadata == n.metadata
  {
    if Bound(m) {
      assert |Binding(m)| >= 32;
      assert Bound(n);
      var hookM := if m.hook.Some? then m.hook.value else Zeros(32);
      var hookN := if n.hook.Some? then n.hook.value else Zeros(32);
      assert hookM == Binding(m)[..32] == Binding(n)[..32] == hookN;
      var metaM := if m.metadata.Some? then m.metadata.value else [];
      var metaN := if n.metadata.Some? then n.metadata.value else [];
      assert metaM == Binding(m)[32..] == Binding(n)[32..] == metaN;
    } else {
      assert Binding(m) == [];
      assert !Bound(n);
    }
  }

  /** Inputs with the same preimage agree on domain, recipient and what follows; their normal forms
      are equal exactly when the token ids have the same length. */
  lemma PreimageDetermines(m: Normal, n: Normal)
    requires Canonical(m) && Canonical(n) && Preimage(m) == Preimage(n)
    ensures m.domain == n.domain && m.recipient == n.recipient
    ensures m.token + Binding(m) == n.token + Binding(n)
    ensures m == n <==> |m.token| == |n.token|
  {
    PreimageParts(m);
    PreimageParts(n);
    BigEndianRoundTrip(m.domain);
    BigEndianRoundTrip(n.domain);
    if |m.token| == |n.token| {
      SplitEqual(m.token, Binding(m), n.token, Binding(n));
      BindingInjective(m, n);
    }
  }

  lemma PreimageParts(n: Normal)
    requires Canonical(n)
    ensures
      var p := Preimage(n);
      && |p| >= 64
      && p[28..32] == BigEndian(n.domain)
      && p[32..64] == n.recipient
      && p[64..] == n.token + Binding(n)
  {
    var tail := n.token + Binding(n);
    assert Preimage(n) == DomainBytes(n.domain) + n.recipient + tail;
  }

  /** The layout, byte by byte: 28 zeros, the domain in big-endian order, recipient, token; in a
      bound preimage then 32 bytes of hook, zeros if there is none, and the metadata. */
  lemma PreimageLayout(n: Normal)
    requires Canonical(n)
    ensures
      var p, t := Preimage(n), 64 + |n.token|;
      && |p| == (if Bound(n) then t + 32 + (if n.metadata.Some? then |n.metadata.value| else 0) else t)
      && AllZero(p[..28]) && FromBigEndian(p[28..32]) == n.domain
      && p[32..64] == n.recipient && p[64..t] == n.token
      && (Bound(n) ==>
            && (if n.hook.Some? then p[t..t + 32] == n.hook.value else AllZero(p[t..t + 32]))
            && p[t + 32..] == if n.metadata.Some? then n.metadata.value else [])
  {
    var p, t := Preimage(n), 64 + |n.token|;
    PreimageParts(n);
    BigEndianRoundTrip(n.domain);
    assert p[..28] == Zeros(28);
    assert p[64..][..|n.token|] == p[64..t] == n.token;
    if Bound(n) {
      var hook := if n.hook.Some? then n.hook.value else Zeros(32);
      var metadata := if n.metadata.Some? then n.metadata.value else [];
      assert p[t..] == Binding(n) == hook + metadata;
      assert p[t..][..32] == p[t..t + 32] == hook;
      assert p[t..][32..] == p[t + 32..] == metadata;
    }
  }

  lemma {:induction false} SplitEqual(a: seq<Byte>, b: seq<Byte>, c: seq<Byte>, d: seq<Byte>)
    requires a + b == c + d && |a| == |c|
    ensures a == c && b == d
  {
    assert a == (a + b)[..|a|] == (c + d)[..|c|] == c;
    assert b == (a + b)[|a|..] == (c + d)[|c|..] == d;
  }

  /** The unbound tuple whose token id swallows the binding. */
  function Swallowed(n: Normal): Normal {
    Normal(n.domain, n.recipient, n.token + Binding(n), None, None)
  }

  lemma {:induction false} Reassociate(a: seq<Byte>, b: seq<Byte>, c: seq<Byte>)
    ensures a + (b + c) + [] == a + b + c
  {
  }

  lemma SwallowedPreimage(n: Normal)
    ensures Preimage(Swallowed(n)) == Preimage(n)
  {
    assert Binding(Swallowed(n)) == [];
    Reassociate(DomainBytes(n.domain) + n.recipient, n.token, Binding(n));
  }

  /** Without equal lengths the preimage is ambiguous: every bound tuple shares its preimage with an
      unbound one, and both are accepted inputs. */
  lemma LongTokenCollides(n: Normal)
    requires Canonical(n) && Bound(n)
    ensures Swallowed(n) != n && Preimage(Swallowed(n)) == Preimage(n)
    ensures Normalise(Spell(Swallowed(n))) == Ok(Swallowed(n)) && Normalise(Spell(n)) == Ok(n)
  {
    SwallowedPreimage(n);
    SpellRoundTrip(Swallowed(n));
    SpellRoundTrip(n);
  }

  // ---- The address ----

  /** The hash and the bech32 encoding with the "celestia" prefix. */
  datatype Hashes = Hashes(sha: seq<Byte> -> Digest, bech32: seq<Byte> -> string)

  const MODULE: seq<Byte> := [109, 111, 100, 117, 108, 101]
  const FORWARDING: seq<Byte> := [102, 111, 114, 119, 97, 114, 100, 105, 110, 103]

  function Salt(h: Hashes, preimage: seq<Byte>): Digest {
    h.sha([1] + h.sha(preimage))
  }

  function Account(h: Hashes, preimage: seq<Byte>): seq<Byte> {
    h.sha(h.sha(MODULE) + FORWARDING + [0] + Salt(h, preimage))[..20]
  }

  function AddressOf(h: Hashes, preimage: seq<Byte>): string {
    h.bech32(Account(h, preimage))
  }

  function Derive(h: Hashes, p: Params): Result<string, Error> {
    match Normalise(p)
    case Err(e) => Err(e)
    case Ok(n) => Ok(AddressOf(h, Preimage(n)))
  }

  // ---- What the address commits to ----

  function Ascii(s: string): seq<Byte>
    requires forall i :: 0 <= i < |s| ==> s[i] as nat < 128
  {
    if s == [] then [] else [s[0] as nat] + Ascii(s[1..])
  }

  /** The address of a module account under a name and a key. */
  function ModuleAccount(h: Hashes, name: seq<Byte>, key: seq<Byte>): seq<Byte> {
    h.sha(h.sha(Ascii("module")) + (name + [0] + key))[..20]
  }

  /** It is the "forwarding" module's account under the version 1 salt of the call digest. */
  lemma {:induction false} AddressIsModuleAccount(h: Hashes, preimage: seq<Byte>)
    ensures AddressOf(h, preimage) == h.bech32(ModuleAccount(h, Ascii("forwarding"), h.sha([1] + h.sha(preimage))))
  {
    AsciiModule();
    AsciiForwarding();
    var key := Salt(h, preimage);
    assert h.sha(MODULE) + FORWARDING + [0] + key == h.sha(MODULE) + (FORWARDING + [0] + key);
  }

  lemma {:induction false} AsciiAt(s: string)
    requires forall i :: 0 <= i < |s| ==> s[i] as nat < 128
    ensures |Ascii(s)| == |s| && forall i :: 0 <= i < |s| ==> Ascii(s)[i] == s[i] as nat
  {
    if s != [] {
      AsciiAt(s[1..]);
    }
  }

  lemma AsciiModule()
    ensures Ascii("module") == MODULE
  {
    AsciiAt("module");
  }

  lemma AsciiForwarding()
    ensures Ascii("forwarding") == FORWARDING
  {
    AsciiAt("forwarding");
  }

  /** Somewhere on the way from two different preimages to their addresses, different inputs of the
      hash, of its truncation or of the encoding have the same result. */
  predicate Collide(h: Hashes, x: seq<Byte>, y: seq<Byte>) {
    || (x != y && h.sha(x) == h.sha(y))
    || (h.sha(x) != h.sha(y) && Salt(h, x) == Salt(h, y))
    || (Salt(h, x) != Salt(h, y) && Account(h, x) == Account(h, y))
    || (Account(h, x) != Account(h, y) && AddressOf(h, x) == AddressOf(h, y))
  }

  /** An address commits to its tuple: two accepted inputs, with token ids of the same length, derive
      the same address exactly when their normal forms are equal or their preimages collide. */
  lemma AddressCommits(h: Hashes, p: Params, q: Params)
    requires Normalise(p).Ok? && Normalise(q).Ok?
    requires |Normalise(p).value.token| == |Normalise(q).value.token|
    ensures
      var x, y := Preimage(Normalise(p).value), Preimage(Normalise(q).value);
      Derive(h, p) == Derive(h, q) ==> Normalise(p) == Normalise(q) || Collide(h, x, y)
    ensures Normalise(p) == Normalise(q) ==> Derive(h, p) == Derive(h, q)
  {
    var m, n := Normalise(p).value, Normalise(q).value;
    NormaliseCanonical(p);
    NormaliseCanonical(q);
    if Derive(h, p) == Derive(h, q) && Preimage(m) == Preimage(n) {
      PreimageDetermines(m, n);
    }
  }
}
