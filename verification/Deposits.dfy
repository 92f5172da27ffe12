/** `deposits_from_events`: one deposit per recipient of the bank events of a block. */
module Deposits {
  import opened Wrappers
  import opened Text

  /** Key and value are `None` where the bytes are not valid text. */
  datatype Attribute = Attribute(key: Option<string>, value: Option<string>)
  datatype Event = Event(kind: string, attributes: seq<Attribute>)
  datatype Balance = Balance(denom: string, amount: string)
  datatype Deposit = Deposit(recipient: string, coins: seq<Balance>)

  // ---- The coins string ----

  predicate IsDigit(c: char) { '0' <= c <= '9' }

  /** The leading digits are the amount, the rest the denom; both must be there. */
  function ParseCoin(token: string): Option<Balance> {
    var t := Trim(token);
    var split := Find(t, c => !IsDigit(c));
    if split == |t| || split == 0 then None else Some(Balance(t[split..], t[..split]))
  }

  /** The parts that parse; others are dropped. */
  function CoinsOf(parts: seq<string>): seq<Balance> {
    if parts == [] then []
    else
      match ParseCoin(parts[0])
      case None => CoinsOf(parts[1..])
      case Some(coin) => [coin] + CoinsOf(parts[1..])
  }

  function ParseCoins(amount: string): seq<Balance> {
    CoinsOf(Split(amount, ','))
  }

  // ---- One event ----

  /** The attribute that names the recipient; other kinds are not deposits. */
  function RecipientKey(kind: string): Option<string> {
    if kind == "coin_received" then Some("receiver")
    else if kind == "transfer" then Some("recipient")
    else None
  }

  /** The value of the last attribute with this key, if it is text. */
  function LastValue(attributes: seq<Attribute>, key: string): Option<string> {
    if attributes == [] then None
    else
      var last := attributes[|attributes| - 1];
      if last.key == Some(key) then last.value else LastValue(attributes[..|attributes| - 1], key)
  }

  function Recipient(event: Event): Option<string> {
    match RecipientKey(event.kind)
    case None => None
    case Some(key) => LastValue(event.attributes, key)
  }

  function Coins(event: Event): seq<Balance> {
    match LastValue(event.attributes, "amount")
    case None => []
    case Some(amount) => ParseCoins(amount)
  }

  method ReadEvent(event: Event) returns (recipient: Option<string>, coins: seq<Balance>)
    ensures recipient == Recipient(event)
    ensures coins == Coins(event)
  {
    var key := RecipientKey(event.kind);
    recipient := None;
    var amount := None;
    for i := 0 to |event.attributes|
      invariant key.Some? ==> recipient == LastValue(event.attributes[..i], key.value)
      invariant key.None? ==> recipient.None?
      invariant amount == LastValue(event.attributes[..i], "amount")
    {
      var attribute := event.attributes[i];
      assert event.attributes[..i + 1][..i] == event.attributes[..i];
      if key.Some? && attribute.key == key {
        recipient := attribute.value;
      } else if attribute.key == Some("amount") {
        amount := attribute.value;
      }
    }
    assert event.attributes[..|event.attributes|] == event.attributes;
    coins := [];
    if amount.Some? {
      coins := ParseCoins(amount.value);
    }
  }

  /** Place `k` holds the last attribute with this key. */
  predicate IsLast(attributes: seq<Attribute>, key: string, k: int) {
    && 0 <= k < |attributes| && attributes[k].key == Some(key)
    && forall j :: k < j < |attributes| ==> attributes[j].key != Some(key)
  }

  lemma {:induction false} LastValueMeans(attributes: seq<Attribute>, key: string, v: string)
    ensures LastValue(attributes, key) == Some(v)
            <==> exists k :: IsLast(attributes, key, k) && attributes[k].value == Some(v)
  {
    if attributes != [] {
      var n := |attributes| - 1;
      if attributes[n].key == Some(key) {
        assert IsLast(attributes, key, n);
      } else {
        var front := attributes[..n];
        LastValueMeans(front, key, v);
        assert forall k :: IsLast(front, key, k) <==> IsLast(attributes, key, k);
      }
    }
  }

  /** An event names a recipient exactly when it is a bank event of one of the two kinds, and its last
      attribute with the key of that kind has it. */
  lemma {:induction false} RecipientExactly(event: Event, r: string)
    ensures
      Recipient(event) == Some(r)
      <==>
      || (event.kind == "coin_received"
          && exists k :: IsLast(event.attributes, "receiver", k) && event.attributes[k].value == Some(r))
      || (event.kind == "transfer"
          && exists k :: IsLast(event.attributes, "recipient", k) && event.attributes[k].value == Some(r))
  {
    LastValueMeans(event.attributes, "receiver", r);
    LastValueMeans(event.attributes, "recipient", r);
  }

  // ---- Coins, there and back ----

  function RenderCoin(coin: Balance): string {
    coin.amount + coin.denom
  }

  /** Some digits, '0' to '9', and a denom that does not start with one. */
  predicate SplitsAtDenom(amount: string, denom: string) {
    && amount != [] && (forall i :: 0 <= i < |amount| ==> 48 <= amount[i] as nat <= 57)
    && denom != [] && !(48 <= denom[0] as nat <= 57)
  }

  /** A coin is parsed exactly when, without white space around it, it consists of digits and a denom. */
  lemma {:induction false} ParseCoinExactly(token: string)
    ensures
      match ParseCoin(token)
      case Some(coin) => SplitsAtDenom(coin.amount, coin.denom) && coin.amount + coin.denom == Trim(token)
      case None => forall amount, denom :: SplitsAtDenom(amount, denom) ==> amount + denom != Trim(token)
  {
    var t := Trim(token);
    forall amount, denom | SplitsAtDenom(amount, denom) && amount + denom == t
      ensures ParseCoin(token).Some?
    {
      FindAt(amount, denom, c => !IsDigit(c));
      assert Find(t, c => !IsDigit(c)) == |amount|;
    }
  }

  predicate IsCoin(coin: Balance) {
    && SplitsAtDenom(coin.amount, coin.denom)
    && !IsSpace(coin.denom[|coin.denom| - 1]) && ',' !in coin.denom
  }

  lemma CoinParses(coin: Balance)
    requires IsCoin(coin)
    ensures ParseCoin(RenderCoin(coin)) == Some(coin) && ',' !in RenderCoin(coin)
  {
    var t := RenderCoin(coin);
    assert t[0] == coin.amount[0] && t[|t| - 1] == coin.denom[|coin.denom| - 1];
    FindAt(coin.amount, coin.denom, c => !IsDigit(c));
    assert t[..|coin.amount|] == coin.amount && t[|coin.amount|..] == coin.denom;
  }

  function RenderedCoins(coins: seq<Balance>): seq<string> {
    if coins == [] then [] else [RenderCoin(coins[0])] + RenderedCoins(coins[1..])
  }

  lemma {:induction false} RenderedCoinsParse(coins: seq<Balance>)
    requires forall c :: c in coins ==> IsCoin(c)
    ensures CoinsOf(RenderedCoins(coins)) == coins && forall p :: p in RenderedCoins(coins) ==> ',' !in p
  {
    if coins != [] {
      assert coins[0] in coins;
      CoinParses(coins[0]);
      RenderedCoinsParse(coins[1..]);
      assert RenderedCoins(coins)[1..] == RenderedCoins(coins[1..]);
      assert coins == [coins[0]] + coins[1..];
    }
  }

  /** The round trip: coins written with commas between them parse to themselves. */
  lemma {:induction false} CoinsRoundTrip(coins: seq<Balance>)
    requires coins != [] && forall c :: c in coins ==> IsCoin(c)
    ensures ParseCoins(Join(RenderedCoins(coins), ",")) == coins
  {
    RenderedCoinsParse(coins);
    SplitOfJoin(RenderedCoins(coins), ',');
  }

  // ---- A block's events ----

  predicate Lists(deposits: seq<Deposit>, recipient: string) {
    exists i :: 0 <= i < |deposits| && deposits[i].recipient == recipient
  }

  /** One deposit per recipient, in first-seen order. */
  function DepositsOf(events: seq<Event>): seq<Deposit> {
    if events == [] then []
    else
      var n := |events| - 1;
      var earlier := DepositsOf(events[..n]);
      match Recipient(events[n])
      case None => earlier
      case Some(r) => if Lists(earlier, r) then earlier else earlier + [Deposit(r, Coins(events[n]))]
  }

  /** `deposits_from_events`, with its set of recipients seen so far. */
  method DepositsFromEvents(events: seq<Event>) returns (deposits: seq<Deposit>)
    ensures deposits == DepositsOf(events)
  {
    deposits := [];
    var seen: set<string> := {};
    for k := 0 to |events|
      invariant deposits == DepositsOf(events[..k])
      invariant forall r :: r in seen <==> Lists(deposits, r)
    {
      assert events[..k + 1][..k] == events[..k];
      var recipient, coins := ReadEvent(events[k]);
      if recipient.Some? && recipient.value !in seen {
        ListsAppend(deposits, Deposit(recipient.value, coins));
        seen := seen + {recipient.value};
        deposits := deposits + [Deposit(recipient.value, coins)];
      }
    }
    assert events[..|events|] == events;
  }

  lemma {:induction false} ListsAppend(deposits: seq<Deposit>, d: Deposit)
    ensures forall r :: Lists(deposits + [d], r) <==> Lists(deposits, r) || r == d.recipient
  {
    var more := deposits + [d];
    assert more[|deposits|] == d;
    forall r | Lists(deposits, r)
      ensures Lists(more, r)
    {
      var i :| 0 <= i < |deposits| && deposits[i].recipient == r;
      assert more[i].recipient == r;
    }
  }

  /** A recipient is listed exactly when some bank event names it. */
  lemma {:induction false} ListsExactlyRecipients(events: seq<Event>, recipient: string)
    ensures Lists(DepositsOf(events), recipient)
            <==> exists k :: 0 <= k < |events| && Recipient(events[k]) == Some(recipient)
  {
    if events != [] {
      var n := |events| - 1;
      ListsExactlyRecipients(events[..n], recipient);
      if k :| 0 <= k < n && Recipient(events[k]) == Some(recipient) {
        assert Recipient(events[..n][k]) == Some(recipient);
      }
      match Recipient(events[n]) {
        case None =>
        case Some(r) => ListsAppend(DepositsOf(events[..n]), Deposit(r, Coins(events[n])));
      }
    }
  }

  ghost predicate Distinct(deposits: seq<Deposit>) {
    forall i, j :: 0 <= i < j < |deposits| ==> deposits[i].recipient != deposits[j].recipient
  }

  /** No recipient is listed twice. */
  lemma {:induction false} RecipientsDistinct(events: seq<Event>)
    ensures Distinct(DepositsOf(events))
  {
    if events != [] {
      var n := |events| - 1;
      RecipientsDistinct(events[..n]);
      var earlier, r := DepositsOf(events[..n]), Recipient(events[n]);
      if r.Some? && !Lists(earlier, r.value) {
        assert forall i :: 0 <= i < |earlier| ==> earlier[i].recipient != r.value;
      }
    }
  }

  /** The i-th deposit stems from the first event that names its recipient. */
  lemma {:induction false} StemsFromFirstEvent(events: seq<Event>, i: nat) returns (k: nat)
    requires i < |DepositsOf(events)|
    ensures k < |events|
    ensures Recipient(events[k]) == Some(DepositsOf(events)[i].recipient)
    ensures DepositsOf(events)[i].coins == Coins(events[k])
    ensures forall j :: 0 <= j < k ==> Recipient(events[j]) != Some(DepositsOf(events)[i].recipient)
  {
    var n := |events| - 1;
    var earlier := DepositsOf(events[..n]);
    if i < |earlier| {
      k := StemsFromFirstEvent(events[..n], i);
    } else {
      k := n;
      ListsExactlyRecipients(events[..n], DepositsOf(events)[i].recipient);
      forall j | 0 <= j < n
        ensures Recipient(events[j]) != Some(DepositsOf(events)[i].recipient)
      {
        assert events[..n][j] == events[j];
      }
    }
  }

  // ---- The recipients alone ----

  /** The recipients that the first `n` events name, each once, in first-seen order. */
  function Recipients(events: seq<Event>, n: nat): seq<string>
    requires n <= |events|
  {
    if n == 0 then []
    else
      var earlier := Recipients(events, n - 1);
      match Recipient(events[n - 1])
      case None => earlier
      case Some(r) => if r in earlier then earlier else earlier + [r]
  }

  lemma {:induction false} FewRecipients(events: seq<Event>, n: nat)
    requires n <= |events|
    ensures |Recipients(events, n)| <= n
  {
    if n > 0 {
      FewRecipients(events, n - 1);
    }
  }

  lemma {:induction false} RecipientsAreNamed(events: seq<Event>, n: nat, r: string)
    requires n <= |events|
    ensures r in Recipients(events, n) <==> exists i :: 0 <= i < n && Recipient(events[i]) == Some(r)
  {
    if n > 0 {
      RecipientsAreNamed(events, n - 1, r);
    }
  }

  lemma {:induction false} RecipientsOnce(events: seq<Event>, n: nat, i: nat, j: nat)
    requires n <= |events| && i < j < |Recipients(events, n)|
    ensures Recipients(events, n)[i] != Recipients(events, n)[j]
  {
    if j < |Recipients(events, n - 1)| {
      RecipientsOnce(events, n - 1, i, j);
    }
  }

  predicate SameRecipients(deposits: seq<Deposit>, names: seq<string>) {
    |deposits| == |names| && forall i :: 0 <= i < |names| ==> deposits[i].recipient == names[i]
  }

  lemma {:induction false} ListedNames(deposits: seq<Deposit>, names: seq<string>, r: string)
    requires SameRecipients(deposits, names)
    ensures Lists(deposits, r) <==> r in names
  {
    if r in names {
      var i :| 0 <= i < |names| && names[i] == r;
      assert deposits[i].recipient == r;
    }
  }

  /** The deposits are for exactly these recipients, in this order. */
  lemma {:induction false} DepositsForRecipients(events: seq<Event>, n: nat)
    requires n <= |events|
    ensures SameRecipients(DepositsOf(events[..n]), Recipients(events, n))
  {
    if n > 0 {
      DepositsForRecipients(events, n - 1);
      assert events[..n][..n - 1] == events[..n - 1];
      var r := Recipient(events[n - 1]);
      if r.Some? {
        ListedNames(DepositsOf(events[..n - 1]), Recipients(events, n - 1), r.value);
      }
    }
  }

  predicate FirstNames(events: seq<Event>, k: nat, r: string) {
    k < |events| && Recipient(events[k]) == Some(r) && forall m :: 0 <= m < k ==> Recipient(events[m]) != Some(r)
  }

  lemma {:induction false} RecipientIsFirstNamed(events: seq<Event>, n: nat, i: nat) returns (k: nat)
    requires n <= |events| && i < |Recipients(events, n)|
    ensures k < n && FirstNames(events, k, Recipients(events, n)[i])
    ensures i == |Recipients(events, k)|
  {
    if i < |Recipients(events, n - 1)| {
      k := RecipientIsFirstNamed(events, n - 1, i);
    } else {
      k := n - 1;
      RecipientsAreNamed(events, n - 1, Recipients(events, n)[i]);
    }
  }

  lemma {:induction false} RecipientsGrow(events: seq<Event>, m: nat, n: nat)
    requires m <= n <= |events|
    ensures |Recipients(events, m)| <= |Recipients(events, n)|
  {
    if m < n {
      RecipientsGrow(events, m, n - 1);
    }
  }

  /** Deposits are in the order in which their recipients are first named. */
  lemma {:induction false} FirstSeenOrder(events: seq<Event>, i: nat, j: nat) returns (k: nat, l: nat)
    requires i < j < |DepositsOf(events)|
    ensures k < l
    ensures FirstNames(events, k, DepositsOf(events)[i].recipient)
    ensures FirstNames(events, l, DepositsOf(events)[j].recipient)
  {
    DepositsForRecipients(events, |events|);
    assert events[..|events|] == events;
    k := RecipientIsFirstNamed(events, |events|, i);
    l := RecipientIsFirstNamed(events, |events|, j);
    if l <= k {
      RecipientsGrow(events, l, k);
    }
  }
}
