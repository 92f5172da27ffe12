/** The backoff schedule, the entry a failure writes, and the retirement rule. */
module Backoff {
  import opened Wrappers
  import opened Forwarding

  const SCHEDULE: seq<nat> := [30, 60, 300, 1800, 3600]

  /** Seconds to wait after `failures` failed submissions. */
  function RetryDelay(failures: nat): nat {
    var step := if failures == 0 then 0 else failures - 1;
    SCHEDULE[if step < |SCHEDULE| then step else |SCHEDULE| - 1]
  }

  /** Total delay scheduled by the first `n` consecutive failures. */
  function TotalDelay(n: nat): nat {
    if n == 0 then 0 else TotalDelay(n - 1) + RetryDelay(n)
  }

  /** The total in closed form: half a minute, then one, five and thirty minutes, then an hour each. */
  lemma {:induction false} TotalDelayClosed(n: nat)
    ensures
      TotalDelay(n)
      == if n == 0 then 0 else if n == 1 then 30 else if n == 2 then 90 else if n == 3 then 390
         else 2190 + 3600 * (n - 4)
  {
    if n > 0 {
      TotalDelayClosed(n - 1);
    }
  }

  /** The delays never decrease, and never exceed an hour. */
  lemma DelaysGrow(m: nat, n: nat)
    requires m <= n
    ensures 30 <= RetryDelay(m) <= RetryDelay(n) <= 3600
  {
    assert forall i, j :: 0 <= i <= j < |SCHEDULE| ==> SCHEDULE[i] <= SCHEDULE[j];
  }

  function Failures(entries: map<Addr, Retry>, a: Addr): nat {
    if a in entries then entries[a].failures else 0
  }

  /** The entry `note_failure` writes, given the entries it read and the time it read. */
  function NextRetry(entries: map<Addr, Retry>, a: Addr, now: nat): Retry {
    var failures := Failures(entries, a) + 1;
    Retry(failures, now + RetryDelay(failures))
  }

  // ---- Retirement ----

  const TWO_63: nat := 0x8000_0000_0000_0000
  const TWO_64: nat := 0x1_0000_0000_0000_0000

  type I64 = i: int | -0x8000_0000_0000_0000 <= i < 0x8000_0000_0000_0000

  /** `x as i64` for a `u64` value. */
  function AsI64(x: nat): I64
    requires x < TWO_64
  {
    if x < TWO_63 then x else x - TWO_64
  }

  datatype RetireReason = Unfunded(age: nat) | Inactive(idle: nat)

  function Since(now: nat, then_: nat): nat {
    if now < then_ then 0 else now - then_
  }

  /** `created` is `None` when the timestamp does not parse. */
  function RetirementReason(created: Option<nat>, lastActivity: Option<nat>, now: nat,
                            maxAge: nat, maxIdle: nat): Option<RetireReason>
    requires maxAge < TWO_64 && maxIdle < TWO_64
  {
    match lastActivity
    case None =>
      if created.None? then None else
      var age := Since(now, created.value);
      if age > AsI64(maxAge) then Some(Unfunded(age)) else None
    case Some(last) =>
      var idle := Since(now, last);
      if idle > AsI64(maxIdle) then Some(Inactive(idle)) else None
  }

  /** With limits below 2^63, an active address is retired exactly when it has been idle for longer
      than the idle limit, and a never-active one exactly when its timestamp parses and is older
      than the age limit; a limit from 2^63 on is read as negative and retires at once. */
  lemma RetirementExactly(created: Option<nat>, last: Option<nat>, now: nat, maxAge: nat, maxIdle: nat)
    requires maxAge < TWO_64 && maxIdle < TWO_64
    ensures
      RetirementReason(created, last, now, maxAge, maxIdle).Some?
      <==>
      if last.Some? then maxIdle >= TWO_63 || last.value + maxIdle < now
      else created.Some? && (maxAge >= TWO_63 || created.value + maxAge < now)
    ensures
      match RetirementReason(created, last, now, maxAge, maxIdle)
      case None => true
      case Some(Inactive(idle)) => last.Some? && (last.value <= now ==> last.value + idle == now)
      case Some(Unfunded(age)) => last.None? && created.Some? && (created.value <= now ==> created.value + age == now)
  {
  }
}
