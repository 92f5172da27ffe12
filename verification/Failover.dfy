/** Sticky failover over interchangeable endpoints: queries rotate within a call, a failed
    submission rotates the preference. */
module Failover {
  import opened Wrappers

  /** The endpoint `i` places after `start`. */
  function Rotate(start: nat, i: nat, count: nat): nat
    requires count > 0
  {
    (start + i) % count
  }

  lemma MulGrows(q: nat, n: nat)
    requires q >= 2
    ensures q * n >= 2 * n
  {
    assert q * n == 2 * n + (q - 2) * n;
  }

  /** A sum below twice the modulus wraps at most once. */
  lemma WrapsOnce(x: nat, n: nat)
    requires n > 0 && x < 2 * n
    ensures x % n == if x < n then x else x - n
  {
    var q, r := x / n, x % n;
    assert x == q * n + r;
    if q >= 2 {
      MulGrows(q, n);
      assert false;
    } else if q == 1 {
      assert x == n + r;
    } else {
      assert x == r;
    }
  }

  lemma RotateSmall(start: nat, i: nat, count: nat)
    requires start < count && i <= count
    ensures Rotate(start, i, count) == if start + i < count then start + i else start + i - count
  {
    WrapsOnce(start + i, count);
  }

  /** Different places in one rotation are different endpoints. */
  lemma RotateInjective(start: nat, i: nat, j: nat, count: nat)
    requires start < count && i < count && j < count && i != j
    ensures Rotate(start, i, count) != Rotate(start, j, count)
  {
    RotateSmall(start, i, count);
    RotateSmall(start, j, count);
  }

  /** Every endpoint has a place in the rotation. */
  lemma RotateOnto(start: nat, endpoint: nat, count: nat) returns (i: nat)
    requires start < count && endpoint < count
    ensures i < count && Rotate(start, i, count) == endpoint
  {
    i := if start <= endpoint then endpoint - start else endpoint + count - start;
    RotateSmall(start, i, count);
  }

  class CelestiaClient {
    const count: nat
    var current: nat

    predicate Valid()
      reads this
    {
      current < count
    }

    constructor (count: nat)
      requires count >= 1
      ensures Valid() && this.count == count && current == 0
    {
      this.count, current := count, 0;
    }

    /** `with_failover`: `answers[i]` is what endpoint `i` would answer during this call.  The
        endpoints are tried in rotation order from the preferred one until one succeeds, which
        becomes the preferred one; if none does, the preference stays. */
    method WithFailover<T>(answers: seq<Option<T>>) returns (result: Option<T>, tried: seq<nat>)
      requires Valid() && |answers| == count
      modifies this`current
      ensures Valid()
      ensures 1 <= |tried| <= count
      ensures forall k :: 0 <= k < |tried| ==> tried[k] == Rotate(old(current), k, count) && tried[k] < count
      ensures forall j, k :: 0 <= j < k < |tried| ==> tried[j] != tried[k]
      ensures forall k :: 0 <= k < |tried| - 1 ==> answers[tried[k]].None?
      ensures result == answers[tried[|tried| - 1]]
      ensures result.None? ==> |tried| == count && current == old(current)
      ensures result.Some? ==> current == tried[|tried| - 1]
      ensures result.Some? <==> exists i :: 0 <= i < count && answers[i].Some?
    {
      var start := current;
      tried := [];
      for i := 0 to count
        invariant |tried| == i && current == start
        invariant forall k :: 0 <= k < i ==> tried[k] == Rotate(start, k, count) && tried[k] < count
        invariant forall k :: 0 <= k < i ==> answers[tried[k]].None?
        invariant forall j, k :: 0 <= j < k < i ==> tried[j] != tried[k]
      {
        var idx := Rotate(start, i, count);
        forall j | 0 <= j < i
          ensures tried[j] != idx
        {
          RotateInjective(start, j, i, count);
        }
        tried := tried + [idx];
        if answers[idx].Some? {
          if idx != start {
            current := idx;
          }
          return answers[idx], tried;
        }
      }
      result := None;
      forall i | 0 <= i < count
        ensures answers[i].None?
      {
        var k := RotateOnto(start, i, count);
        assert answers[tried[k]].None?;
      }
    }

    /** `submit_forward`: one attempt on the preferred endpoint; a failure prefers the next one. */
    method SubmitForward(succeeds: bool) returns (endpoint: nat)
      requires Valid()
      modifies this`current
      ensures Valid() && endpoint == old(current)
      ensures current == if succeeds then old(current) else Rotate(old(current), 1, count)
    {
      endpoint := current;
      if !succeeds {
        if count > 1 {
          current := Rotate(current, 1, count);
        } else {
          RotateSmall(current, 1, count);
        }
      }
    }

    /** As many consecutive failed submissions as there are endpoints visit each of them, and come
        back to where they started. */
    method FailEverywhere() returns (visited: seq<nat>)
      requires Valid()
      modifies this`current
      ensures Valid() && current == old(current)
      ensures |visited| == count
      ensures forall endpoint :: 0 <= endpoint < count ==> endpoint in visited
    {
      ghost var start := current;
      visited := [];
      RotateSmall(start, 0, count);
      for i := 0 to count
        invariant |visited| == i && Valid() && current == Rotate(start, i, count)
        invariant forall k :: 0 <= k < i ==> visited[k] == Rotate(start, k, count)
      {
        RotateSmall(start, i, count);
        RotateSmall(start, i + 1, count);
        var endpoint := SubmitForward(false);
        RotateSmall(endpoint, 1, count);
        visited := visited + [endpoint];
      }
      RotateSmall(start, count, count);
      forall endpoint | 0 <= endpoint < count
        ensures endpoint in visited
      {
        var k := RotateOnto(start, endpoint, count);
        assert visited[k] == endpoint;
      }
    }
  }

  // ---- Interleaved calls on the shared preference ----

  /** Calls that have loaded the preference and not finished. */
  datatype Shared = Shared(current: nat, queries: seq<nat>, submissions: seq<nat>)

  datatype Step =
    | LoadQuery
    | Succeed(query: nat, place: nat)
    | LoadSubmission
    | Fail(submission: nat)

  predicate Enabled(s: Shared, e: Step, count: nat) {
    match e
    case Succeed(q, place) => q < |s.queries| && place < count
    case Fail(j) => j < |s.submissions|
    case _ => true
  }

  function Apply(s: Shared, e: Step, count: nat): Shared
    requires count > 0 && Enabled(s, e, count)
  {
    match e
    case LoadQuery => s.(queries := s.queries + [s.current])
    case Succeed(q, place) =>
      var idx := Rotate(s.queries[q], place, count);
      if idx != s.queries[q] then s.(current := idx) else s
    case LoadSubmission => s.(submissions := s.submissions + [s.current])
    case Fail(j) => if count > 1 then s.(current := Rotate(s.submissions[j], 1, count)) else s
  }

  /** What a step does to the shared preference.  A query that succeeds on the endpoint it loaded
      leaves it alone, whatever others have made of it; one that succeeds elsewhere prefers that
      endpoint.  A failed submission prefers the endpoint behind the one it loaded. */
  lemma StepMeans(s: Shared, e: Step, count: nat)
    requires count > 0 && InRange(s, count) && Enabled(s, e, count)
    ensures
      var s' := Apply(s, e, count);
      match e
      case LoadQuery => s' == s.(queries := s.queries + [s.current])
      case LoadSubmission => s' == s.(submissions := s.submissions + [s.current])
      case Succeed(q, place) =>
        var start := s.queries[q];
        && s' == s.(current := s'.current)
        && s'.current == if place == 0 then s.current else if start + place < count then start + place else start + place - count
      case Fail(j) =>
        var used := s.submissions[j];
        && s' == s.(current := s'.current)
        && s'.current == if count == 1 then s.current else if used == count - 1 then 0 else used + 1
  {
    match e
    case Succeed(q, place) =>
      assert s.queries[q] in s.queries;
      RotateSmall(s.queries[q], place, count);
    case Fail(j) =>
      assert s.submissions[j] in s.submissions;
      RotateSmall(s.submissions[j], 1, count);
    case _ =>
  }

  ghost predicate InRange(s: Shared, count: nat) {
    && s.current < count
    && (forall q :: q in s.queries ==> q < count)
    && (forall q :: q in s.submissions ==> q < count)
  }

  /** However calls interleave, every endpoint index read or stored is in range. */
  lemma {:induction false} AlwaysInRange(ss: seq<Shared>, es: seq<Step>, count: nat)
    requires count > 0 && |ss| == |es| + 1
    requires forall k :: 0 <= k < |es| ==> Enabled(ss[k], es[k], count) && ss[k + 1] == Apply(ss[k], es[k], count)
    requires ss[0] == Shared(0, [], [])
    ensures InRange(ss[|es|], count)
    decreases |es|
  {
    if es != [] {
      AlwaysInRange(ss[..|es|], es[..|es| - 1], count);
      StepInRange(ss[|es| - 1], es[|es| - 1], count);
    }
  }

  lemma StepInRange(s: Shared, e: Step, count: nat)
    requires count > 0 && InRange(s, count) && Enabled(s, e, count)
    ensures InRange(Apply(s, e, count), count)
  {
  }
}
