/** `RelayerState` and the bodies of its tasks, each run without interruption.  The forward is
    proved to be the solo run of the interleaved system's task steps. */
module RelayerTasks {
  import opened Forwarding
  import opened Wrappers
  import opened Backoff
  import opened RetryTables
  import P = Protocol
  import S = SoloTick
  import G = Registry
  import N = Derivation

  /** What the outside answers during one forward, and when it is asked. */
  datatype Answers = Answers(
    checkedAt: nat,
    /** `None` if the query fails, else whether the balance is non-empty. */
    funded: Option<bool>,
    recordedAt: nat,
    fee: bool,
    submits: bool,
    failedAt: nat,
    sentAt: nat,
    writes: Writes)

  /** Which of the store writes succeed. */
  datatype Writes = Writes(recorded: bool, failed: bool, cleared: bool, sent: bool)

  datatype Outcome = NotLive | BackingOff | QueryFailed | EmptyBalance | FeeFailed | Submitted | SubmitFailed

  // ---- One forward, alone, in the interleaved system ----

  function Now(pc: Pc, ans: Answers): nat {
    match pc
    case Stamp(sent) => if sent then ans.sentAt else ans.recordedAt
    case FailRead => ans.failedAt
    case _ => ans.checkedAt
  }

  function Succeeds(pc: Pc, ans: Answers): bool {
    match pc
    case QueryBalance => ans.funded.Some?
    case ResolveFee => ans.fee
    case Submit => ans.submits
    case RecordStore(sent, _) => if sent then ans.writes.sent else ans.writes.recorded
    case FailStore(_) => ans.writes.failed
    case ClearStore(_) => ans.writes.cleared
    case _ => true
  }

  /** The chain as the forward sees it. */
  function Seen(a: Addr, pc: Pc, ans: Answers): P.Chain {
    P.Chain(Now(pc, ans), [], if ans.funded == Some(true) then {(a, 0)} else {})
  }

  function SoloNext(live: set<Addr>, mem: P.Tables, a: Addr, pc: Pc, ans: Answers): Pc {
    P.TaskNext(live, mem, Seen(a, pc, ans), a, pc, Succeeds(pc, ans))
  }

  /** The tables after the remaining steps. */
  function Solo(live: set<Addr>, mem: P.Tables, db: P.Tables, a: Addr, pc: Pc, ans: Answers): (P.Tables, P.Tables)
    decreases Rank(pc)
  {
    if !Running(pc) || pc.Finishing? then (mem, db)
    else
      Solo(live, P.WorkMem(mem, a, pc), P.WorkDb(db, a, pc, Succeeds(pc, ans)), a, SoloNext(live, mem, a, pc, ans), ans)
  }

  /** How a forward ends. */
  function OutcomeOf(live: bool, entry: Option<Retry>, ans: Answers): Outcome {
    if !live then NotLive
    else if entry.Some? && ans.checkedAt < entry.value.nextAttempt then BackingOff
    else if ans.funded.None? then QueryFailed
    else if !ans.funded.value then EmptyBalance
    else if !ans.fee then FeeFailed
    else if ans.submits then Submitted else SubmitFailed
  }

  // ---- Retirement over a fetched list ----

  /** A row as fetched; `created` is `None` when its timestamp does not parse. */
  datatype Listed = Listed(request: G.Request, created: Option<nat>)

  predicate Retires(row: Listed, activity: map<Addr, nat>, now: nat, limits: P.Limits)
    requires limits.maxAge < TWO_64 && limits.maxIdle < TWO_64
  {
    RetirementReason(row.created, Lookup(activity, row.request.forwardAddr), now, limits.maxAge, limits.maxIdle).Some?
  }

  function Retired(rows: seq<Listed>, activity: map<Addr, nat>, now: nat, limits: P.Limits): seq<Addr>
    requires limits.maxAge < TWO_64 && limits.maxIdle < TWO_64
  {
    if rows == [] then []
    else
      var n := |rows| - 1;
      Retired(rows[..n], activity, now, limits)
      + (if Retires(rows[n], activity, now, limits) then [rows[n].request.forwardAddr] else [])
  }

  /** The fetched rows that stay, by address. */
  function Kept(rows: seq<Listed>, retired: seq<Addr>): map<Addr, G.Request> {
    if rows == [] then map[]
    else
      var n := |rows| - 1;
      var a := rows[n].request.forwardAddr;
      var earlier := Kept(rows[..n], retired);
      if a in retired then earlier else earlier[a := rows[n].request]
  }

  lemma {:induction false} KeptNotRetired(rows: seq<Listed>, retired: seq<Addr>)
    ensures forall a :: a in Kept(rows, retired) ==> a !in retired
  {
    if rows != [] {
      KeptNotRetired(rows[..|rows| - 1], retired);
    }
  }

  /** The addresses in some order. */
  method Order(addrs: set<Addr>) returns (order: seq<Addr>)
    ensures |order| == |addrs| && forall a :: a in order <==> a in addrs
  {
    order := [];
    var rest := addrs;
    while rest != {}
      invariant rest <= addrs && |order| + |rest| == |addrs|
      invariant forall a :: a in order <==> a in addrs - rest
      decreases rest
    {
      var a :| a in rest;
      order := order + [a];
      rest := rest - {a};
    }
  }

  class RelayerState {
    const limits: P.Limits
    const customIgpHook: Option<string>
    const store: RetryStore
    var live: map<Addr, G.Request>
    var retry: map<Addr, Retry>
    var activity: map<Addr, nat>

    /** Loads the durable tables; one that cannot be loaded starts empty. */
    constructor (limits: P.Limits, customIgpHook: Option<string>, store: RetryStore, retryLoads: bool, activityLoads: bool)
      requires limits.maxAge < TWO_64 && limits.maxIdle < TWO_64
      ensures Valid() && this.store == store && this.limits == limits && this.customIgpHook == customIgpHook
      ensures live == map[]
      ensures Mem() == P.Tables(if retryLoads then store.retry else map[], if activityLoads then store.activity else map[])
    {
      this.limits, this.customIgpHook, this.store, live := limits, customIgpHook, store, map[];
      retry := if retryLoads then store.retry else map[];
      activity := if activityLoads then store.activity else map[];
    }

    predicate Valid() {
      limits.maxAge < TWO_64 && limits.maxIdle < TWO_64
    }

    function Mem(): P.Tables
      reads this
    {
      P.Tables(retry, activity)
    }

    /** Store first, then memory, with one timestamp. */
    method RecordActivity(a: Addr, now: nat, persists: bool)
      modifies this`activity, store`activity
      ensures activity == old(activity)[a := now]
      ensures store.activity == if persists then old(store.activity)[a := now] else old(store.activity)
    {
      store.UpsertActivity(a, now, persists);
      activity := activity[a := now];
    }

    method ClearRetryState(a: Addr, persists: bool)
      modifies this`retry, store`retry
      ensures retry == old(retry) - {a}
      ensures store.retry == if persists then old(store.retry) - {a} else old(store.retry)
    {
      retry := retry - {a};
      store.Remove(a, persists);
    }

    method ClearActivity(a: Addr, persists: bool)
      modifies this`activity, store`activity
      ensures activity == old(activity) - {a}
      ensures store.activity == if persists then old(store.activity) - {a} else old(store.activity)
    {
      activity := activity - {a};
      store.RemoveActivity(a, persists);
    }

    /** One more failure than recorded, and the wait that goes with it. */
    method NoteFailure(a: Addr, now: nat, persists: bool) returns (delay: nat)
      modifies this`retry, store`retry
      ensures delay == RetryDelay(Failures(old(retry), a) + 1)
      ensures retry == old(retry)[a := NextRetry(old(retry), a, now)]
      ensures store.retry == if persists then old(store.retry)[a := NextRetry(old(retry), a, now)] else old(store.retry)
    {
      var failures := Failures(retry, a) + 1;
      delay := RetryDelay(failures);
      var entry := Retry(failures, now + delay);
      store.Upsert(a, entry, persists);
      retry := retry[a := entry];
    }

    /** `forward_address`.  Its effect on the tables is that of the worker steps of the interleaved
        system; every exit clears the backoff entry, schedules one, or leaves everything as it is
        because the address is not watched or already waiting. */
    method ForwardAddress(a: Addr, ans: Answers) returns (outcome: Outcome, message: Option<N.Params>)
      modifies this`retry, this`activity, store`retry, store`activity
      ensures (Mem(), store.Tables()) == Solo(live.Keys, old(Mem()), old(store.Tables()), a, Starting, ans)
      ensures outcome == OutcomeOf(a in live, Lookup(old(retry), a), ans)
      ensures outcome in {NotLive, BackingOff} ==> Mem() == old(Mem()) && store.Tables() == old(store.Tables())
      ensures outcome in {QueryFailed, FeeFailed, SubmitFailed} ==>
                retry == old(retry)[a := NextRetry(old(retry), a, ans.failedAt)]
      ensures outcome in {EmptyBalance, Submitted} ==> retry == old(retry) - {a}
      ensures outcome in {QueryFailed, EmptyBalance} ==> activity == old(activity)
      ensures outcome in {FeeFailed, SubmitFailed} ==> activity == old(activity)[a := ans.recordedAt]
      ensures outcome.Submitted? ==> activity == old(activity)[a := ans.sentAt]
      ensures message.Some? <==> outcome in {Submitted, SubmitFailed}
      ensures message.Some? ==> a in live && message.value == G.MessageParams(live[a], customIgpHook)
    {
      SoloChecks(live.Keys, Mem(), store.Tables(), a, ans);
      if a !in live {
        return NotLive, None;
      }
      if a in retry && ans.checkedAt < retry[a].nextAttempt {
        return BackingOff, None;
      }
      outcome, message := QueryAndForward(a, ans);
    }

    /** The part of `forward_address` that follows the check of the backoff. */
    method QueryAndForward(a: Addr, ans: Answers) returns (outcome: Outcome, message: Option<N.Params>)
      requires a in live
      modifies this`retry, this`activity, store`retry, store`activity
      ensures (Mem(), store.Tables()) == Solo(live.Keys, old(Mem()), old(store.Tables()), a, QueryBalance, ans)
      ensures outcome == OutcomeOf(true, None, ans)
      ensures retry == if outcome in {EmptyBalance, Submitted} then old(retry) - {a}
                       else old(retry)[a := NextRetry(old(retry), a, ans.failedAt)]
      ensures activity == if outcome in {QueryFailed, EmptyBalance} then old(activity)
                          else old(activity)[a := if outcome.Submitted? then ans.sentAt else ans.recordedAt]
      ensures message == if outcome in {Submitted, SubmitFailed} then Some(G.MessageParams(live[a], customIgpHook)) else None
    {
      ghost var mem, db, all := Mem(), store.Tables(), live.Keys;
      if ans.funded.None? {
        SoloFails(all, mem, db, a, ans);
        var _ := NoteFailure(a, ans.failedAt, ans.writes.failed);
        return QueryFailed, None;
      }
      if !ans.funded.value {
        SoloClears(all, mem, db, a, ans);
        ClearRetryState(a, ans.writes.cleared);
        return EmptyBalance, None;
      }
      SoloRecords(all, mem, db, a, ans);
      RecordActivity(a, ans.recordedAt, ans.writes.recorded);
      outcome, message := SendFunds(a, ans);
    }

    /** The part of `forward_address` that follows a non-empty balance. */
    method SendFunds(a: Addr, ans: Answers) returns (outcome: Outcome, message: Option<N.Params>)
      requires a in live
      modifies this`retry, this`activity, store`retry, store`activity
      ensures (Mem(), store.Tables()) == Solo(live.Keys, old(Mem()), old(store.Tables()), a, ResolveFee, ans)
      ensures outcome == if !ans.fee then FeeFailed else if ans.submits then Submitted else SubmitFailed
      ensures if outcome.Submitted? then retry == old(retry) - {a} && activity == old(activity)[a := ans.sentAt]
              else retry == old(retry)[a := NextRetry(old(retry), a, ans.failedAt)] && activity == old(activity)
      ensures message == if outcome.FeeFailed? then None else Some(G.MessageParams(live[a], customIgpHook))
    {
      ghost var mem, db, all := Mem(), store.Tables(), live.Keys;
      message := None;
      if !ans.fee {
        SoloFails(all, mem, db, a, ans);
        var _ := NoteFailure(a, ans.failedAt, ans.writes.failed);
        return FeeFailed, None;
      }
      message := Some(G.MessageParams(live[a], customIgpHook));
      if !ans.submits {
        SoloFails(all, mem, db, a, ans);
        var _ := NoteFailure(a, ans.failedAt, ans.writes.failed);
        return SubmitFailed, message;
      }
      SoloSent(all, mem, db, a, ans);
      ClearRetryState(a, ans.writes.cleared);
      RecordActivity(a, ans.sentAt, ans.writes.sent);
      outcome := Submitted;
    }

    // ---- Maintenance ----

    /** The fetched rows that are due for retirement, by one activity snapshot. */
    method FindRetired(rows: seq<Listed>, now: nat) returns (retired: seq<Addr>)
      requires Valid()
      ensures retired == Retired(rows, activity, now, limits)
    {
      retired := [];
      for i := 0 to |rows|
        invariant retired == Retired(rows[..i], activity, now, limits)
      {
        assert rows[..i + 1][..i] == rows[..i];
        var a := rows[i].request.forwardAddr;
        if RetirementReason(rows[i].created, Lookup(activity, a), now, limits.maxAge, limits.maxIdle).Some? {
          retired := retired + [a];
        }
      }
      assert rows[..|rows|] == rows;
    }

    method Keep(rows: seq<Listed>, retired: seq<Addr>) returns (kept: map<Addr, G.Request>)
      ensures kept == Kept(rows, retired)
    {
      kept := map[];
      for i := 0 to |rows|
        invariant kept == Kept(rows[..i], retired)
      {
        assert rows[..i + 1][..i] == rows[..i];
        var a := rows[i].request.forwardAddr;
        if a !in retired {
          kept := kept[a := rows[i].request];
        }
      }
      assert rows[..|rows|] == rows;
    }

    /** Clears the state of retired addresses; nobody else's rows change. */
    method Retire(retired: seq<Addr>, retryWrites: Addr -> bool, activityWrites: Addr -> bool)
      modifies this`retry, this`activity, store`retry, store`activity
      ensures forall a :: a !in retired ==>
                Lookup(retry, a) == Lookup(old(retry), a) && Lookup(activity, a) == Lookup(old(activity), a)
                && Lookup(store.retry, a) == Lookup(old(store.retry), a)
                && Lookup(store.activity, a) == Lookup(old(store.activity), a)
      ensures retry.Keys <= old(retry.Keys) && activity.Keys <= old(activity.Keys)
      ensures store.retry.Keys <= old(store.retry.Keys) && store.activity.Keys <= old(store.activity.Keys)
      ensures forall a :: a in retired ==> a !in retry && a !in activity
    {
      for i := 0 to |retired|
        invariant forall a :: a !in retired ==>
                    Lookup(retry, a) == Lookup(old(retry), a) && Lookup(activity, a) == Lookup(old(activity), a)
                    && Lookup(store.retry, a) == Lookup(old(store.retry), a)
                    && Lookup(store.activity, a) == Lookup(old(store.activity), a)
        invariant retry.Keys <= old(retry.Keys) && activity.Keys <= old(activity.Keys)
        invariant store.retry.Keys <= old(store.retry.Keys) && store.activity.Keys <= old(store.activity.Keys)
        invariant forall j :: 0 <= j < i ==> retired[j] !in retry && retired[j] !in activity
      {
        ClearRetryState(retired[i], retryWrites(retired[i]));
        ClearActivity(retired[i], activityWrites(retired[i]));
      }
    }

    /** `maintenance_tick`.  A failed fetch changes nothing and sends nothing.  Otherwise the live
        list becomes the fetched rows that are not retired, all state is pruned to it, newcomers
        are probed once, and exactly the backoff entries that are due are sent again. */
    method MaintenanceTick(fetched: Option<seq<Listed>>, now: nat, retryWrites: Addr -> bool,
                           activityWrites: Addr -> bool, budget: nat)
      returns (probes: seq<Addr>, requeued: seq<Addr>, pruned: bool)
      requires Valid()
      modifies this`live, this`retry, this`activity, store`retry, store`activity
      ensures fetched.None? ==>
                probes == [] && requeued == [] && !pruned && live == old(live) && Mem() == old(Mem())
                && store.Tables() == old(store.Tables())
      ensures fetched.Some? ==>
                var kept := Kept(fetched.value, Retired(fetched.value, old(activity), now, limits));
                && live == kept
                && (forall a :: a in live ==> exists i :: RowOf(fetched.value, i, a, live[a]))
                && retry == P.Restrict(old(retry), kept.Keys)
                && activity == P.Restrict(old(activity), kept.Keys)
                && (forall a :: a in kept ==> Lookup(store.retry, a) == Lookup(old(store.retry), a)
                                              && Lookup(store.activity, a) == Lookup(old(store.activity), a))
                && (pruned ==> store.Tables() == P.Tables(P.Restrict(old(store.retry), kept.Keys),
                                                          P.Restrict(old(store.activity), kept.Keys)))
                && (forall a :: a in probes <==> a in kept && a !in old(live))
                && |probes| == |kept.Keys - old(live).Keys|
                && (forall a :: a in requeued <==> a in P.Due(retry, now))
                && |requeued| == |P.Due(retry, now)|
    {
      if fetched.None? {
        return [], [], false;
      }
      var rows := fetched.value;
      var retired := FindRetired(rows, now);
      var kept := Keep(rows, retired);
      KeptNotRetired(rows, retired);
      var newcomers := kept.Keys - live.Keys;
      Retire(retired, retryWrites, activityWrites);
      retry := P.Restrict(retry, kept.Keys);
      activity := P.Restrict(activity, kept.Keys);
      assert retry == P.Restrict(old(retry), kept.Keys) by {
        RestrictSame(old(retry), retry, kept.Keys);
      }
      assert activity == P.Restrict(old(activity), kept.Keys) by {
        RestrictSame(old(activity), activity, kept.Keys);
      }
      label retired:
      pruned := PruneStore(kept.Keys, budget);
      RestrictAgain(old(store.retry), old@retired(store.retry), kept.Keys);
      RestrictAgain(old(store.activity), old@retired(store.activity), kept.Keys);
      live := kept;
      forall a | a in live
        ensures exists i :: RowOf(rows, i, a, live[a])
      {
        KeptRow(rows, retired, a);
      }
      probes := Order(newcomers);
      requeued := Order(P.Due(retry, now));
    }

    /** Prunes the durable tables, as far as it gets; rows of live addresses stay. */
    method PruneStore(active: set<Addr>, budget: nat) returns (ok: bool)
      modifies store`retry, store`activity
      ensures ok ==>
                store.Tables() == P.Tables(P.Restrict(old(store.retry), active), P.Restrict(old(store.activity), active))
      ensures forall a :: a in active ==>
                Lookup(store.retry, a) == Lookup(old(store.retry), a)
                && Lookup(store.activity, a) == Lookup(old(store.activity), a)
    {
      ok := store.Retain(active, budget);
    }
  }

  lemma RestrictAgain<V>(before: map<Addr, V>, after: map<Addr, V>, kept: set<Addr>)
    requires forall a :: a in kept ==> Lookup(after, a) == Lookup(before, a)
    ensures P.Restrict(after, kept) == P.Restrict(before, kept)
  {
    RestrictSame(before, P.Restrict(after, kept), kept);
  }

  // ---- The tick and the plan of the interleaved system ----

  ghost predicate DistinctRows(rows: seq<Listed>) {
    forall i, j :: 0 <= i < j < |rows| ==> rows[i].request.forwardAddr != rows[j].request.forwardAddr
  }

  function Requests(rows: seq<Listed>): map<Addr, Option<nat>> {
    if rows == [] then map[]
    else
      var n := |rows| - 1;
      Requests(rows[..n])[rows[n].request.forwardAddr := rows[n].created]
  }

  lemma {:induction false} RequestsAre(rows: seq<Listed>, a: Addr)
    requires DistinctRows(rows)
    ensures a in Requests(rows) <==> exists i :: 0 <= i < |rows| && rows[i].request.forwardAddr == a
    ensures forall i :: 0 <= i < |rows| && rows[i].request.forwardAddr == a ==> Requests(rows)[a] == rows[i].created
  {
    if rows != [] {
      var n := |rows| - 1;
      RequestsAre(rows[..n], a);
      assert forall i :: 0 <= i < n ==> rows[..n][i] == rows[i];
    }
  }

  lemma {:induction false} RetiredAre(rows: seq<Listed>, activity: map<Addr, nat>, now: nat, limits: P.Limits, a: Addr)
    requires limits.maxAge < TWO_64 && limits.maxIdle < TWO_64
    ensures a in Retired(rows, activity, now, limits) <==>
              exists i :: 0 <= i < |rows| && rows[i].request.forwardAddr == a && Retires(rows[i], activity, now, limits)
  {
    if rows != [] {
      var n := |rows| - 1;
      RetiredAre(rows[..n], activity, now, limits, a);
      assert forall i :: 0 <= i < n ==> rows[..n][i] == rows[i];
    }
  }

  lemma {:induction false} KeptAre(rows: seq<Listed>, retired: seq<Addr>, a: Addr)
    ensures a in Kept(rows, retired) <==>
              a !in retired && exists i :: 0 <= i < |rows| && rows[i].request.forwardAddr == a
  {
    if rows != [] {
      var n := |rows| - 1;
      KeptAre(rows[..n], retired, a);
      assert forall i :: 0 <= i < n ==> rows[..n][i] == rows[i];
    }
  }

  /** An address is kept with the row that is registered under it, the last one if there are more. */
  lemma {:induction false} KeptRow(rows: seq<Listed>, retired: seq<Addr>, a: Addr)
    requires a in Kept(rows, retired)
    ensures exists i :: RowOf(rows, i, a, Kept(rows, retired)[a])
  {
    var n := |rows| - 1;
    if rows[n].request.forwardAddr == a {
      if a !in retired {
        assert RowOf(rows, n, a, Kept(rows, retired)[a]);
      } else {
        KeptNotRetired(rows, retired);
      }
    } else {
      KeptRow(rows[..n], retired, a);
      var i :| RowOf(rows[..n], i, a, Kept(rows[..n], retired)[a]);
      assert RowOf(rows, i, a, Kept(rows, retired)[a]);
    }
  }

  /** The request of row `i`, the last one under this address. */
  predicate RowOf(rows: seq<Listed>, i: int, a: Addr, request: G.Request) {
    && 0 <= i < |rows|
    && rows[i].request == request && request.forwardAddr == a
    && forall j :: i < j < |rows| ==> rows[j].request.forwardAddr != a
  }

  /** The rows are those of the backend's table. */
  predicate RowsFrom(rows: seq<Listed>, table: G.Table) {
    forall i :: 0 <= i < |rows| ==>
      rows[i].request.forwardAddr in table && table[rows[i].request.forwardAddr] == rows[i].request
  }

  /** From registration to message: after any handler calls, what a tick puts on the live list under an
      address is the row registered under it, and with no fallback hook the message that a forward
      builds from it derives to that address. */
  lemma {:induction false} LiveAddressForwards(ops: seq<G.Op>, h: N.Hashes, rows: seq<Listed>,
                                               retired: seq<Addr>, a: Addr)
    requires RowsFrom(rows, G.Replay(map[], ops, |ops|, G.DeriveWith(h))) && a in Kept(rows, retired)
    ensures
      var table := G.Replay(map[], ops, |ops|, G.DeriveWith(h));
      a in table && Kept(rows, retired)[a] == table[a]
    ensures N.Derive(h, G.MessageParams(Kept(rows, retired)[a], None)) == Ok(a)
  {
    KeptRow(rows, retired, a);
    var i :| RowOf(rows, i, a, Kept(rows, retired)[a]);
    G.RegisteredAddressForwards(ops, |ops|, h, a);
  }

  /** For a list with one row per address, the addresses the tick keeps are those that the plan of
      the interleaved system keeps. */
  lemma {:induction false} TickKeepsPlan(rows: seq<Listed>, s: P.State, a: Addr)
    requires s.limits.maxAge < TWO_64 && s.limits.maxIdle < TWO_64 && DistinctRows(rows)
    ensures
      a in Kept(rows, Retired(rows, s.mem.activity, s.chain.now, s.limits))
      <==> a in P.PlanTick(s, Requests(rows)).plan.kept
  {
    var retired := Retired(rows, s.mem.activity, s.chain.now, s.limits);
    KeptAre(rows, retired, a);
    RetiredAre(rows, s.mem.activity, s.chain.now, s.limits, a);
    RequestsAre(rows, a);
  }

  /** What an uninterrupted tick does in the interleaved system is what `MaintenanceTick` promises:
      the same live list and tables, the same probes, and with them the same entries that are due. */
  lemma {:induction false} TickIsSoloRun(rows: seq<Listed>, s: P.State) returns (es: seq<P.Step>)
    requires s.tick.Idle? && s.limits.maxAge < TWO_64 && s.limits.maxIdle < TWO_64 && DistinctRows(rows)
    ensures S.AllMaint(es) && S.Reaches(s, es, S.AfterSwap(s, Requests(rows)))
    ensures
      var t := S.AfterSwap(s, Requests(rows));
      var kept := Kept(rows, Retired(rows, s.mem.activity, s.chain.now, s.limits)).Keys;
      && t.live.Keys == kept
      && t.mem == P.Tables(P.Restrict(s.mem.retry, kept), P.Restrict(s.mem.activity, kept))
      && t.db == P.Tables(P.Restrict(s.db.retry, kept), P.Restrict(s.db.activity, kept))
      && t.tick == P.Probing(kept - s.live.Keys, s.chain.now)
  {
    es := S.SoloTickReaches(s, Requests(rows));
    var kept := Kept(rows, Retired(rows, s.mem.activity, s.chain.now, s.limits)).Keys;
    forall a
      ensures a in kept <==> a in P.PlanTick(s, Requests(rows)).plan.kept
    {
      TickKeepsPlan(rows, s, a);
    }
    assert kept == P.PlanTick(s, Requests(rows)).plan.kept;
  }

  lemma RestrictSame<V>(before: map<Addr, V>, after: map<Addr, V>, kept: set<Addr>)
    requires after.Keys <= kept
    requires forall a :: a in kept ==> Lookup(after, a) == Lookup(before, a)
    ensures after == P.Restrict(before, kept)
  {
    forall a
      ensures a in after <==> a in before && a in kept
      ensures a in after ==> after[a] == before[a]
    {
      if a in kept {
        assert Lookup(after, a) == Lookup(before, a);
      }
    }
  }

  // ---- Stretches of the solo run ----

  lemma SoloChecks(live: set<Addr>, mem: P.Tables, db: P.Tables, a: Addr, ans: Answers)
    ensures
      Solo(live, mem, db, a, Starting, ans)
      == if a !in live || (a in mem.retry && ans.checkedAt < mem.retry[a].nextAttempt) then (mem, db)
         else Solo(live, mem, db, a, QueryBalance, ans)
  {
    if a in live {
      assert Solo(live, mem, db, a, Starting, ans) == Solo(live, mem, db, a, CheckBackoff, ans);
    }
  }

  function FailedTables(mem: P.Tables, t: P.Tables, a: Addr, now: nat): P.Tables {
    t.(retry := t.retry[a := NextRetry(mem.retry, a, now)])
  }

  lemma SoloFails(live: set<Addr>, mem: P.Tables, db: P.Tables, a: Addr, ans: Answers)
    ensures
      var after := (FailedTables(mem, mem, a, ans.failedAt), if ans.writes.failed then FailedTables(mem, db, a, ans.failedAt) else db);
      && (ans.funded.None? ==> Solo(live, mem, db, a, QueryBalance, ans) == after)
      && (!ans.fee ==> Solo(live, mem, db, a, ResolveFee, ans) == after)
      && (ans.fee && !ans.submits ==> Solo(live, mem, db, a, ResolveFee, ans) == after)
  {
    var entry := NextRetry(mem.retry, a, ans.failedAt);
    var db' := if ans.writes.failed then FailedTables(mem, db, a, ans.failedAt) else db;
    assert Solo(live, mem, db', a, FailMem(entry), ans) == (FailedTables(mem, mem, a, ans.failedAt), db');
    assert Solo(live, mem, db, a, FailStore(entry), ans) == Solo(live, mem, db', a, FailMem(entry), ans);
    assert Solo(live, mem, db, a, FailRead, ans) == Solo(live, mem, db, a, FailStore(entry), ans);
    if ans.fee && !ans.submits {
      assert Solo(live, mem, db, a, Submit, ans) == Solo(live, mem, db, a, FailRead, ans);
    }
  }

  function ClearedTables(t: P.Tables, a: Addr): P.Tables {
    t.(retry := t.retry - {a})
  }

  function RecordedTables(t: P.Tables, a: Addr, at: nat): P.Tables {
    t.(activity := t.activity[a := at])
  }

  lemma SoloClears(live: set<Addr>, mem: P.Tables, db: P.Tables, a: Addr, ans: Answers)
    requires ans.funded == Some(false)
    ensures
      Solo(live, mem, db, a, QueryBalance, ans)
      == (ClearedTables(mem, a), if ans.writes.cleared then ClearedTables(db, a) else db)
  {
    assert Solo(live, mem, db, a, QueryBalance, ans) == Solo(live, mem, db, a, ClearMem(false), ans);
    assert Solo(live, mem, db, a, ClearMem(false), ans) == Solo(live, ClearedTables(mem, a), db, a, ClearStore(false), ans);
  }

  lemma SoloStamps(live: set<Addr>, mem: P.Tables, db: P.Tables, a: Addr, sent: bool, ans: Answers)
    ensures
      var at := if sent then ans.sentAt else ans.recordedAt;
      var mem' := RecordedTables(mem, a, at);
      var persists := if sent then ans.writes.sent else ans.writes.recorded;
      var db' := if persists then RecordedTables(db, a, at) else db;
      Solo(live, mem, db, a, Stamp(sent), ans)
      == if sent then (mem', db') else Solo(live, mem', db', a, ResolveFee, ans)
  {
    var at := if sent then ans.sentAt else ans.recordedAt;
    var persists := if sent then ans.writes.sent else ans.writes.recorded;
    var db' := if persists then RecordedTables(db, a, at) else db;
    assert Solo(live, mem, db, a, Stamp(sent), ans) == Solo(live, mem, db, a, RecordStore(sent, at), ans);
    assert Solo(live, mem, db, a, RecordStore(sent, at), ans) == Solo(live, mem, db', a, RecordMem(sent, at), ans);
    assert Solo(live, mem, db', a, RecordMem(sent, at), ans)
        == Solo(live, RecordedTables(mem, a, at), db', a, if sent then Finishing else ResolveFee, ans);
  }

  lemma SoloRecords(live: set<Addr>, mem: P.Tables, db: P.Tables, a: Addr, ans: Answers)
    requires ans.funded == Some(true)
    ensures
      Solo(live, mem, db, a, QueryBalance, ans)
      == Solo(live, RecordedTables(mem, a, ans.recordedAt),
              if ans.writes.recorded then RecordedTables(db, a, ans.recordedAt) else db, a, ResolveFee, ans)
  {
    assert (a, 0) in Seen(a, QueryBalance, ans).held;
    assert Solo(live, mem, db, a, QueryBalance, ans) == Solo(live, mem, db, a, Stamp(false), ans);
    SoloStamps(live, mem, db, a, false, ans);
  }

  /** The store after a successful submission. */
  function SentTables(db: P.Tables, a: Addr, ans: Answers): P.Tables {
    var cleared := if ans.writes.cleared then ClearedTables(db, a) else db;
    if ans.writes.sent then RecordedTables(cleared, a, ans.sentAt) else cleared
  }

  lemma SoloSent(live: set<Addr>, mem: P.Tables, db: P.Tables, a: Addr, ans: Answers)
    requires ans.fee && ans.submits
    ensures
      Solo(live, mem, db, a, ResolveFee, ans)
      == (RecordedTables(ClearedTables(mem, a), a, ans.sentAt), SentTables(db, a, ans))
  {
    var mem' := ClearedTables(mem, a);
    var db' := if ans.writes.cleared then ClearedTables(db, a) else db;
    assert Solo(live, mem, db, a, ResolveFee, ans) == Solo(live, mem, db, a, Submit, ans);
    assert Solo(live, mem, db, a, Submit, ans) == Solo(live, mem, db, a, ClearMem(true), ans);
    assert Solo(live, mem, db, a, ClearMem(true), ans) == Solo(live, mem', db, a, ClearStore(true), ans);
    assert Solo(live, mem', db, a, ClearStore(true), ans) == Solo(live, mem', db', a, Stamp(true), ans);
    SoloStamps(live, mem', db', a, true, ans);
  }
}
