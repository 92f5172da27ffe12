/** Complete runs, from the very start, at whose end a property one might expect does not hold.
    No write to the retry and activity tables fails in them. */
module Counterexamples {
  import opened Wrappers
  import opened Forwarding
  import opened Backoff
  import opened Protocol
  import opened Obligations
  import opened Coverage
  import opened SoloTick
  import D = Dispatcher
  import M = Mirror

  const GENESIS := Chain(0, [], {})
  const NO_TABLES := Tables(map[], map[])
  const ON_LIST: map<Addr, nat> := map["a" := 0]
  const NO_SCAN := Scan(Booting, 0, 0, {}, {})

  /** A state of a relayer with room for one trigger and one forward, whose tables are empty. */
  function Bare(limits: Limits, chain: Chain, d: D.State, live: map<Addr, nat>, tick: Tick): State {
    State(limits, chain, d, live, NO_TABLES, tick, {}, NO_SCAN, NO_TABLES, None)
  }

  function Start(limits: Limits): State {
    Init(1, 1, limits)
  }

  ghost predicate Reachable(limits: Limits, t: State) {
    Leads(Start(limits), t)
  }

  lemma {:induction false} ReachableRun(limits: Limits, t: State) returns (ss: seq<State>, es: seq<Step>)
    requires Reachable(limits, t)
    ensures FromStart(ss, es) && Persisting(ss, es) && ss[|es|] == t
  {
    es :| Reaches(Start(limits), es, t);
    ss := ReachesRun(Start(limits), es, t);
  }

  // ---- The first address joins and is probed ----

  /** The limits are `u64` values. */
  predicate U64Limits(limits: Limits) {
    limits.maxAge < TWO_64 && limits.maxIdle < TWO_64
  }

  /** Its timestamp does not parse, or it has just been created. */
  predicate JustCreated(limits: Limits, created: Option<nat>) {
    created.Some? ==> created.value == 0 && limits.maxAge < TWO_63
  }

  function Joining(limits: Limits): State {
    Bare(limits, GENESIS, D.Init(1, 1), ON_LIST, Probing({"a"}, 0))
  }

  lemma Joins(limits: Limits, created: Option<nat>)
    requires U64Limits(limits) && JustCreated(limits, created)
    ensures Reachable(limits, Joining(limits))
  {
    var requests := map["a" := created];
    var es := SoloTickReaches(Start(limits), requests);
    assert ToRetire(requests, map[], 0, limits) == {};
    assert PlanTick(Start(limits), requests).plan == Plan({"a"}, {"a"}, 0);
    assert Joined(map[], {"a"}, 0) == ON_LIST;
    assert Pruned(NO_TABLES, {"a"}) == NO_TABLES;
  }

  /** The probe is queued. */
  function Queued(limits: Limits): State {
    Bare(limits, GENESIS, D.State(1, 1, ["a"], D.Empty, 1, map[], []), ON_LIST, Probing({}, 0))
  }

  lemma ProbeIsQueued(limits: Limits, created: Option<nat>)
    requires U64Limits(limits) && JustCreated(limits, created)
    ensures Reachable(limits, Queued(limits))
  {
    Joins(limits, created);
    var none, todo: set<Addr> := [], {"a"};
    assert none + ["a"] == ["a"];
    assert todo - {"a"} == {};
    LeadsThen(Start(limits), Joining(limits), Maint(SendTo("a"), true), Queued(limits));
  }

  function Spawned(pc: Pc): D.State {
    D.State(1, 1, [], D.Empty, 0, map["a" := false], [D.Task("a", pc)])
  }

  /** The consumer takes the queued trigger and spawns a forward, whatever else is in the state. */
  lemma Spawns(s: State)
    requires s.d == D.State(1, 1, ["a"], D.Empty, 1, map[], [])
    ensures Leads(s, s.(d := Spawned(Starting)))
  {
    var s1 := s.(d := D.State(1, 1, [], D.Holding("a"), 1, map[], []));
    var s2 := s.(d := D.State(1, 1, [], D.Claimed("a"), 1, map["a" := false], []));
    var none: seq<D.Task> := [];
    assert none + [D.Task("a", Starting)] == [D.Task("a", Starting)];
    LeadsBy(s, Consume(D.Receive), s1);
    LeadsThen(s, s1, Consume(D.Claim), s2);
    LeadsThen(s, s2, Consume(D.Acquire), s.(d := Spawned(Starting)));
  }

  /** One step of that forward. */
  lemma Goes(s: State, pc: Pc, ok: bool, t: State)
    requires s.d == Spawned(pc) && Running(pc) && !pc.Finishing? && (WritesStore(pc) ==> ok)
    requires
      t == s.(chain := WorkChain(s.chain, "a", pc, ok, false), mem := WorkMem(s.mem, "a", pc),
              db := WorkDb(s.db, "a", pc, ok), d := Spawned(NextPc(s, "a", pc, ok)))
    ensures Leads(s, t)
  {
    var tasks := [D.Task("a", pc)];
    assert tasks[0 := D.Task("a", NextPc(s, "a", pc, ok))] == [D.Task("a", NextPc(s, "a", pc, ok))];
    LeadsBy(s, Work(0, ok, false), t);
  }

  function Forward(limits: Limits, pc: Pc): State {
    Bare(limits, GENESIS, Spawned(pc), ON_LIST, Probing({}, 0))
  }

  /** Up to its balance query the first forward changes nothing. */
  lemma Queries(limits: Limits)
    requires U64Limits(limits)
    ensures Reachable(limits, Forward(limits, QueryBalance))
  {
    ProbeIsQueued(limits, None);
    Spawns(Queued(limits));
    LeadsOn(Start(limits), Queued(limits), Forward(limits, Starting));
    Goes(Forward(limits, Starting), Starting, true, Forward(limits, CheckBackoff));
    LeadsOn(Start(limits), Forward(limits, Starting), Forward(limits, CheckBackoff));
    Goes(Forward(limits, CheckBackoff), CheckBackoff, true, Forward(limits, QueryBalance));
    LeadsOn(Start(limits), Forward(limits, CheckBackoff), Forward(limits, QueryBalance));
  }

  // ---- A deposit in the boot gap is forgotten ----

  function Probed(limits: Limits, pc: Pc, free: nat): State {
    Bare(limits, GENESIS, D.State(1, 1, [], D.Empty, free, map[], [D.Task("a", pc)]), ON_LIST, Probing({}, 0))
  }

  lemma ClearingChangesNothing(limits: Limits)
    ensures Leads(Forward(limits, QueryBalance), Forward(limits, Finishing))
  {
    var none: map<Addr, Retry> := map[];
    assert none - {"a"} == none;
    assert !Funded(GENESIS, "a");
    Goes(Forward(limits, QueryBalance), QueryBalance, true, Forward(limits, ClearMem(false)));
    Goes(Forward(limits, ClearMem(false)), ClearMem(false), true, Forward(limits, ClearStore(false)));
    Goes(Forward(limits, ClearStore(false)), ClearStore(false), true, Forward(limits, Finishing));
    LeadsOn(Forward(limits, QueryBalance), Forward(limits, ClearMem(false)), Forward(limits, ClearStore(false)));
    LeadsOn(Forward(limits, QueryBalance), Forward(limits, ClearStore(false)), Forward(limits, Finishing));
  }

  /** The probe finds no balance and ends. */
  lemma ProbeFindsNothing(limits: Limits)
    requires U64Limits(limits)
    ensures Reachable(limits, Probed(limits, Done, 1))
  {
    Queries(limits);
    ClearingChangesNothing(limits);
    LeadsOn(Start(limits), Forward(limits, QueryBalance), Forward(limits, Finishing));
    assert map["a" := false] - {"a"} == map[];
    LeadsThen(Start(limits), Forward(limits, Finishing), Consume(D.Finish(0)), Probed(limits, Releasing(false), 0));
    LeadsThen(Start(limits), Probed(limits, Releasing(false), 0), Consume(D.Release(0)), Probed(limits, Done, 1));
  }

  const FUNDED := Chain(0, [{"a"}], {("a", 1)})

  function Missed(limits: Limits): State {
    Probed(limits, Done, 1).(chain := FUNDED, scan := Scan(Waiting, 1, 1, {}, {}), heightDb := Some(1))
  }

  /** A funded live address that nothing will look at, its deposit passed over without a skip. */
  ghost predicate Forgets(s: State, a: Addr, h: nat) {
    && a in s.live && !Removing(s, a) && (a, h) in s.chain.held
    && !Obligation(s, a) && s.scan.cursor >= h && !InSkip(s, h) && InBootGap(s, a, h)
  }

  /** The boot gap is not empty: a deposit comes after the probe, then the scanner starts from the
      tip.  The address stays live and funded, and nothing is left that will look at it. */
  lemma FreshTipCanMissDeposit(limits: Limits)
    requires U64Limits(limits)
    ensures exists ss, es :: FromStart(ss, es) && Persisting(ss, es) && Forgets(ss[|es|], "a", 1)
  {
    var s := Probed(limits, Done, 1);
    ProbeFindsNothing(limits);
    assert ApplyEnv(GENESIS, Commit({"a"})).held == {("a", 1)};
    LeadsThen(Start(limits), s, Env(Commit({"a"})), s.(chain := FUNDED));
    LeadsThen(Start(limits), s.(chain := FUNDED), Scanner(Boot(AtTip(1)), true), Missed(limits));
    var ss, es := ReachableRun(limits, Missed(limits));
  }

  // ---- A boot loses the stored cursor ----

  function Booted(limits: Limits, cursor: nat): State {
    Start(limits).(chain := Chain(0, [{}], {}), scan := Scan(Waiting, cursor, cursor, {}, {}), heightDb := Some(1))
  }

  /** The stored cursor can get ahead: a scanner starts at tip 1 and stores it, the process crashes,
      and the next scanner cannot read it, hears tip 0 from a lagging endpoint, and cannot write. */
  lemma StoredCursorCanGetAhead(limits: Limits)
    ensures exists ss, es :: FromStart(ss, es) && Persisting(ss, es) && !StoredBehind(ss[|es|])
  {
    var s := Start(limits);
    var s1 := s.(chain := Chain(0, [{}], {}));
    var s2 := s1.(heightDb := Some(1));
    var none: set<Addr> := {};
    assert ApplyEnv(GENESIS, Commit(none)) == s1.chain;
    LeadsBy(s, Env(Commit(none)), s1);
    LeadsThen(s, s1, Scanner(Boot(AtTip(1)), true), Booted(limits, 1));
    LeadsThen(s, Booted(limits, 1), Crash(true, true), s2);
    LeadsThen(s, s2, Scanner(Boot(AtTip(0)), false), Booted(limits, 0));
    var ss, es := ReachableRun(limits, Booted(limits, 0));
  }

  // ---- A funded address is retired ----

  /** The probe is still queued, the tick is over, and time has passed. */
  function Aged(limits: Limits): State {
    Queued(limits).(tick := Idle, chain := Chain(limits.maxAge + 1, [], {}))
  }

  /** Then the address receives a deposit. */
  function AgedFunded(limits: Limits): State {
    Queued(limits).(tick := Idle, chain := Chain(limits.maxAge + 1, [{"a"}], {("a", 1)}))
  }

  lemma Ages(limits: Limits)
    requires U64Limits(limits) && limits.maxAge < TWO_63
    ensures Reachable(limits, AgedFunded(limits))
  {
    ProbeIsQueued(limits, Some(0));
    SendsNothing(Start(limits), Queued(limits));
    var s := Queued(limits).(tick := Idle);
    LeadsThen(Start(limits), s, Env(Elapse(limits.maxAge + 1)), Aged(limits));
    assert ApplyEnv(Aged(limits).chain, Commit({"a"})).held == {("a", 1)};
    LeadsThen(Start(limits), Aged(limits), Env(Commit({"a"})), AgedFunded(limits));
  }

  /** The next tick drops it, and the queued trigger's forward ends at its first check. */
  lemma IsDropped(limits: Limits)
    requires U64Limits(limits) && limits.maxAge < TWO_63
    ensures Leads(AgedFunded(limits), AgedFunded(limits).(live := map[], d := Spawned(Finishing)))
  {
    var s, requests := AgedFunded(limits), map["a" := Some(0)];
    assert "a" in ToRetire(requests, map[], limits.maxAge + 1, limits);
    assert PlanTick(s, requests).plan.kept == {};
    assert Pruned(NO_TABLES, {}) == NO_TABLES;
    assert Joined(ON_LIST, {}, 1) == map[];
    SilentTick(s, requests);
    var t := s.(live := map[]);
    Spawns(t);
    LeadsOn(s, t, t.(d := Spawned(Starting)));
    Goes(t.(d := Spawned(Starting)), Starting, true, t.(d := Spawned(Finishing)));
    LeadsOn(s, t.(d := Spawned(Starting)), t.(d := Spawned(Finishing)));
  }

  /** Funded, off the live list, and no trigger or forward is left. */
  ghost predicate Abandons(s: State, a: Addr) {
    Funded(s.chain, a) && a !in s.live && s.tick.Idle? && !Obligation(s, a)
  }

  /** A live address that holds a deposit can be retired with it, and the trigger that was queued
      for it all the while comes to nothing. */
  lemma FundedAddressCanBeRetired(limits: Limits)
    requires U64Limits(limits) && limits.maxAge < TWO_63
    ensures
      exists ss: seq<State>, es: seq<Step>, i: nat ::
        && FromStart(ss, es) && Persisting(ss, es) && i <= |es|
        && "a" in ss[i].live && Funded(ss[i].chain, "a") && "a" in ss[i].d.queue
        && Abandons(ss[|es|], "a")
  {
    Ages(limits);
    IsDropped(limits);
    var s, t := AgedFunded(limits), AgedFunded(limits).(live := map[], d := Spawned(Finishing));
    var first :| Reaches(Start(limits), first, s);
    var second :| Reaches(s, second, t);
    var ss := RunThrough(Start(limits), first, s, second, t);
    assert ("a", 1) in s.chain.held && ("a", 1) in t.chain.held;
    assert FromStart(ss, first + second) && Abandons(ss[|first + second|], "a");
  }

  // ---- A returning address is not mirrored ----

  const ENTRY := Retry(1, 30)
  const ENTRIES: map<Addr, Retry> := map["a" := ENTRY]

  /** A forward whose query failed has stored its entry, and not yet put it into memory. */
  function HalfFailed(limits: Limits): State {
    Forward(limits, FailMem(ENTRY)).(db := Tables(ENTRIES, map[]))
  }

  lemma FailsHalfway(limits: Limits)
    requires U64Limits(limits)
    ensures Reachable(limits, HalfFailed(limits))
  {
    var s := Start(limits);
    Queries(limits);
    var none: map<Addr, Retry> := map[];
    assert none["a" := ENTRY] == ENTRIES;
    Goes(Forward(limits, QueryBalance), QueryBalance, false, Forward(limits, FailRead));
    LeadsOn(s, Forward(limits, QueryBalance), Forward(limits, FailRead));
    Goes(Forward(limits, FailRead), FailRead, true, Forward(limits, FailStore(ENTRY)));
    LeadsOn(s, Forward(limits, FailRead), Forward(limits, FailStore(ENTRY)));
    Goes(Forward(limits, FailStore(ENTRY)), FailStore(ENTRY), true, HalfFailed(limits));
    LeadsOn(s, Forward(limits, FailStore(ENTRY)), HalfFailed(limits));
  }

  /** A tick removes the address, with the row just stored; only then does the forward go on. */
  function Removed(limits: Limits): State {
    Forward(limits, Finishing).(live := map[], tick := Idle, mem := Tables(ENTRIES, map[]))
  }

  lemma RemovedMeanwhile(limits: Limits)
    requires U64Limits(limits)
    ensures Reachable(limits, Removed(limits))
  {
    var start, s := Start(limits), HalfFailed(limits).(tick := Idle);
    FailsHalfway(limits);
    SendsNothing(start, HalfFailed(limits));
    var nobody: map<Addr, Option<nat>> := map[];
    assert PlanTick(s, nobody).plan == Plan({}, {}, 0);
    assert Pruned(s.db, {}) == NO_TABLES == Pruned(NO_TABLES, {});
    assert Joined(ON_LIST, {}, 0) == map[];
    SilentTick(s, nobody);
    var t := Forward(limits, FailMem(ENTRY)).(live := map[], tick := Idle);
    LeadsOn(start, s, t);
    Goes(t, FailMem(ENTRY), true, Removed(limits));
    LeadsOn(start, t, Removed(limits));
  }

  /** The address is live again; its backoff entry is in memory and not in the store. */
  ghost predicate Unmirrored(s: State, a: Addr) {
    a in s.live && M.Settled(s, a) && a in s.mem.retry && a !in s.db.retry
  }

  /** An address that is removed between the two halves of an update, and registered again, is live
      with a backoff entry that a restart would not restore; no write has failed. */
  lemma ReturningCanBeUnmirrored(limits: Limits)
    requires U64Limits(limits)
    ensures exists ss, es :: FromStart(ss, es) && Persisting(ss, es) && Unmirrored(ss[|es|], "a")
  {
    var s, requests: map<Addr, Option<nat>> := Removed(limits), map["a" := None];
    RemovedMeanwhile(limits);
    var es := SoloTickReaches(s, requests);
    var t := AfterSwap(s, requests);
    assert PlanTick(s, requests).plan.kept == {"a"};
    LeadsOn(Start(limits), s, t);
    var ss, fs := ReachableRun(limits, t);
    SettledNow(ss, fs);
  }

  lemma {:induction false} SettledNow(ss: seq<State>, es: seq<Step>)
    requires FromStart(ss, es) && ss[|es|].d == Spawned(Finishing)
    ensures M.Settled(ss[|es|], "a")
  {
    RunInv(ss, es, |es|);
    assert M.RunsAt(ss[|es|], 0, "a");
    M.PhaseOf(ss[|es|], 0, "a");
  }
}
