/** Stretches of a run, and the maintenance tick that nothing interrupts. */
module SoloTick {
  import opened Wrappers
  import opened Forwarding
  import opened Backoff
  import opened Protocol

  // ---- Stretches ----

  /** The writes to the retry and activity tables succeed, and a restart loads them. */
  predicate Persists(s: State, e: Step) {
    && (e.Maint? ==> e.ok)
    && (e.Work? && e.task < |s.d.tasks| && WritesStore(s.d.tasks[e.task].pc) ==> e.ok)
    && (e.Crash? ==> e.retryLoads && e.activityLoads)
  }

  /** The steps are enabled one after the other and lead from `s` to `t`, and no table write fails. */
  ghost predicate Reaches(s: State, es: seq<Step>, t: State)
    decreases |es|
  {
    if es == [] then s == t
    else Enabled(s, es[0]) && Persists(s, es[0]) && Reaches(Apply(s, es[0]), es[1..], t)
  }

  ghost predicate Leads(s: State, t: State) {
    exists es :: Reaches(s, es, t)
  }

  /** Puts one step in front, with both its ends named. */
  lemma {:induction false} Before(s: State, e: Step, s': State, es: seq<Step>, t: State)
    requires Enabled(s, e) && Persists(s, e) && Apply(s, e) == s' && Reaches(s', es, t)
    ensures Reaches(s, [e] + es, t)
  {
    assert ([e] + es)[1..] == es;
  }

  lemma Alone(s: State, e: Step, t: State)
    requires Enabled(s, e) && Persists(s, e) && Apply(s, e) == t
    ensures Reaches(s, [e], t)
  {
    Before(s, e, t, [], t);
    assert [e] + [] == [e];
  }

  lemma {:induction false} Concat(s: State, es: seq<Step>, t: State, fs: seq<Step>, u: State)
    requires Reaches(s, es, t) && Reaches(t, fs, u)
    ensures Reaches(s, es + fs, u)
    decreases |es|
  {
    if es == [] {
      assert es + fs == fs;
    } else {
      assert (es + fs)[1..] == es[1..] + fs;
      Concat(Apply(s, es[0]), es[1..], t, fs, u);
    }
  }

  lemma LeadsBy(s: State, e: Step, t: State)
    requires Enabled(s, e) && Persists(s, e) && Apply(s, e) == t
    ensures Leads(s, t)
  {
    Alone(s, e, t);
  }

  lemma LeadsOn(s: State, t: State, u: State)
    requires Leads(s, t) && Leads(t, u)
    ensures Leads(s, u)
  {
    var es :| Reaches(s, es, t);
    var fs :| Reaches(t, fs, u);
    Concat(s, es, t, fs, u);
  }

  lemma LeadsThen(s: State, t: State, e: Step, u: State)
    requires Leads(s, t) && Enabled(t, e) && Persists(t, e) && Apply(t, e) == u
    ensures Leads(s, u)
  {
    LeadsBy(t, e, u);
    LeadsOn(s, t, u);
  }

  ghost predicate Persisting(ss: seq<State>, es: seq<Step>)
    requires |es| < |ss|
  {
    forall k :: 0 <= k < |es| ==> Persists(ss[k], es[k])
  }

  /** Such steps are a run. */
  lemma {:induction false} ReachesRun(s: State, es: seq<Step>, t: State) returns (ss: seq<State>)
    requires Reaches(s, es, t)
    ensures Run(ss, es) && Persisting(ss, es) && ss[0] == s && ss[|es|] == t
    decreases |es|
  {
    if es == [] {
      ss := [s];
    } else {
      var rest := ReachesRun(Apply(s, es[0]), es[1..], t);
      ss := [s] + rest;
      forall k | 0 <= k < |es|
        ensures Enabled(ss[k], es[k]) && ss[k + 1] == Apply(ss[k], es[k]) && Persists(ss[k], es[k])
      {
        if k > 0 {
          assert es[k] == es[1..][k - 1];
        }
      }
    }
  }

  /** A run through two states. */
  lemma {:induction false} RunThrough(s: State, first: seq<Step>, m: State, second: seq<Step>,
                                      t: State) returns (ss: seq<State>)
    requires Reaches(s, first, m) && Reaches(m, second, t)
    ensures var es := first + second; Run(ss, es) && Persisting(ss, es) && ss[|es|] == t
    ensures ss[0] == s && ss[|first|] == m
  {
    Concat(s, first, m, second, t);
    ss := ReachesRun(s, first + second, t);
    PassesThrough(ss, first, second, m, t);
  }

  /** Steps determine the states they lead to. */
  lemma {:induction false} PassesThrough(ss: seq<State>, first: seq<Step>, second: seq<Step>, m: State, t: State)
    requires Run(ss, first + second) && Reaches(ss[0], first, m)
    ensures ss[|first|] == m
    decreases |first|
  {
    if first != [] {
      var es := first + second;
      assert es[0] == first[0] && es[1..] == first[1..] + second;
      assert Run(ss[1..], first[1..] + second) by {
        assert forall k :: 0 <= k < |es| - 1 ==> ss[1..][k] == ss[k + 1] && es[1..][k] == es[k + 1];
      }
      PassesThrough(ss[1..], first[1..], second, m, t);
    }
  }

  // ---- The tick that nothing interrupts ----

  const PROCEED := Maint(Proceed({}, {}), true)

  predicate AllMaint(es: seq<Step>) {
    forall e :: e in es ==> e.Maint?
  }

  function Retiring(s: State, plan: Plan, todo: set<Addr>): State {
    s.(tick := Planned(plan, Retire(todo)))
  }

  function TablesWithout(t: Tables, gone: set<Addr>): Tables {
    Tables(t.retry - gone, t.activity - gone)
  }

  function StateWithout(s: State, gone: set<Addr>): State {
    s.(mem := TablesWithout(s.mem, gone), db := TablesWithout(s.db, gone))
  }

  /** The four accesses that retire one address. */
  lemma RetireOne(s: State, plan: Plan, todo: set<Addr>, a: Addr) returns (es: seq<Step>)
    requires a in todo
    ensures AllMaint(es) && Reaches(Retiring(s, plan, todo), es, Retiring(StateWithout(s, {a}), plan, todo - {a}))
  {
    var rest := todo - {a};
    var s1 := s.(mem := s.mem.(retry := s.mem.retry - {a}), tick := Planned(plan, RetireRetryDb(a, rest)));
    var s2 := s1.(db := s.db.(retry := s.db.retry - {a}), tick := Planned(plan, RetireActivity(a, rest)));
    var s3 := s2.(mem := TablesWithout(s.mem, {a}), tick := Planned(plan, RetireActivityDb(a, rest)));
    var s4 := Retiring(StateWithout(s, {a}), plan, rest);
    Alone(s3, PROCEED, s4);
    Before(s2, PROCEED, s3, [PROCEED], s4);
    Before(s1, PROCEED, s2, [PROCEED] + [PROCEED], s4);
    es := [PROCEED] + ([PROCEED] + [PROCEED]);
    Before(Retiring(s, plan, todo), Maint(RetireNext(a), true), s1, es, s4);
    es := [Maint(RetireNext(a), true)] + es;
  }

  lemma WithoutMore(s: State, a: Addr, todo: set<Addr>)
    requires a in todo
    ensures StateWithout(StateWithout(s, {a}), todo - {a}) == StateWithout(s, todo)
  {
    assert s.mem.retry - {a} - (todo - {a}) == s.mem.retry - todo;
    assert s.mem.activity - {a} - (todo - {a}) == s.mem.activity - todo;
    assert s.db.retry - {a} - (todo - {a}) == s.db.retry - todo;
    assert s.db.activity - {a} - (todo - {a}) == s.db.activity - todo;
  }

  lemma {:induction false} RetireAll(s: State, plan: Plan, todo: set<Addr>) returns (es: seq<Step>)
    ensures AllMaint(es) && Reaches(Retiring(s, plan, todo), es, Retiring(StateWithout(s, todo), plan, {}))
    decreases |todo|
  {
    if todo == {} {
      es := [];
      assert StateWithout(s, {}) == s;
    } else {
      var a :| a in todo;
      var first := RetireOne(s, plan, todo, a);
      var rest := RetireAll(StateWithout(s, {a}), plan, todo - {a});
      WithoutMore(s, a, todo);
      Concat(Retiring(s, plan, todo), first, Retiring(StateWithout(s, {a}), plan, todo - {a}), rest,
             Retiring(StateWithout(s, todo), plan, {}));
      es := first + rest;
    }
  }

  function Pruned(t: Tables, kept: set<Addr>): Tables {
    Tables(Restrict(t.retry, kept), Restrict(t.activity, kept))
  }

  /** The state after the live-list swap of a tick that pruned everything. */
  function Swapped(s: State, plan: Plan): State {
    s.(mem := Pruned(s.mem, plan.kept), db := Pruned(s.db, plan.kept),
       live := Joined(s.live, plan.kept, Tip(s)), tick := Probing(plan.newcomers, plan.at))
  }

  lemma PruneAll(s: State, plan: Plan) returns (es: seq<Step>)
    ensures AllMaint(es) && Reaches(Retiring(s, plan, {}), es, Swapped(s, plan))
  {
    var s1 := s.(tick := Planned(plan, PruneRetry));
    var s2 := s.(mem := s.mem.(retry := Restrict(s.mem.retry, plan.kept)), tick := Planned(plan, PruneActivity));
    var s3 := s.(mem := Pruned(s.mem, plan.kept), tick := Planned(plan, PruneStore));
    var s4 := s3.(db := Pruned(s.db, plan.kept), tick := Planned(plan, Swap));
    var t := Swapped(s, plan);
    Alone(s4, PROCEED, t);
    Before(s3, PROCEED, s4, [PROCEED], t);
    es := [PROCEED] + [PROCEED];
    Before(s2, PROCEED, s3, es, t);
    es := [PROCEED] + es;
    Before(s1, PROCEED, s2, es, t);
    es := [PROCEED] + es;
    Before(Retiring(s, plan, {}), PROCEED, s1, es, t);
    es := [PROCEED] + es;
  }

  lemma PrunedWithout(t: Tables, gone: set<Addr>, kept: set<Addr>)
    requires gone !! kept
    ensures Pruned(TablesWithout(t, gone), kept) == Pruned(t, kept)
  {
    assert Restrict(t.retry - gone, kept) == Restrict(t.retry, kept);
    assert Restrict(t.activity - gone, kept) == Restrict(t.activity, kept);
  }

  /** The state that an uninterrupted tick, with all its writes succeeding, has reached when it
      begins to send. */
  function AfterSwap(s: State, requests: map<Addr, Option<nat>>): State
    requires s.limits.maxAge < TWO_64 && s.limits.maxIdle < TWO_64
  {
    Swapped(s, PlanTick(s, requests).plan)
  }

  /** A tick alone: retiring, pruning and swapping amount to restricting all tables and the live
      list to the addresses the plan keeps. */
  lemma {:induction false} SoloTickReaches(s: State, requests: map<Addr, Option<nat>>) returns (es: seq<Step>)
    requires s.tick.Idle? && s.limits.maxAge < TWO_64 && s.limits.maxIdle < TWO_64
    ensures AllMaint(es) && Reaches(s, es, AfterSwap(s, requests))
  {
    var Planned(plan, stage) := PlanTick(s, requests);
    var todo := stage.todo;
    var retire := RetireAll(s, plan, todo);
    var prune := PruneAll(StateWithout(s, todo), plan);
    PrunedWithout(s.mem, todo, plan.kept);
    PrunedWithout(s.db, todo, plan.kept);
    assert Swapped(StateWithout(s, todo), plan) == AfterSwap(s, requests);
    Concat(Retiring(s, plan, todo), retire, Retiring(StateWithout(s, todo), plan, {}), prune, AfterSwap(s, requests));
    Before(s, Maint(Begin(requests), true), Retiring(s, plan, todo), retire + prune, AfterSwap(s, requests));
    es := [Maint(Begin(requests), true)] + (retire + prune);
  }

  /** A tick with nothing to send: no newcomer, and no entry that is due. */
  lemma SilentTick(s: State, requests: map<Addr, Option<nat>>)
    requires s.tick.Idle? && s.limits.maxAge < TWO_64 && s.limits.maxIdle < TWO_64
    requires var t := AfterSwap(s, requests); t.tick.todo == {} && Due(t.mem.retry, t.tick.at) == {}
    ensures Leads(s, AfterSwap(s, requests).(tick := Idle))
  {
    var es := SoloTickReaches(s, requests);
    SendsNothing(s, AfterSwap(s, requests));
  }

  /** From the swap to the end of the tick, when there is nothing to send. */
  lemma SendsNothing(s: State, t: State)
    requires Leads(s, t) && t.tick.Probing? && t.tick.todo == {} && Due(t.mem.retry, t.tick.at) == {}
    ensures Leads(s, t.(tick := Idle))
  {
    var u := t.(tick := Requeueing({}));
    LeadsThen(s, t, PROCEED, u);
    LeadsThen(s, u, PROCEED, t.(tick := Idle));
  }
}
