/** Triggers, progress and announcements over whole runs of the interleaved system. */
module ProtocolProgress {
  import opened Forwarding
  import opened Wrappers
  import opened Backoff
  import opened Protocol
  import opened Obligations
  import D = Dispatcher
  import R = DispatcherRuns

  // ---- Exclusion ----

  /** A forward about to submit. */
  predicate Submitting(s: State, i: nat, a: Addr) {
    TaskAt(s, i, a) && s.d.tasks[i].pc.Submit?
  }

  /** In every state of every run, crashes included: no address is submitted twice at once, and no
      more submissions are under way than permits are configured. */
  lemma {:induction false} NoConcurrentDoubleSubmit(ss: seq<State>, es: seq<Step>, k: nat, i: nat, j: nat, a: Addr)
    requires FromStart(ss, es) && k <= |es|
    requires Submitting(ss[k], i, a) && Submitting(ss[k], j, a)
    ensures i == j
    ensures |R.PermitHolders(ss[k].d)| <= ss[k].d.concurrency
    ensures |ss[k].d.inFlight| <= ss[k].d.concurrency + 1
  {
    RunInv(ss, es, k);
    R.LimitsOf(ss[k].d);
    OneTask(ss[k], i, j, a);
  }

  // ---- Triggers are not lost ----

  predicate StartsForward(s: State, e: Step, a: Addr) {
    e.Work? && TaskAt(s, e.task, a) && s.d.tasks[e.task].pc.Starting?
  }

  /** Until the process crashes, an address whose latest trigger (step `t`, from any producer) is
      newer than every start of a forward for it is still pending. */
  lemma {:induction false} NoTriggerLost(ss: seq<State>, es: seq<Step>, a: Addr, t: nat, k: nat)
    requires FromStart(ss, es) && t < k <= |es| && Sends(ss[t], es[t], a)
    requires forall j :: t < j < k ==> !es[j].Crash? && !StartsForward(ss[j], es[j], a)
    ensures R.Pending(ss[k].d, a)
  {
    RunInv(ss, es, k - 1);
    if k == t + 1 {
      SentIsPending(ss[t], es[t], a);
    } else {
      NoTriggerLost(ss, es, a, t, k - 1);
      PendingKept(ss[k - 1], es[k - 1], a);
    }
  }

  // ---- Triggers are not overtaken ----

  predicate Takes(e: Step) {
    e.Consume? && e.consume.Receive?
  }

  /** How often the consumer has taken a trigger. */
  function Taken(es: seq<Step>, m: nat, k: nat): nat
    requires m <= k <= |es|
  {
    if k == m then 0 else Taken(es, m, k - 1) + (if Takes(es[k - 1]) then 1 else 0)
  }

  lemma TakenInOrder(s: State, e: Step, i: nat)
    requires Enabled(s, e) && !e.Crash? && i < |s.d.queue|
    ensures
      var d := Apply(s, e).d;
      if Takes(e) then
        if i == 0 then d.hand == D.Holding(s.d.queue[0]) else i - 1 < |d.queue| && d.queue[i - 1] == s.d.queue[i]
      else i < |d.queue| && d.queue[i] == s.d.queue[i]
  {
    RefinesDispatcher(s, e);
    if DispatcherStep(s, e).Some? {
      R.QueueInOrder(s.d, DispatcherStep(s, e).value, i);
    }
  }

  lemma {:induction false} TriggerMovesUp(ss: seq<State>, es: seq<Step>, m: nat, k: nat, i: nat)
    requires Run(ss, es) && m <= k <= |es| && Taken(es, m, k) <= i < |ss[m].d.queue|
    requires forall j :: m <= j < k ==> !es[j].Crash?
    ensures
      var place := i - Taken(es, m, k);
      place < |ss[k].d.queue| && ss[k].d.queue[place] == ss[m].d.queue[i]
  {
    if k > m {
      TriggerMovesUp(ss, es, m, k - 1, i);
      TakenInOrder(ss[k - 1], es[k - 1], i - Taken(es, m, k - 1));
    }
  }

  /** Until a crash: a trigger that was sent (step `t`) behind `n` others is what the consumer takes
      at its (n+1)-th turn from then on, whatever scanner, ticks, poll and workers send meanwhile. */
  lemma {:induction false} SentIsTakenInTurn(ss: seq<State>, es: seq<Step>, a: Addr, t: nat, k: nat)
    requires Run(ss, es) && t < k < |es| && Sends(ss[t], es[t], a)
    requires forall j :: t <= j <= k ==> !es[j].Crash?
    requires Taken(es, t + 1, k) == |ss[t].d.queue| && Takes(es[k])
    ensures ss[k + 1].d.hand == D.Holding(a)
  {
    RefinesDispatcher(ss[t], es[t]);
    assert ss[t + 1].d.queue == ss[t].d.queue + [a];
    TriggerMovesUp(ss, es, t + 1, k, |ss[t].d.queue|);
    TakenInOrder(ss[k], es[k], 0);
  }

  // ---- Announcements last ----

  lemma {:induction false} ChainInvOf(ss: seq<State>, es: seq<Step>, k: nat)
    requires FromStart(ss, es) && k <= |es|
    ensures ChainInv(ss[k])
  {
    RunInv(ss, es, k);
  }

  lemma TipGrows(s: State, e: Step)
    requires Enabled(s, e)
    ensures Tip(s) <= Tip(Apply(s, e))
  {
  }

  /** All deposits up to `height` are announced, should the address be live. */
  predicate AnnouncedTo(s: State, a: Addr, height: nat) {
    height <= Tip(s) && (a in s.live ==> height <= s.live[a])
  }

  lemma AnnouncedToKept(s: State, e: Step, a: Addr, height: nat)
    requires ChainInv(s) && Enabled(s, e) && AnnouncedTo(s, a, height)
    ensures AnnouncedTo(Apply(s, e), a, height)
  {
    TipGrows(s, e);
  }

  lemma SendAnnounces(s: State, e: Step, a: Addr)
    requires Enabled(s, e) && Sends(s, e, a)
    ensures AnnouncedTo(Apply(s, e), a, Tip(s))
  {
  }

  /** What a producer has sent stays announced in every later state, across removals, crashes
      and restarts. */
  lemma {:induction false} SentStaysAnnounced(ss: seq<State>, es: seq<Step>, a: Addr, t: nat, k: nat)
    requires FromStart(ss, es) && t < k <= |es| && Sends(ss[t], es[t], a)
    ensures AnnouncedTo(ss[k], a, Tip(ss[t]))
  {
    if k == t + 1 {
      SendAnnounces(ss[t], es[t], a);
    } else {
      SentStaysAnnounced(ss, es, a, t, k - 1);
      ChainInvOf(ss, es, k - 1);
      AnnouncedToKept(ss[k - 1], es[k - 1], a, Tip(ss[t]));
    }
  }

  /** The backstop.  Once any producer, in particular the balance poll, has sent an address, every
      deposit committed by then is covered for good: at skipped and unscanned heights too, as
      long as it is held, a live address that is not being removed has an obligation. */
  lemma {:induction false} SweepRecoversEveryDeposit(ss: seq<State>, es: seq<Step>, a: Addr, height: nat,
      t: nat, k: nat)
    requires FromStart(ss, es) && t < k <= |es| && Sends(ss[t], es[t], a)
    requires height <= Tip(ss[t])
    requires a in ss[k].live && !Removing(ss[k], a) && (a, height) in ss[k].chain.held
    ensures Obligation(ss[k], a)
  {
    SentStaysAnnounced(ss, es, a, t, k);
    NoFundedAddressForgotten(ss, es, k, a, height);
  }

  // ---- What a tick and a sweep have set out to send, they send ----

  predicate InTick(s: State, a: Addr) {
    (s.tick.Probing? || s.tick.Requeueing?) && a in s.tick.todo
  }

  lemma InTickKept(s: State, e: Step, a: Addr)
    requires Enabled(s, e) && !e.Crash? && InTick(s, a)
    ensures InTick(Apply(s, e), a) || Sends(s, e, a)
  {
  }

  /** A newcomer's probe and a due backoff entry are sent before the tick is over. */
  lemma {:induction false} TickSends(ss: seq<State>, es: seq<Step>, a: Addr, i: nat, k: nat)
    requires Run(ss, es) && i <= k <= |es| && InTick(ss[i], a) && !InTick(ss[k], a)
    requires forall j :: i <= j < k ==> !es[j].Crash?
    ensures exists j :: i <= j < k && Sends(ss[j], es[j], a)
  {
    if InTick(ss[k - 1], a) {
      InTickKept(ss[k - 1], es[k - 1], a);
      assert Sends(ss[k - 1], es[k - 1], a);
    } else {
      TickSends(ss, es, a, i, k - 1);
      var j :| i <= j < k - 1 && Sends(ss[j], es[j], a);
    }
  }

  // ---- What a tick sends, exactly ----

  /** The tick is probing newcomers, or re-sending due addresses. */
  predicate InPhase(s: State, probing: bool) {
    if probing then s.tick.Probing? else s.tick.Requeueing?
  }

  predicate TickSendsTo(e: Step, a: Addr) {
    e.Maint? && e.maint == SendTo(a)
  }

  ghost predicate SentByTick(es: seq<Step>, a: Addr, i: nat, k: nat)
    requires i <= k <= |es|
  {
    exists j :: i <= j < k && TickSendsTo(es[j], a)
  }

  lemma TodoKept(s: State, e: Step, a: Addr, probing: bool)
    requires Enabled(s, e) && !e.Crash? && InPhase(s, probing) && InPhase(Apply(s, e), probing)
    ensures InTick(s, a) <==> InTick(Apply(s, e), a) || TickSendsTo(e, a)
  {
  }

  lemma PhaseEnds(s: State, e: Step, probing: bool)
    requires Enabled(s, e) && !e.Crash? && InPhase(s, probing) && !InPhase(Apply(s, e), probing)
    ensures forall a :: !InTick(s, a) && !TickSendsTo(e, a)
  {
  }

  lemma {:induction false} PhaseSends(ss: seq<State>, es: seq<Step>, a: Addr, probing: bool, i: nat, k: nat)
    requires Run(ss, es) && i <= k <= |es| && forall j :: i <= j <= k ==> InPhase(ss[j], probing)
    requires forall j :: i <= j < k ==> !es[j].Crash?
    ensures InTick(ss[i], a) <==> InTick(ss[k], a) || SentByTick(es, a, i, k)
  {
    if k > i {
      PhaseSends(ss, es, a, probing, i, k - 1);
      assert ss[k] == Apply(ss[k - 1], es[k - 1]);
      TodoKept(ss[k - 1], es[k - 1], a, probing);
      SentLater(es, a, i, k);
    }
  }

  lemma {:induction false} SentLater(es: seq<Step>, a: Addr, i: nat, k: nat)
    requires i < k <= |es|
    ensures SentByTick(es, a, i, k) <==> SentByTick(es, a, i, k - 1) || TickSendsTo(es[k - 1], a)
  {
  }

  /** From its first state to the state after its last, a phase sends exactly what it set out to. */
  lemma {:induction false} PhaseSendsExactly(ss: seq<State>, es: seq<Step>, a: Addr, probing: bool, i: nat, k: nat)
    requires Run(ss, es) && i < k <= |es| && forall j :: i <= j < k ==> InPhase(ss[j], probing) && !es[j].Crash?
    requires !InPhase(ss[k], probing)
    ensures SentByTick(es, a, i, k) <==> InTick(ss[i], a)
  {
    PhaseSends(ss, es, a, probing, i, k - 1);
    assert ss[k] == Apply(ss[k - 1], es[k - 1]);
    PhaseEnds(ss[k - 1], es[k - 1], probing);
    SentLater(es, a, i, k);
  }

  /** The backoff entries that are over at the tick's time. */
  lemma DueIsTakenUp(s: State, e: Step, a: Addr)
    requires Enabled(s, e) && s.tick.Probing? && Apply(s, e).tick.Requeueing?
    ensures
      InTick(Apply(s, e), a)
      <==> a in s.mem.retry && s.mem.retry[a].nextAttempt <= s.tick.at
  {
  }

  /** In every run, up to a crash: from the end of its probes (step `i`) to its own end (state `k`) a
      tick sends exactly the addresses whose backoff was over, at the time of the tick, when the
      probes ended. */
  lemma {:induction false} ExactlyDueIsSent(ss: seq<State>, es: seq<Step>, a: Addr, i: nat, k: nat)
    requires Run(ss, es) && i + 1 < k <= |es| && ss[i].tick.Probing?
    requires forall j :: i < j < k ==> ss[j].tick.Requeueing? && !es[j].Crash?
    requires !ss[k].tick.Requeueing?
    ensures
      SentByTick(es, a, i + 1, k)
      <==> a in ss[i].mem.retry && ss[i].mem.retry[a].nextAttempt <= ss[i].tick.at
  {
    assert ss[i + 1] == Apply(ss[i], es[i]);
    DueIsTakenUp(ss[i], es[i], a);
    assert forall j :: i + 1 <= j < k ==> InPhase(ss[j], false);
    PhaseSendsExactly(ss, es, a, false, i + 1, k);
  }

  /** And from the swap (step `i`) to the end of its probes (state `k`), exactly the addresses that
      the swap put on the live list. */
  lemma {:induction false} ExactlyNewcomersAreProbed(ss: seq<State>, es: seq<Step>, a: Addr, i: nat, k: nat)
    requires FromStart(ss, es) && i + 1 < k <= |es| && Swaps(ss[i], es[i])
    requires forall j :: i < j < k ==> ss[j].tick.Probing? && !es[j].Crash?
    requires !ss[k].tick.Probing?
    ensures SentByTick(es, a, i + 1, k) <==> a in ss[i + 1].live && a !in ss[i].live
  {
    RunInv(ss, es, i);
    assert ss[i + 1] == Apply(ss[i], es[i]);
    assert forall j :: i + 1 <= j < k ==> InPhase(ss[j], true);
    PhaseSendsExactly(ss, es, a, true, i + 1, k);
  }

  // ---- No list is sent twice ----

  /** What a producer still has to send from its current list. */
  function ToDeliver(s: State): set<Addr> {
    if s.scan.phase.Delivering? then s.scan.phase.todo else {}
  }

  function TickTodo(s: State): set<Addr> {
    if s.tick.Probing? || s.tick.Requeueing? then s.tick.todo else {}
  }

  /** Sending takes the address, and nothing else, off the producer's list. */
  lemma SendingShortens(s: State, e: Step, a: Addr)
    requires Enabled(s, e) && Sends(s, e, a)
    ensures
      var s' := Apply(s, e);
      if e.Maint? then a in TickTodo(s) && TickTodo(s') == TickTodo(s) - {a}
      else if e.Poll? then a in s.poll && s'.poll == s.poll - {a}
      else a in ToDeliver(s) && ToDeliver(s') == ToDeliver(s) - {a}
  {
  }

  /** Nothing is added to a list once it is there: a tick's only by a new phase, a sweep's by its
      snapshot, a delivery's by the fetch of a block. */
  lemma ListsOnlyShrink(s: State, e: Step)
    requires Enabled(s, e)
    ensures
      var s' := Apply(s, e);
      && ((s.tick.Probing? && s'.tick.Probing?) || (s.tick.Requeueing? && s'.tick.Requeueing?) ==>
            TickTodo(s') <= TickTodo(s))
      && (e != Poll(Snapshot) ==> s'.poll <= s.poll)
      && (!(e.Scanner? && e.scan.Fetch?) ==> ToDeliver(s') <= ToDeliver(s))
  {
  }

  lemma {:induction false} StaysOffTick(ss: seq<State>, es: seq<Step>, a: Addr, probing: bool, i: nat, k: nat)
    requires Run(ss, es) && i <= k <= |es| && forall j :: i <= j <= k ==> InPhase(ss[j], probing)
    requires !InTick(ss[i], a)
    ensures !InTick(ss[k], a)
  {
    if k > i {
      StaysOffTick(ss, es, a, probing, i, k - 1);
      ListsOnlyShrink(ss[k - 1], es[k - 1]);
      assert ss[k] == Apply(ss[k - 1], es[k - 1]);
    }
  }

  /** A tick sends no address twice while it probes, and none twice while it re-sends. */
  lemma {:induction false} TickSendsOnce(ss: seq<State>, es: seq<Step>, a: Addr, probing: bool, i: nat, k: nat)
    requires Run(ss, es) && i < k < |es| && forall j :: i <= j <= k ==> InPhase(ss[j], probing)
    requires TickSendsTo(es[i], a)
    ensures !TickSendsTo(es[k], a)
  {
    SendingShortens(ss[i], es[i], a);
    assert ss[i + 1] == Apply(ss[i], es[i]);
    StaysOffTick(ss, es, a, probing, i + 1, k);
  }

  lemma {:induction false} StaysOffPoll(ss: seq<State>, es: seq<Step>, a: Addr, i: nat, k: nat)
    requires Run(ss, es) && i <= k <= |es| && a !in ss[i].poll
    requires forall j :: i <= j < k ==> es[j] != Poll(Snapshot)
    ensures a !in ss[k].poll
  {
    if k > i {
      StaysOffPoll(ss, es, a, i, k - 1);
      ListsOnlyShrink(ss[k - 1], es[k - 1]);
    }
  }

  /** A sweep sends no address twice. */
  lemma {:induction false} SweepSendsOnce(ss: seq<State>, es: seq<Step>, a: Addr, i: nat, k: nat)
    requires Run(ss, es) && i < k < |es| && es[i] == Poll(PollTo(a))
    requires forall j :: i < j < k ==> es[j] != Poll(Snapshot)
    ensures es[k] != Poll(PollTo(a))
  {
    SendingShortens(ss[i], es[i], a);
    StaysOffPoll(ss, es, a, i + 1, k);
  }

  predicate Delivers(e: Step, a: Addr) {
    e.Scanner? && e.scan == Deliver(a)
  }

  lemma {:induction false} StaysDelivered(ss: seq<State>, es: seq<Step>, a: Addr, i: nat, k: nat)
    requires Run(ss, es) && i <= k <= |es| && a !in ToDeliver(ss[i])
    requires forall j :: i <= j < k ==> !(es[j].Scanner? && es[j].scan.Fetch?)
    ensures a !in ToDeliver(ss[k])
  {
    if k > i {
      StaysDelivered(ss, es, a, i, k - 1);
      ListsOnlyShrink(ss[k - 1], es[k - 1]);
    }
  }

  /** The scanner sends no address twice for one fetched block. */
  lemma {:induction false} BlockSendsOnce(ss: seq<State>, es: seq<Step>, a: Addr, i: nat, k: nat)
    requires Run(ss, es) && i < k < |es| && Delivers(es[i], a)
    requires forall j :: i < j < k ==> !(es[j].Scanner? && es[j].scan.Fetch?)
    ensures !Delivers(es[k], a)
  {
    SendingShortens(ss[i], es[i], a);
    assert forall j :: i + 1 <= j < k ==> !(es[j].Scanner? && es[j].scan.Fetch?);
    StaysDelivered(ss, es, a, i + 1, k);
  }

  // ---- Whom a tick drops ----

  /** The recorded activity, or for want of any the age, is past its limit. */
  predicate PastLimit(s: State, created: Option<nat>, a: Addr) {
    if a in s.mem.activity then s.limits.maxIdle >= TWO_63 || s.mem.activity[a] + s.limits.maxIdle < s.chain.now
    else created.Some? && (s.limits.maxAge >= TWO_63 || created.value + s.limits.maxAge < s.chain.now)
  }

  lemma RetirementIgnoresFunds(s: State, requests: map<Addr, Option<nat>>, a: Addr)
    requires s.limits.maxAge < TWO_64 && s.limits.maxIdle < TWO_64
    ensures a in PlanTick(s, requests).plan.kept <==> a in requests && !PastLimit(s, requests[a], a)
    ensures forall held :: PlanTick(s.(chain := s.chain.(held := held)), requests) == PlanTick(s, requests)
  {
    if a in requests {
      RetirementExactly(requests[a], Lookup(s.mem.activity, a), s.chain.now, s.limits.maxAge, s.limits.maxIdle);
    }
  }

  lemma PlanStays(s: State, e: Step)
    requires Enabled(s, e) && s.tick.Planned? && Apply(s, e).tick.Planned?
    ensures Apply(s, e).tick.plan == s.tick.plan
  {
  }

  lemma {:induction false} PlanLasts(ss: seq<State>, es: seq<Step>, b: nat, k: nat)
    requires Run(ss, es) && b <= k <= |es| && forall j :: b <= j <= k ==> ss[j].tick.Planned?
    ensures ss[k].tick.plan == ss[b].tick.plan
  {
    if k > b {
      PlanLasts(ss, es, b, k - 1);
      assert ss[k] == Apply(ss[k - 1], es[k - 1]);
      PlanStays(ss[k - 1], es[k - 1]);
    }
  }

  /** Whatever forwards, deposits and sweeps happen meanwhile: the tick that fetched `requests` at
      step `b` leaves on the live list, at its swap in step `k`, exactly the fetched addresses that
      were not past their limit at step `b`; what they hold plays no part. */
  lemma {:induction false} SwapKeepsExactly(ss: seq<State>, es: seq<Step>, a: Addr, b: nat, k: nat)
    requires Run(ss, es) && b < k < |es| && es[b].Maint? && es[b].maint.Begin?
    requires forall j :: b < j <= k ==> ss[j].tick.Planned?
    requires Swaps(ss[k], es[k])
    ensures
      var requests := es[b].maint.requests;
      a in ss[k + 1].live <==> a in requests && !PastLimit(ss[b], requests[a], a)
  {
    assert ss[b + 1] == Apply(ss[b], es[b]) && ss[k + 1] == Apply(ss[k], es[k]);
    PlanLasts(ss, es, b + 1, k);
    RetirementIgnoresFunds(ss[b], es[b].maint.requests, a);
  }

  lemma InPollKept(s: State, e: Step, a: Addr)
    requires Enabled(s, e) && !e.Crash? && a in s.poll
    ensures a in Apply(s, e).poll || Sends(s, e, a)
  {
  }

  /** A balance-poll sweep sends every address of its snapshot before the next snapshot. */
  lemma {:induction false} PollSends(ss: seq<State>, es: seq<Step>, a: Addr, i: nat, k: nat)
    requires Run(ss, es) && i < k <= |es| && es[i] == Poll(Snapshot) && a in ss[i].live
    requires ss[k].poll == {} && forall j :: i <= j < k ==> !es[j].Crash?
    ensures exists j :: i < j < k && Sends(ss[j], es[j], a)
  {
    assert a in ss[i + 1].poll;
    PollListSent(ss, es, a, i + 1, k);
  }

  lemma {:induction false} PollListSent(ss: seq<State>, es: seq<Step>, a: Addr, i: nat, k: nat)
    requires Run(ss, es) && i <= k <= |es| && a in ss[i].poll && a !in ss[k].poll
    requires forall j :: i <= j < k ==> !es[j].Crash?
    ensures exists j :: i <= j < k && Sends(ss[j], es[j], a)
  {
    if a in ss[k - 1].poll {
      InPollKept(ss[k - 1], es[k - 1], a);
      assert Sends(ss[k - 1], es[k - 1], a);
    } else {
      PollListSent(ss, es, a, i, k - 1);
      var j :| i <= j < k - 1 && Sends(ss[j], es[j], a);
    }
  }

  // ---- Nothing is sent without a cause ----

  /** At this step the scanner fetched the next height, and the address was watched and named by it. */
  predicate FetchNames(s: State, e: Step, a: Addr) {
    && e.Scanner? && e.scan.Fetch? && a in s.live
    && s.scan.cursor < Tip(s) && a in s.chain.blocks[s.scan.cursor]
  }

  predicate Snapshots(s: State, e: Step, a: Addr) {
    e == Poll(Snapshot) && a in s.live
  }

  lemma DeliveryBefore(s: State, e: Step, a: Addr)
    requires Enabled(s, e) && Apply(s, e).scan.phase.Delivering? && a in Apply(s, e).scan.phase.todo
    ensures FetchNames(s, e, a) || (s.scan.phase.Delivering? && a in s.scan.phase.todo)
  {
  }

  lemma {:induction false} DeliveryHasFetch(ss: seq<State>, es: seq<Step>, a: Addr, k: nat)
    requires FromStart(ss, es) && k <= |es| && ss[k].scan.phase.Delivering? && a in ss[k].scan.phase.todo
    ensures exists i :: 0 <= i < k && FetchNames(ss[i], es[i], a)
  {
    if k > 0 {
      DeliveryBefore(ss[k - 1], es[k - 1], a);
      if FetchNames(ss[k - 1], es[k - 1], a) {
        assert 0 <= k - 1 < k;
      } else {
        DeliveryHasFetch(ss, es, a, k - 1);
        var i :| 0 <= i < k - 1 && FetchNames(ss[i], es[i], a);
      }
    }
  }

  lemma {:induction false} PollHasSnapshot(ss: seq<State>, es: seq<Step>, a: Addr, k: nat)
    requires FromStart(ss, es) && k <= |es| && a in ss[k].poll
    ensures exists i :: 0 <= i < k && Snapshots(ss[i], es[i], a)
  {
    if k > 0 {
      if Snapshots(ss[k - 1], es[k - 1], a) {
        assert 0 <= k - 1 < k;
      } else {
        PollHasSnapshot(ss, es, a, k - 1);
        var i :| 0 <= i < k - 1 && Snapshots(ss[i], es[i], a);
      }
    }
  }

  /** In every run an address is sent only because the scanner fetched a block that names it while it
      was watched, because a sweep found it on the live list, or because a tick has it to send. */
  lemma {:induction false} EverySendHasACause(ss: seq<State>, es: seq<Step>, a: Addr, k: nat)
    requires FromStart(ss, es) && k < |es| && Sends(ss[k], es[k], a)
    ensures
      || (es[k].Scanner? && exists i :: 0 <= i < k && FetchNames(ss[i], es[i], a))
      || (es[k].Poll? && exists i :: 0 <= i < k && Snapshots(ss[i], es[i], a))
      || (es[k].Maint? && InTick(ss[k], a))
  {
    if es[k].Scanner? {
      DeliveryHasFetch(ss, es, a, k);
    } else if es[k].Poll? {
      PollHasSnapshot(ss, es, a, k);
    }
  }

  // ---- What changes what ----

  /** Who is live changes only at the swap of a tick, and in a crash; in particular a failed fetch
      keeps everybody. */
  lemma LiveChangesOnlyAtSwap(s: State, e: Step)
    requires Enabled(s, e) && !e.Crash? && !Swaps(s, e)
    ensures Apply(s, e).live.Keys == s.live.Keys
  {
  }

  lemma {:induction false} LiveUntilSwap(ss: seq<State>, es: seq<Step>, m: nat, k: nat)
    requires Run(ss, es) && m <= k <= |es| && forall j :: m <= j < k ==> !es[j].Crash? && !Swaps(ss[j], es[j])
    ensures ss[k].live.Keys == ss[m].live.Keys
  {
    if k > m {
      LiveUntilSwap(ss, es, m, k - 1);
      LiveChangesOnlyAtSwap(ss[k - 1], es[k - 1]);
    }
  }

  /** A submission of the address that reaches the chain. */
  predicate Forwards(s: State, e: Step, a: Addr) {
    e.Work? && Submitting(s, e.task, a) && (e.ok || e.landed)
  }

  /** A deposit stays on its address until the address is emptied: by a forward, or by somebody else. */
  lemma DepositStays(s: State, e: Step, a: Addr, height: nat)
    requires Enabled(s, e) && (a, height) in s.chain.held
    ensures (a, height) in Apply(s, e).chain.held <==> !Forwards(s, e, a) && e != Env(Sweep(a))
  {
  }

  /** A deposit appears with the block that names its address, and in no other way. */
  lemma DepositAppears(s: State, e: Step, a: Addr, height: nat)
    requires Enabled(s, e) && (a, height) !in s.chain.held
    ensures
      (a, height) in Apply(s, e).chain.held
      <==> e.Env? && e.env.Commit? && a in e.env.recipients && height == Tip(s) + 1
  {
  }

  /** Over any run: a deposit that is gone was forwarded, or swept by somebody else. */
  lemma {:induction false} GoneMeansForwarded(ss: seq<State>, es: seq<Step>, a: Addr, height: nat, m: nat, k: nat)
    requires Run(ss, es) && m <= k <= |es|
    requires (a, height) in ss[m].chain.held && (a, height) !in ss[k].chain.held
    ensures exists j :: m <= j < k && (Forwards(ss[j], es[j], a) || es[j] == Env(Sweep(a)))
  {
    if (a, height) in ss[k - 1].chain.held {
      DepositStays(ss[k - 1], es[k - 1], a, height);
      assert m <= k - 1 < k;
    } else {
      GoneMeansForwarded(ss, es, a, height, m, k - 1);
      var j :| m <= j < k - 1 && (Forwards(ss[j], es[j], a) || es[j] == Env(Sweep(a)));
    }
  }

  // ---- Progress ----

  /** Neither a producer nor a crash. */
  predicate Quieting(s: State, e: Step) {
    Enabled(s, e) && !e.Crash? && (DispatcherStep(s, e).Some? ==> !DispatcherStep(s, e).value.Send?)
  }

  predicate MovesDispatcher(s: State, e: Step)
    requires Enabled(s, e)
  {
    DispatcherStep(s, e).Some?
  }

  /** The system is never stuck while there is forwarding work: whatever the queries, fee lookups,
      submissions and writes answer, some step of the dispatcher or of a task is enabled. */
  lemma NeverStuck(s: State, ok: bool, landed: bool)
    requires D.Inv(s.d) && !R.Quiet(s.d)
    ensures exists e :: Quieting(s, e) && MovesDispatcher(s, e) && (e.Work? ==> e.ok == ok && e.landed == landed)
  {
    R.NoDeadlock(s.d);
    var c :| R.Internal(c) && D.Enabled(s.d, c);
    var e;
    if ConsumerStep(c) {
      e := Consume(c);
    } else {
      var i := c.task;
      e := if s.d.tasks[i].pc.Finishing? then Consume(D.Finish(i)) else Work(i, ok, landed);
      if e.Work? {
        RefinesDispatcher(s, e);
      }
    }
    assert Quieting(s, e) && MovesDispatcher(s, e);
  }

  function Moves(ss: seq<State>, es: seq<Step>, m: nat, k: nat): nat
    requires Run(ss, es) && m <= k <= |es|
  {
    if k == m then 0
    else Moves(ss, es, m, k - 1) + (if MovesDispatcher(ss[k - 1], es[k - 1]) then 1 else 0)
  }

  function Starts(ss: seq<State>, es: seq<Step>, m: nat, k: nat): nat
    requires Run(ss, es) && m <= k <= |es|
  {
    if k == m then 0
    else
      Starts(ss, es, m, k - 1)
      + (if es[k - 1].Work? && ss[k - 1].d.tasks[es[k - 1].task].pc.Starting? then 1 else 0)
  }

  /** From the moment producers are silent, whatever the environment and the ticks do: forwarding
      takes at most `Measure` steps, and at most as many forwards start as there were tokens. */
  lemma {:induction false} ForwardingDrains(ss: seq<State>, es: seq<Step>, m: nat, k: nat)
    requires Run(ss, es) && m <= k <= |es|
    requires forall j :: m <= j < k ==> Quieting(ss[j], es[j])
    ensures Moves(ss, es, m, k) + R.Measure(ss[k].d) <= R.Measure(ss[m].d)
    ensures Starts(ss, es, m, k) + R.Tokens(ss[k].d) <= R.Tokens(ss[m].d)
  {
    if k > m {
      ForwardingDrains(ss, es, m, k - 1);
      var s, e := ss[k - 1], es[k - 1];
      RefinesDispatcher(s, e);
      if MovesDispatcher(s, e) {
        R.MeasureFalls(s.d, DispatcherStep(s, e).value);
        R.TokensSpent(s.d, DispatcherStep(s, e).value);
      }
    }
  }
}
