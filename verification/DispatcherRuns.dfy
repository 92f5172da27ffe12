/** What holds over whole runs of the dispatcher: exclusion and its limits, no lost trigger,
    no deadlock, and a drain that ends. */
module DispatcherRuns {
  import opened Wrappers
  import opened Forwarding
  import opened Dispatcher

  /** A run: the states visited and the steps between them. */
  ghost predicate Run(ss: seq<State>, es: seq<Step>) {
    && |ss| == |es| + 1
    && forall k :: 0 <= k < |es| ==> Enabled(ss[k], es[k]) && ss[k + 1] == Apply(ss[k], es[k])
  }

  ghost predicate FromStart(ss: seq<State>, es: seq<Step>) {
    && Run(ss, es)
    && ss[0].capacity >= 1 && ss[0].concurrency >= 1
    && ss[0] == Init(ss[0].capacity, ss[0].concurrency)
  }

  lemma {:induction false} RunInv(ss: seq<State>, es: seq<Step>, k: nat)
    requires Run(ss, es) && Inv(ss[0]) && k <= |es|
    ensures Inv(ss[k])
  {
    if k > 0 {
      RunInv(ss, es, k - 1);
      InvKept(ss[k - 1], es[k - 1]);
    }
  }

  // ---- Exclusion and limits ----

  function PermitHolders(s: State): set<nat> {
    set i | 0 <= i < |s.tasks| && HoldsPermit(s.tasks[i].pc)
  }

  lemma {:induction false} HoldersCounted(s: State)
    ensures |PermitHolders(s)| == Sum(s.tasks, Permit)
    decreases |s.tasks|
  {
    if s.tasks != [] {
      var n := |s.tasks| - 1;
      var t := s.(tasks := s.tasks[..n]);
      HoldersCounted(t);
      if HoldsPermit(s.tasks[n].pc) {
        assert PermitHolders(s) == PermitHolders(t) + {n};
      } else {
        assert PermitHolders(s) == PermitHolders(t);
      }
    } else {
      assert PermitHolders(s) == {};
    }
  }

  function RunningAddrs(ts: seq<Task>): set<Addr> {
    set i | 0 <= i < |ts| && Running(ts[i].pc) :: ts[i].addr
  }

  lemma RunningAddrsLast(ts: seq<Task>)
    requires ts != []
    ensures
      var n := |ts| - 1;
      RunningAddrs(ts) == RunningAddrs(ts[..n]) + (if Running(ts[n].pc) then {ts[n].addr} else {})
  {
    var n := |ts| - 1;
    forall a
      ensures a in RunningAddrs(ts) <==> a in RunningAddrs(ts[..n]) || (Running(ts[n].pc) && a == ts[n].addr)
    {
      if a in RunningAddrs(ts[..n]) {
        var i :| 0 <= i < n && Running(ts[..n][i].pc) && ts[..n][i].addr == a;
        assert ts[i].addr == a;
      }
      if a in RunningAddrs(ts) && !(Running(ts[n].pc) && a == ts[n].addr) {
        var i :| 0 <= i < |ts| && Running(ts[i].pc) && ts[i].addr == a;
        assert ts[..n][i] == ts[i];
      }
    }
  }

  lemma {:induction false} RunningAddrsBounded(ts: seq<Task>)
    ensures |RunningAddrs(ts)| <= Sum(ts, Permit)
    decreases |ts|
  {
    if ts == [] {
      assert RunningAddrs(ts) == {};
    } else {
      RunningAddrsLast(ts);
      RunningAddrsBounded(ts[..|ts| - 1]);
    }
  }

  /** At most one forward runs per address, no more permits are held than configured, the
      in-flight keys are the claimed and unfinished addresses, and there is at most one key more
      than permits. */
  lemma LimitsOf(s: State)
    requires Inv(s)
    ensures forall i, j, a :: RunningOn(s, i, a) && RunningOn(s, j, a) ==> i == j
    ensures |PermitHolders(s)| <= s.concurrency
    ensures forall a :: a in s.inFlight <==> s.hand == Claimed(a) || exists i :: RunningOn(s, i, a)
    ensures |s.inFlight| <= s.concurrency + 1
  {
    HoldersCounted(s);
    InFlightLimit(s);
  }

  /** These limits hold in every reachable state. */
  lemma {:induction false} ConcurrencyLimits(ss: seq<State>, es: seq<Step>, k: nat)
    requires FromStart(ss, es) && k <= |es|
    ensures
      var s := ss[k];
      && (forall i, j, a :: RunningOn(s, i, a) && RunningOn(s, j, a) ==> i == j)
      && |PermitHolders(s)| <= ss[0].concurrency
      && (forall a :: a in s.inFlight <==> s.hand == Claimed(a) || exists i :: RunningOn(s, i, a))
      && |s.inFlight| <= ss[0].concurrency + 1
      && |s.queue| <= ss[0].capacity
  {
    InitInv(ss[0].capacity, ss[0].concurrency);
    RunInv(ss, es, k);
    ConfigKept(ss, es, k);
    LimitsOf(ss[k]);
  }

  lemma {:induction false} ConfigKept(ss: seq<State>, es: seq<Step>, k: nat)
    requires Run(ss, es) && k <= |es|
    ensures ss[k].capacity == ss[0].capacity && ss[k].concurrency == ss[0].concurrency
  {
    if k > 0 {
      ConfigKept(ss, es, k - 1);
    }
  }

  lemma InFlightLimit(s: State)
    requires Inv(s)
    ensures |s.inFlight| <= s.concurrency + 1
  {
    var claimed := if s.hand.Claimed? then {s.hand.addr} else {};
    var running := RunningAddrs(s.tasks);
    forall a | a in s.inFlight.Keys
      ensures a in claimed + running
    {
      if s.hand != Claimed(a) {
        var i :| RunningOn(s, i, a);
      }
    }
    SubsetSize(s.inFlight.Keys, claimed + running);
    RunningAddrsBounded(s.tasks);
  }

  // ---- No lost trigger ----

  /** The address is queued, received or claimed without having started, marked dirty, or held
      by a finished task that will send it again. */
  ghost predicate Pending(s: State, a: Addr) {
    || a in s.queue
    || s.hand == Holding(a)
    || s.hand == Claimed(a)
    || (a in s.inFlight && s.inFlight[a])
    || exists i :: 0 <= i < |s.tasks| && s.tasks[i].addr == a && Waiting(s.tasks[i].pc)
  }

  predicate Waiting(pc: Pc) {
    pc.Starting? || pc == Releasing(true) || pc.Resending?
  }

  predicate Triggers(e: Step, a: Addr) {
    e == Send(a)
  }

  predicate Starts(s: State, e: Step, a: Addr) {
    e.Begin? && e.task < |s.tasks| && s.tasks[e.task].addr == a
  }

  /** One step loses a pending trigger only by starting a forward for that address. */
  lemma PendingKept(s: State, e: Step, a: Addr)
    requires Inv(s) && Enabled(s, e) && Pending(s, a) && !Starts(s, e, a)
    ensures Pending(Apply(s, e), a)
  {
    var s' := Apply(s, e);
    if i :| 0 <= i < |s.tasks| && s.tasks[i].addr == a && Waiting(s.tasks[i].pc) {
      PendingTaskKept(s, e, a, i);
    } else if e.Receive? && a in s.queue {
      assert s.queue == [s.queue[0]] + s'.queue;
    } else if e.Acquire? && s.hand == Claimed(a) {
      assert Waiting(s'.tasks[|s.tasks|].pc);
    } else if e.Finish? && s.tasks[e.task].addr == a && a in s.inFlight && s.inFlight[a] {
      assert Waiting(s'.tasks[e.task].pc);
    }
  }

  lemma PendingTaskKept(s: State, e: Step, a: Addr, i: nat)
    requires Enabled(s, e) && !Starts(s, e, a)
    requires i < |s.tasks| && s.tasks[i].addr == a && Waiting(s.tasks[i].pc)
    ensures Pending(Apply(s, e), a)
  {
    var s' := Apply(s, e);
    if e == Resend(i) {
      assert s'.queue[|s.queue|] == a;
    } else {
      assert s'.tasks[i].addr == a && Waiting(s'.tasks[i].pc);
    }
  }

  /** No trigger is lost by the in-flight deduplication.  In every run, an address whose latest
      trigger (step `t`) is newer than every start of a forward for it is still pending. */
  lemma {:induction false} NoTriggerLost(ss: seq<State>, es: seq<Step>, a: Addr, t: nat)
    requires FromStart(ss, es) && t < |es| && Triggers(es[t], a)
    requires forall k :: t < k < |es| ==> !Starts(ss[k], es[k], a)
    ensures Pending(ss[|es|], a)
    decreases |es|
  {
    var n := |es| - 1;
    if t == n {
      assert ss[|es|].queue[|ss[n].queue|] == a;
    } else {
      NoTriggerLost(ss[..|es|], es[..n], a, t);
      InitInv(ss[0].capacity, ss[0].concurrency);
      RunInv(ss, es, n);
      PendingKept(ss[n], es[n], a);
    }
  }

  // ---- Nothing is overtaken ----

  /** A `Receive` takes the oldest entry of the queue and moves the others up by one place; every
      other step leaves them where they are, and puts a new entry behind them. */
  lemma QueueInOrder(s: State, e: Step, i: nat)
    requires Enabled(s, e) && i < |s.queue|
    ensures
      var s' := Apply(s, e);
      if e.Receive? then
        if i == 0 then s'.hand == Holding(s.queue[0]) else i - 1 < |s'.queue| && s'.queue[i - 1] == s.queue[i]
      else i < |s'.queue| && s'.queue[i] == s.queue[i]
  {
  }

  function Receives(es: seq<Step>, m: nat, k: nat): nat
    requires m <= k <= |es|
  {
    if k == m then 0 else Receives(es, m, k - 1) + (if es[k - 1].Receive? then 1 else 0)
  }

  lemma {:induction false} MovesUp(ss: seq<State>, es: seq<Step>, m: nat, k: nat, i: nat)
    requires Run(ss, es) && m <= k <= |es| && Receives(es, m, k) <= i < |ss[m].queue|
    ensures
      var place := i - Receives(es, m, k);
      place < |ss[k].queue| && ss[k].queue[place] == ss[m].queue[i]
  {
    if k > m {
      MovesUp(ss, es, m, k - 1, i);
      QueueInOrder(ss[k - 1], es[k - 1], i - Receives(es, m, k - 1));
    }
  }

  /** First in, first out, whatever producers do: the trigger at place `i` is what the consumer gets
      from its (i+1)-th `Receive`. */
  lemma {:induction false} ReceivedInOrder(ss: seq<State>, es: seq<Step>, m: nat, k: nat, i: nat)
    requires Run(ss, es) && m <= k < |es| && i < |ss[m].queue|
    requires Receives(es, m, k) == i && es[k].Receive?
    ensures ss[k + 1].hand == Holding(ss[m].queue[i])
  {
    MovesUp(ss, es, m, k, i);
    QueueInOrder(ss[k], es[k], 0);
  }

  // ---- Progress ----

  /** Nothing is queued, held, in flight or unfinished. */
  ghost predicate Quiet(s: State) {
    && s.queue == []
    && s.hand.Empty?
    && s.inFlight == map[]
    && forall i :: 0 <= i < |s.tasks| ==> s.tasks[i].pc.Done?
  }

  /** A step of the dispatcher itself or of a task it spawned, not of a producer. */
  predicate Internal(e: Step) {
    !e.Send?
  }

  /** The step that an unfinished task can always take, when there is room for a re-send. */
  function TaskStep(s: State, i: nat): Step
    requires i < |s.tasks|
  {
    match s.tasks[i].pc
    case Starting => Begin(i, Finishing)
    case Finishing => Finish(i)
    case Releasing(_) => Release(i)
    case Resending => Resend(i)
    case _ => Work(i, Finishing)
  }

  lemma TaskStepEnabled(s: State, i: nat)
    requires i < |s.tasks| && !s.tasks[i].pc.Done?
    requires s.tasks[i].pc.Resending? ==> |s.queue| < s.capacity
    ensures Internal(TaskStep(s, i)) && Enabled(s, TaskStep(s, i))
  {
  }

  lemma {:induction false} SomeHolder(ts: seq<Task>)
    requires Sum(ts, Permit) > 0
    ensures exists i :: 0 <= i < |ts| && HoldsPermit(ts[i].pc)
    decreases |ts|
  {
    var n := |ts| - 1;
    if !HoldsPermit(ts[n].pc) {
      SomeHolder(ts[..n]);
      var i :| 0 <= i < |ts[..n]| && HoldsPermit(ts[..n][i].pc);
      assert HoldsPermit(ts[i].pc);
    }
  }

  /** With producers silent, the dispatcher is never stuck: even with a full channel and all
      permits taken some internal step is enabled, until everything is quiet. */
  lemma NoDeadlock(s: State)
    requires Inv(s) && !Quiet(s)
    ensures exists e :: Internal(e) && Enabled(s, e)
  {
    var e;
    if s.hand.Holding? {
      e := if s.hand.addr in s.inFlight then Coalesce else Claim;
    } else if s.hand.Claimed? {
      if s.free > 0 {
        e := Acquire;
      } else {
        SomeHolder(s.tasks);
        var i :| 0 <= i < |s.tasks| && HoldsPermit(s.tasks[i].pc);
        TaskStepEnabled(s, i);
        e := TaskStep(s, i);
      }
    } else if s.queue != [] {
      e := Receive;
    } else {
      e := UnfinishedTask(s);
    }
    assert Internal(e) && Enabled(s, e);
  }

  lemma UnfinishedTask(s: State) returns (e: Step)
    requires Inv(s) && !Quiet(s) && s.hand.Empty? && s.queue == []
    ensures Internal(e) && Enabled(s, e)
  {
    if s.inFlight != map[] {
      var a :| a in s.inFlight;
      var i :| RunningOn(s, i, a);
      TaskStepEnabled(s, i);
      e := TaskStep(s, i);
    } else {
      var i :| 0 <= i < |s.tasks| && !s.tasks[i].pc.Done?;
      TaskStepEnabled(s, i);
      e := TaskStep(s, i);
    }
  }

  function DirtyKeys(s: State): set<Addr> {
    set a | a in s.inFlight && s.inFlight[a]
  }

  /** Steps a task can still cause, counting a pending re-send as a fresh queue entry. */
  function TaskWeight(pc: Pc): nat {
    match pc
    case Done => 0
    case Releasing(requeue) => if requeue then 32 else 1
    case Resending => 31
    case _ => 5 + Rank(pc)
  }

  function HandWeight(h: Hand): nat {
    match h
    case Empty => 0
    case Holding(_) => 29
    case Claimed(_) => 26
  }

  /** A bound on the internal steps still possible. */
  function Measure(s: State): nat {
    30 * |s.queue| + HandWeight(s.hand) + 28 * |DirtyKeys(s)| + Sum(s.tasks, TaskWeight)
  }

  function WaitingOne(pc: Pc): nat {
    if Waiting(pc) then 1 else 0
  }

  /** Trigger tokens: each can start at most one forward. */
  function Tokens(s: State): nat {
    |s.queue| + (if s.hand.Empty? then 0 else 1) + |DirtyKeys(s)| + Sum(s.tasks, WaitingOne)
  }

  /** The step re-enqueues a dirty address: its mark is spent. */
  predicate SpendsMark(s: State, e: Step)
    requires Enabled(s, e)
  {
    e.Finish? && s.tasks[e.task].addr in DirtyKeys(s)
  }

  lemma DirtyKeysAfter(s: State, e: Step)
    requires Enabled(s, e)
    ensures
      DirtyKeys(Apply(s, e))
      == if e.Coalesce? then DirtyKeys(s) + {s.hand.addr}
         else if e.Finish? then DirtyKeys(s) - {s.tasks[e.task].addr}
         else DirtyKeys(s)
  {
  }

  lemma DirtyKeysStep(s: State, e: Step)
    requires Enabled(s, e)
    ensures
      var before, after := DirtyKeys(s), DirtyKeys(Apply(s, e));
      && (e.Coalesce? ==> |after| <= |before| + 1)
      && (SpendsMark(s, e) ==> |after| == |before| - 1)
      && (!e.Coalesce? && !SpendsMark(s, e) ==> |after| == |before|)
      && (e.Finish? ==> Apply(s, e).tasks[e.task].pc == Releasing(SpendsMark(s, e)))
  {
    DirtyKeysAfter(s, e);
    if e.Finish? && !SpendsMark(s, e) {
      assert DirtyKeys(s) - {s.tasks[e.task].addr} == DirtyKeys(s);
    }
  }

  lemma TaskSumStep(s: State, e: Step, weight: Pc -> nat)
    requires Enabled(s, e)
    ensures
      var s' := Apply(s, e);
      match e
      case Acquire => Sum(s'.tasks, weight) == Sum(s.tasks, weight) + weight(Starting)
      case Begin(i, pc) => Sum(s'.tasks, weight) + weight(s.tasks[i].pc) == Sum(s.tasks, weight) + weight(pc)
      case Work(i, pc) => Sum(s'.tasks, weight) + weight(s.tasks[i].pc) == Sum(s.tasks, weight) + weight(pc)
      case Finish(i) => Sum(s'.tasks, weight) + weight(s.tasks[i].pc) == Sum(s.tasks, weight) + weight(s'.tasks[i].pc)
      case Release(i) => Sum(s'.tasks, weight) + weight(s.tasks[i].pc) == Sum(s.tasks, weight) + weight(s'.tasks[i].pc)
      case Resend(i) => Sum(s'.tasks, weight) + weight(s.tasks[i].pc) == Sum(s.tasks, weight) + weight(Done)
      case _ => Sum(s'.tasks, weight) == Sum(s.tasks, weight)
  {
    match e
    case Acquire => SumAppend(s.tasks, Task(s.hand.addr, Starting), weight);
    case Begin(i, pc) => MoveSum(s, i, pc, weight);
    case Work(i, pc) => MoveSum(s, i, pc, weight);
    case Finish(i) => MoveSum(s, i, Apply(s, e).tasks[i].pc, weight);
    case Release(i) => MoveSum(s, i, Apply(s, e).tasks[i].pc, weight);
    case Resend(i) => MoveSum(s, i, Done, weight);
    case _ =>
  }

  lemma MeasureFalls(s: State, e: Step)
    requires Enabled(s, e) && Internal(e)
    ensures Measure(Apply(s, e)) < Measure(s)
  {
    DirtyKeysStep(s, e);
    TaskSumStep(s, e, TaskWeight);
  }

  /** No internal step creates a token, and starting a forward spends one. */
  lemma TokensSpent(s: State, e: Step)
    requires Enabled(s, e) && Internal(e)
    ensures Tokens(Apply(s, e)) + (if e.Begin? then 1 else 0) <= Tokens(s)
  {
    DirtyKeysStep(s, e);
    TaskSumStep(s, e, WaitingOne);
  }

  function Begun(es: seq<Step>): nat {
    if es == [] then 0 else Begun(es[..|es| - 1]) + (if es[|es| - 1].Begin? then 1 else 0)
  }

  /** Once producers stop, a run has at most `Measure` steps and starts at most as many forwards
      as there were trigger tokens; when it cannot go on, everything is quiet. */
  lemma {:induction false} DrainEnds(ss: seq<State>, es: seq<Step>)
    requires Run(ss, es) && Inv(ss[0])
    requires forall k :: 0 <= k < |es| ==> Internal(es[k])
    ensures |es| + Measure(ss[|es|]) <= Measure(ss[0])
    ensures Begun(es) + Tokens(ss[|es|]) <= Tokens(ss[0])
    ensures (forall e :: Internal(e) ==> !Enabled(ss[|es|], e)) ==> Quiet(ss[|es|])
    decreases |es|
  {
    var n := |es| - 1;
    if es != [] {
      DrainEnds(ss[..|es|], es[..n]);
      MeasureFalls(ss[n], es[n]);
      TokensSpent(ss[n], es[n]);
    }
    RunInv(ss, es, |es|);
    if !Quiet(ss[|es|]) {
      NoDeadlock(ss[|es|]);
    }
  }
}
