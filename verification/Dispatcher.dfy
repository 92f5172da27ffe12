/** `run_dispatcher` and its spawned workers, as a transition system.

    One sequential consumer, a bounded channel, a semaphore, the in-flight map and any number
    of spawned tasks.  Capacity and concurrency are arbitrary positive numbers.  What a task does
    inside `forward_address` is left open here: it only has to come closer to its return. */
module Dispatcher {
  import opened Forwarding

  datatype Task = Task(addr: Addr, pc: Pc)

  /** What the consumer loop holds between two of its steps. */
  datatype Hand = Empty | Holding(addr: Addr) | Claimed(addr: Addr)

  /** `tasks` only grows; a task that is over stays as `Done`. */
  datatype State = State(
    capacity: nat,
    concurrency: nat,
    queue: seq<Addr>,
    hand: Hand,
    free: nat,
    inFlight: map<Addr, bool>,
    tasks: seq<Task>)

  datatype Step =
    | Send(addr: Addr)
    | Receive
    | Coalesce
    | Claim
    | Acquire
    | Begin(task: nat, next: Pc)
    | Work(task: nat, next: Pc)
    | Finish(task: nat)
    | Release(task: nat)
    | Resend(task: nat)

  function Init(capacity: nat, concurrency: nat): State {
    State(capacity, concurrency, [], Empty, concurrency, map[], [])
  }

  predicate At(s: State, i: nat, pc: Pc) {
    i < |s.tasks| && s.tasks[i].pc == pc
  }

  predicate Enabled(s: State, e: Step) {
    match e
    case Send(_) => |s.queue| < s.capacity
    case Receive => s.hand.Empty? && s.queue != []
    case Coalesce => s.hand.Holding? && s.hand.addr in s.inFlight
    case Claim => s.hand.Holding? && s.hand.addr !in s.inFlight
    case Acquire => s.hand.Claimed? && s.free > 0
    case Begin(i, pc) =>
      At(s, i, Starting) && Running(pc) && Rank(pc) < Rank(Starting)
    case Work(i, pc) =>
      && i < |s.tasks| && Running(s.tasks[i].pc) && !s.tasks[i].pc.Starting?
      && Running(pc) && Rank(pc) < Rank(s.tasks[i].pc)
    case Finish(i) => At(s, i, Finishing)
    case Release(i) => i < |s.tasks| && s.tasks[i].pc.Releasing?
    case Resend(i) => At(s, i, Resending) && |s.queue| < s.capacity
  }

  function MoveTo(s: State, i: nat, pc: Pc): State
    requires i < |s.tasks|
  {
    s.(tasks := s.tasks[i := s.tasks[i].(pc := pc)])
  }

  function Apply(s: State, e: Step): State
    requires Enabled(s, e)
  {
    match e
    case Send(a) => s.(queue := s.queue + [a])
    case Receive => s.(queue := s.queue[1..], hand := Holding(s.queue[0]))
    case Coalesce => s.(hand := Empty, inFlight := s.inFlight[s.hand.addr := true])
    case Claim => s.(hand := Claimed(s.hand.addr), inFlight := s.inFlight[s.hand.addr := false])
    case Acquire =>
      s.(hand := Empty, free := s.free - 1, tasks := s.tasks + [Task(s.hand.addr, Starting)])
    case Begin(i, pc) => MoveTo(s, i, pc)
    case Work(i, pc) => MoveTo(s, i, pc)
    case Finish(i) =>
      var a := s.tasks[i].addr;
      var dirty := a in s.inFlight && s.inFlight[a];
      MoveTo(s, i, Releasing(dirty)).(inFlight := s.inFlight - {a})
    case Release(i) =>
      MoveTo(s, i, if s.tasks[i].pc.requeue then Resending else Done).(free := s.free + 1)
    case Resend(i) => MoveTo(s, i, Done).(queue := s.queue + [s.tasks[i].addr])
  }

  // ---- Counting over tasks ----

  function Sum(ts: seq<Task>, weight: Pc -> nat): nat {
    if ts == [] then 0 else Sum(ts[..|ts| - 1], weight) + weight(ts[|ts| - 1].pc)
  }

  function Permit(pc: Pc): nat {
    if HoldsPermit(pc) then 1 else 0
  }

  lemma {:induction false} SumAppend(ts: seq<Task>, t: Task, weight: Pc -> nat)
    ensures Sum(ts + [t], weight) == Sum(ts, weight) + weight(t.pc)
  {
    assert (ts + [t])[..|ts|] == ts;
  }

  lemma {:induction false} SumUpdate(ts: seq<Task>, i: nat, pc: Pc, weight: Pc -> nat)
    requires i < |ts|
    ensures Sum(ts[i := ts[i].(pc := pc)], weight) + weight(ts[i].pc) == Sum(ts, weight) + weight(pc)
    decreases |ts|
  {
    var n := |ts| - 1;
    var us := ts[i := ts[i].(pc := pc)];
    if i == n {
      assert us[..n] == ts[..n];
    } else {
      assert us[..n] == ts[..n][i := ts[i].(pc := pc)];
      SumUpdate(ts[..n], i, pc, weight);
    }
  }

  lemma {:induction false} SumAtLeast(ts: seq<Task>, i: nat, weight: Pc -> nat)
    requires i < |ts|
    ensures Sum(ts, weight) >= weight(ts[i].pc)
    decreases |ts|
  {
    if i < |ts| - 1 {
      SumAtLeast(ts[..|ts| - 1], i, weight);
    }
  }

  // ---- The invariant ----

  predicate RunningOn(s: State, i: nat, a: Addr) {
    i < |s.tasks| && s.tasks[i].addr == a && Running(s.tasks[i].pc)
  }

  /** The in-flight keys are exactly the claimed, unfinished addresses, and each belongs to
      one claim or one running task. */
  ghost predicate Exclusive(s: State) {
    && (forall i, j :: 0 <= i < j < |s.tasks| && Running(s.tasks[i].pc) && Running(s.tasks[j].pc)
                       ==> s.tasks[i].addr != s.tasks[j].addr)
    && (s.hand.Claimed? ==> forall i :: 0 <= i < |s.tasks| && Running(s.tasks[i].pc)
                                        ==> s.tasks[i].addr != s.hand.addr)
    && (s.hand.Claimed? ==> s.hand.addr in s.inFlight)
    && (forall i :: 0 <= i < |s.tasks| && Running(s.tasks[i].pc) ==> s.tasks[i].addr in s.inFlight)
    && (forall a :: a in s.inFlight ==> s.hand == Claimed(a) || exists i :: RunningOn(s, i, a))
  }

  ghost predicate Inv(s: State) {
    && s.capacity >= 1
    && s.concurrency >= 1
    && |s.queue| <= s.capacity
    && s.free + Sum(s.tasks, Permit) == s.concurrency
    && Exclusive(s)
  }

  lemma InitInv(capacity: nat, concurrency: nat)
    requires capacity >= 1 && concurrency >= 1
    ensures Inv(Init(capacity, concurrency))
  {
  }

  ghost predicate PermitsCounted(s: State) {
    s.free + Sum(s.tasks, Permit) == s.concurrency
  }

  /** Moving one task changes the sum by the difference of its two weights. */
  lemma MoveSum(s: State, i: nat, pc: Pc, weight: Pc -> nat)
    requires i < |s.tasks|
    ensures Sum(MoveTo(s, i, pc).tasks, weight) + weight(s.tasks[i].pc) == Sum(s.tasks, weight) + weight(pc)
  {
    SumUpdate(s.tasks, i, pc, weight);
  }

  lemma PermitsKept(s: State, e: Step)
    requires PermitsCounted(s) && Enabled(s, e)
    ensures PermitsCounted(Apply(s, e))
  {
    match e
    case Acquire => SumAppend(s.tasks, Task(s.hand.addr, Starting), Permit);
    case Begin(i, pc) => MoveSum(s, i, pc, Permit);
    case Work(i, pc) => MoveSum(s, i, pc, Permit);
    case Finish(i) => MoveSum(s, i, Apply(s, e).tasks[i].pc, Permit);
    case Release(i) => MoveSum(s, i, Apply(s, e).tasks[i].pc, Permit);
    case Resend(i) => MoveSum(s, i, Done, Permit);
    case _ =>
  }

  lemma KeysKept(s: State, e: Step, a: Addr)
    requires Exclusive(s) && Enabled(s, e) && a in Apply(s, e).inFlight
    ensures var s' := Apply(s, e); s'.hand == Claimed(a) || exists i :: RunningOn(s', i, a)
  {
    var s' := Apply(s, e);
    if e == Acquire && s.hand == Claimed(a) {
      assert RunningOn(s', |s.tasks|, a);
    } else if a in s.inFlight && s.hand != Claimed(a) {
      var i :| RunningOn(s, i, a);
      assert RunningOn(s', i, a);
    }
  }

  /** A task that runs after a step either ran before it on the same address, or has just been
      spawned for the claimed address. */
  lemma RunningBefore(s: State, e: Step, i: nat)
    requires Enabled(s, e) && i < |Apply(s, e).tasks| && Running(Apply(s, e).tasks[i].pc)
    ensures
      var s' := Apply(s, e);
      || (i < |s.tasks| && Running(s.tasks[i].pc) && s'.tasks[i].addr == s.tasks[i].addr)
      || (e.Acquire? && i == |s.tasks| && s.hand == Claimed(s'.tasks[i].addr) && s'.hand.Empty?)
  {
  }

  /** An address leaves the in-flight map only when its running task finishes. */
  lemma InFlightKept(s: State, e: Step, a: Addr)
    requires Enabled(s, e) && a in s.inFlight
    ensures a in Apply(s, e).inFlight || (e.Finish? && s.tasks[e.task].addr == a)
  {
  }

  lemma ExclusiveKept(s: State, e: Step)
    requires Exclusive(s) && Enabled(s, e)
    ensures Exclusive(Apply(s, e))
  {
    var s' := Apply(s, e);
    forall i, j | 0 <= i < j < |s'.tasks| && Running(s'.tasks[i].pc) && Running(s'.tasks[j].pc)
      ensures s'.tasks[i].addr != s'.tasks[j].addr
    {
      RunningBefore(s, e, i);
      RunningBefore(s, e, j);
    }
    forall i | 0 <= i < |s'.tasks| && Running(s'.tasks[i].pc)
      ensures s'.hand.Claimed? ==> s'.tasks[i].addr != s'.hand.addr
      ensures s'.tasks[i].addr in s'.inFlight
    {
      RunningBefore(s, e, i);
      InFlightKept(s, e, s'.tasks[i].addr);
    }
    forall a | a in s'.inFlight
      ensures s'.hand == Claimed(a) || exists i :: RunningOn(s', i, a)
    {
      KeysKept(s, e, a);
    }
  }

  lemma InvKept(s: State, e: Step)
    requires Inv(s) && Enabled(s, e)
    ensures Inv(Apply(s, e))
  {
    PermitsKept(s, e);
    ExclusiveKept(s, e);
  }
}
