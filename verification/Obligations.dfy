/** No funded watched address is forgotten: in every reachable state of the interleaved system,
    crash and restart included, an address with an announced deposit still has something that
    will make the relayer look at it again. */
module Obligations {
  import opened Forwarding
  import opened Wrappers
  import opened Protocol
  import D = Dispatcher
  import R = DispatcherRuns

  // ---- The promise ----

  /** The running tick has decided to drop the address from the live list. */
  predicate Removing(s: State, a: Addr) {
    s.tick.Planned? && a !in s.tick.plan.kept
  }

  /** The deposit was made before the address joined the live list, or before some producer
      last sent it: the scanner, a tick, or the balance poll. */
  predicate Announced(s: State, a: Addr, height: nat)
    requires a in s.live
  {
    height <= s.live[a]
  }

  ghost predicate Needs(s: State, a: Addr) {
    && a in s.live
    && !Removing(s, a)
    && exists p :: p in s.chain.held && p.0 == a && Announced(s, a, p.1)
  }

  /** Phases of a forward that will still see the balance, or has seen it and has not yet
      recorded the outcome. */
  predicate Looking(pc: Pc) {
    match pc
    case CheckBackoff => true
    case QueryBalance => true
    case Stamp(sent) => !sent
    case RecordStore(sent, _) => !sent
    case RecordMem(sent, _) => !sent
    case ResolveFee => true
    case Submit => true
    case FailRead => true
    case FailStore(_) => true
    case FailMem(_) => true
    case _ => false
  }

  predicate TaskAt(s: State, i: nat, a: Addr) {
    i < |s.d.tasks| && s.d.tasks[i].addr == a
  }

  ghost predicate Underway(s: State, a: Addr) {
    exists i: nat :: TaskAt(s, i, a) && Looking(s.d.tasks[i].pc)
  }

  predicate ProbePending(s: State, a: Addr) {
    s.tick.Probing? && a in s.tick.todo
  }

  /** What the relayer still owes the address: a trigger on its way (queued, received, claimed,
      starting, dirty, or waiting to be re-sent), a newcomer probe, a forward in progress that
      will see the funds, or a backoff entry. */
  ghost predicate Obligation(s: State, a: Addr) {
    R.Pending(s.d, a) || ProbePending(s, a) || Underway(s, a) || a in s.mem.retry
  }

  // ---- The inductive invariant ----

  ghost predicate Clearing(s: State, a: Addr) {
    exists i: nat :: TaskAt(s, i, a) && s.d.tasks[i].pc.ClearMem?
  }

  /** As `Obligation`, but a backoff entry that a task is about to clear does not count. */
  ghost predicate Owed(s: State, a: Addr) {
    || R.Pending(s.d, a)
    || ProbePending(s, a)
    || Underway(s, a)
    || (a in s.mem.retry && !Clearing(s, a))
  }

  ghost predicate ChainInv(s: State) {
    && (forall p :: p in s.chain.held ==> 1 <= p.1 <= Tip(s) && p.0 in s.chain.blocks[p.1 - 1])
    && (forall a :: a in s.live ==> s.live[a] <= Tip(s))
    && (forall h :: h in s.scan.scanned ==> 1 <= h <= Tip(s))
    && s.scan.cursor <= Tip(s)
    && (s.heightDb.Some? ==> s.heightDb.value <= Tip(s))
  }

  /** A watched recipient of a scanned height has been announced since; one of the height being
      delivered has been announced or is still to be sent. */
  ghost predicate DeliveryInv(s: State)
    requires ChainInv(s)
  {
    && (forall a, h :: a in s.live && h in s.scan.scanned && a in s.chain.blocks[h - 1] ==> h <= s.live[a])
    && (s.scan.phase.Delivering? ==> DeliveringInv(s))
  }

  ghost predicate DeliveringInv(s: State)
    requires s.scan.phase.Delivering?
  {
    && s.scan.cursor < Tip(s)
    && forall a :: a in s.live && s.live[a] <= s.scan.cursor && a in s.chain.blocks[s.scan.cursor]
         ==> a in s.scan.phase.todo
  }

  function StageTodo(stage: Stage): set<Addr> {
    match stage
    case Retire(todo) => todo
    case RetireRetryDb(a, todo) => todo + {a}
    case RetireActivity(a, todo) => todo + {a}
    case RetireActivityDb(a, todo) => todo + {a}
    case _ => {}
  }

  ghost predicate PlanInv(s: State) {
    s.tick.Planned? ==>
      && s.tick.plan.newcomers == s.tick.plan.kept - s.live.Keys
      && StageTodo(s.tick.stage) !! s.tick.plan.kept
  }

  ghost predicate Inv(s: State) {
    && D.Inv(s.d)
    && ChainInv(s)
    && DeliveryInv(s)
    && PlanInv(s)
    && forall a :: Needs(s, a) ==> Owed(s, a)
  }

  // ---- Preservation of the supporting parts ----

  lemma DispatcherInvKept(s: State, e: Step)
    requires D.Inv(s.d) && Enabled(s, e)
    ensures D.Inv(Apply(s, e).d)
  {
    if e.Crash? {
      D.InitInv(s.d.capacity, s.d.concurrency);
    } else {
      RefinesDispatcher(s, e);
      if DispatcherStep(s, e).Some? {
        D.InvKept(s.d, DispatcherStep(s, e).value);
      }
    }
  }

  lemma ChainInvKept(s: State, e: Step)
    requires ChainInv(s) && DeliveryInv(s) && Enabled(s, e)
    ensures ChainInv(Apply(s, e))
  {
    match e
    case Env(env) =>
    case Scanner(c, ok) =>
    case Maint(m, ok) =>
    case Work(i, ok, landed) =>
    case _ =>
  }

  lemma DeliveringInvKept(s: State, e: Step)
    requires ChainInv(s) && DeliveryInv(s) && Enabled(s, e) && Apply(s, e).scan.phase.Delivering?
    ensures DeliveringInv(Apply(s, e))
  {
  }

  /** A watched recipient of a scanned height has been announced since, after the step too. */
  lemma ScannedKept(s: State, e: Step, a: Addr, h: nat)
    requires ChainInv(s) && DeliveryInv(s) && Enabled(s, e) && ChainInv(Apply(s, e))
    requires a in Apply(s, e).live && h in Apply(s, e).scan.scanned && a in Apply(s, e).chain.blocks[h - 1]
    ensures h <= Apply(s, e).live[a]
  {
  }

  lemma DeliveryInvKept(s: State, e: Step)
    requires ChainInv(s) && DeliveryInv(s) && Enabled(s, e)
    ensures ChainInv(Apply(s, e)) && DeliveryInv(Apply(s, e))
  {
    var s' := Apply(s, e);
    ChainInvKept(s, e);
    forall a, h | a in s'.live && h in s'.scan.scanned && a in s'.chain.blocks[h - 1]
      ensures h <= s'.live[a]
    {
      ScannedKept(s, e, a, h);
    }
    if s'.scan.phase.Delivering? {
      DeliveringInvKept(s, e);
    }
  }

  lemma PlanInvKept(s: State, e: Step)
    requires PlanInv(s) && Enabled(s, e)
    ensures PlanInv(Apply(s, e))
  {
  }

  // ---- Where a need comes from ----

  predicate Swaps(s: State, e: Step) {
    e.Maint? && e.maint.Proceed? && s.tick.Planned? && s.tick.stage.Swap?
  }

  predicate Sends(s: State, e: Step, a: Addr)
    requires Enabled(s, e)
  {
    DispatcherStep(s, e) == Some(D.Send(a))
  }

  lemma LiveBefore(s: State, e: Step, a: Addr)
    requires Enabled(s, e) && a in Apply(s, e).live && !Removing(Apply(s, e), a)
    ensures
      || (Swaps(s, e) && a in s.tick.plan.kept && a !in s.live)
      || Sends(s, e, a)
      || (a in s.live && Apply(s, e).live[a] == s.live[a] && !Removing(s, a))
  {
  }

  /** A need is new only for a newcomer that the swap puts on the live list, or for an address
      that a producer sends right now. */
  lemma NeedsBefore(s: State, e: Step, a: Addr)
    requires ChainInv(s) && Enabled(s, e) && Needs(Apply(s, e), a)
    ensures Needs(s, a) || (Swaps(s, e) && a in s.tick.plan.kept && a !in s.live) || Sends(s, e, a)
  {
    var s' := Apply(s, e);
    var p :| p in s'.chain.held && p.0 == a && Announced(s', a, p.1);
    LiveBefore(s, e, a);
    assert p in s.chain.held || p.1 == Tip(s) + 1;
  }

  // ---- An obligation stays until it is met ----

  /** The address has one running task at most. */
  lemma OneTask(s: State, i: nat, j: nat, a: Addr)
    requires D.Inv(s.d) && TaskAt(s, i, a) && TaskAt(s, j, a)
    requires Running(s.d.tasks[i].pc) && Running(s.d.tasks[j].pc)
    ensures i == j
  {
  }

  /** A pending trigger survives every step except the start of its forward, and a crash. */
  lemma PendingKept(s: State, e: Step, a: Addr)
    requires D.Inv(s.d) && Enabled(s, e) && !e.Crash? && R.Pending(s.d, a)
    requires !(e.Work? && s.d.tasks[e.task] == D.Task(a, Starting))
    ensures R.Pending(Apply(s, e).d, a)
  {
    RefinesDispatcher(s, e);
    if DispatcherStep(s, e).Some? {
      R.PendingKept(s.d, DispatcherStep(s, e).value, a);
    }
  }

  /** Only a worker itself moves on before `Finishing`. */
  lemma OthersLeaveTask(s: State, e: Step, i: nat)
    requires Enabled(s, e) && !e.Crash? && i < |s.d.tasks|
    requires Running(s.d.tasks[i].pc) && !s.d.tasks[i].pc.Finishing? && !(e.Work? && e.task == i)
    ensures i < |Apply(s, e).d.tasks| && Apply(s, e).d.tasks[i] == s.d.tasks[i]
  {
    RefinesDispatcher(s, e);
  }

  /** A forward that is looking goes on looking, leaves a backoff entry, or has emptied the address. */
  lemma UnderwayKept(s: State, i: nat, ok: bool, landed: bool, a: Addr)
    requires D.Inv(s.d) && WorkEnabled(s, i) && TaskAt(s, i, a)
    requires Looking(s.d.tasks[i].pc) || (s.d.tasks[i].pc.Starting? && a in s.live)
    requires Funded(ApplyWork(s, i, ok, landed).chain, a)
    ensures
      var s' := ApplyWork(s, i, ok, landed);
      Looking(s'.d.tasks[i].pc) || (s'.d.tasks[i].pc.Finishing? && a in s'.mem.retry)
  {
  }

  /** The worker of an address that is not looking and not starting takes nothing away except by
      clearing the backoff entry. */
  lemma TailKeepsRetry(s: State, i: nat, ok: bool, landed: bool, a: Addr)
    requires WorkEnabled(s, i) && a in s.mem.retry && !(TaskAt(s, i, a) && s.d.tasks[i].pc.ClearMem?)
    ensures a in ApplyWork(s, i, ok, landed).mem.retry
  {
  }

  lemma NotClearing(s: State, i: nat, a: Addr)
    requires D.Inv(s.d) && TaskAt(s, i, a) && Running(s.d.tasks[i].pc) && !s.d.tasks[i].pc.ClearMem?
    ensures !Clearing(s, a)
  {
    forall j: nat | TaskAt(s, j, a) && s.d.tasks[j].pc.ClearMem?
      ensures false
    {
      OneTask(s, i, j, a);
    }
  }

  /** A step of the address's own forward while it is looking. */
  lemma LookingStepKeeps(s: State, i: nat, ok: bool, landed: bool, a: Addr)
    requires D.Inv(s.d) && WorkEnabled(s, i) && TaskAt(s, i, a) && a in s.live
    requires s.d.tasks[i].pc.Starting? || Looking(s.d.tasks[i].pc)
    requires Funded(ApplyWork(s, i, ok, landed).chain, a)
    ensures Owed(ApplyWork(s, i, ok, landed), a)
  {
    var s' := ApplyWork(s, i, ok, landed);
    DispatcherInvKept(s, Work(i, ok, landed));
    UnderwayKept(s, i, ok, landed, a);
    assert TaskAt(s', i, a);
    if !Looking(s'.d.tasks[i].pc) {
      NotClearing(s', i, a);
    }
  }

  /** A step of the address's own forward once the outcome is known. */
  lemma TailStepKeeps(s: State, i: nat, ok: bool, landed: bool, a: Addr)
    requires D.Inv(s.d) && WorkEnabled(s, i) && TaskAt(s, i, a)
    requires !s.d.tasks[i].pc.Starting? && !Looking(s.d.tasks[i].pc)
    requires Owed(s, a)
    ensures Owed(ApplyWork(s, i, ok, landed), a)
  {
    var s' := ApplyWork(s, i, ok, landed);
    if R.Pending(s.d, a) {
      PendingKept(s, Work(i, ok, landed), a);
    } else if Underway(s, a) {
      var j: nat :| TaskAt(s, j, a) && Looking(s.d.tasks[j].pc);
      OneTask(s, i, j, a);
    } else if !ProbePending(s, a) {
      DispatcherInvKept(s, Work(i, ok, landed));
      TailKeepsRetry(s, i, ok, landed, a);
      NotClearing(s', i, a);
    }
  }

  /** A backoff entry of an address that the tick keeps is removed only by its own task. */
  lemma RetryKept(s: State, e: Step, a: Addr)
    requires PlanInv(s) && Enabled(s, e) && !e.Crash? && a in s.mem.retry && !Removing(s, a)
    requires !(e.Work? && TaskAt(s, e.task, a))
    ensures a in Apply(s, e).mem.retry && Apply(s, e).mem.retry[a] == s.mem.retry[a]
  {
  }

  lemma ClearingBefore(s: State, e: Step, a: Addr)
    requires Enabled(s, e) && !e.Crash? && !(e.Work? && TaskAt(s, e.task, a)) && Clearing(Apply(s, e), a)
    ensures Clearing(s, a)
  {
    RefinesDispatcher(s, e);
    var s' := Apply(s, e);
    var j: nat :| TaskAt(s', j, a) && s'.d.tasks[j].pc.ClearMem?;
    assert TaskAt(s, j, a);
  }

  lemma ProbeKept(s: State, e: Step, a: Addr)
    requires Enabled(s, e) && !e.Crash? && ProbePending(s, a)
    ensures ProbePending(Apply(s, e), a) || (e.Maint? && e.maint == SendTo(a))
  {
  }

  lemma SentIsPending(s: State, e: Step, a: Addr)
    requires Enabled(s, e) && !e.Crash? && DispatcherStep(s, e) == Some(D.Send(a))
    ensures R.Pending(Apply(s, e).d, a)
  {
    RefinesDispatcher(s, e);
    assert Apply(s, e).d.queue[|s.d.queue|] == a;
  }

  /** A step of anything else. */
  lemma OtherStepKeeps(s: State, e: Step, a: Addr)
    requires D.Inv(s.d) && PlanInv(s) && Enabled(s, e) && !e.Crash?
    requires Owed(s, a) && !Removing(s, a)
    requires !(e.Work? && TaskAt(s, e.task, a))
    ensures Owed(Apply(s, e), a)
  {
    if R.Pending(s.d, a) {
      PendingKept(s, e, a);
    } else if ProbePending(s, a) {
      ProbeKept(s, e, a);
      if e.Maint? && e.maint == SendTo(a) {
        SentIsPending(s, e, a);
      }
    } else if Underway(s, a) {
      var i: nat :| TaskAt(s, i, a) && Looking(s.d.tasks[i].pc);
      OthersLeaveTask(s, e, i);
      assert TaskAt(Apply(s, e), i, a);
    } else {
      RetryKept(s, e, a);
      if Clearing(Apply(s, e), a) {
        ClearingBefore(s, e, a);
      }
    }
  }

  lemma OwedKept(s: State, e: Step, a: Addr)
    requires Inv(s) && Enabled(s, e) && Needs(Apply(s, e), a)
    ensures Owed(Apply(s, e), a)
  {
    if e.Crash? {
      assert false;
    } else {
      NeedsBefore(s, e, a);
      if Sends(s, e, a) {
        SentIsPending(s, e, a);
      } else if !Needs(s, a) {
        assert ProbePending(Apply(s, e), a);
      } else if e.Work? && TaskAt(s, e.task, a) {
        if s.d.tasks[e.task].pc.Starting? || Looking(s.d.tasks[e.task].pc) {
          LookingStepKeeps(s, e.task, e.ok, e.landed, a);
        } else {
          TailStepKeeps(s, e.task, e.ok, e.landed, a);
        }
      } else {
        OtherStepKeeps(s, e, a);
      }
    }
  }

  lemma InvKept(s: State, e: Step)
    requires Inv(s) && Enabled(s, e)
    ensures Inv(Apply(s, e))
  {
    DispatcherInvKept(s, e);
    ChainInvKept(s, e);
    DeliveryInvKept(s, e);
    PlanInvKept(s, e);
    forall a | Needs(Apply(s, e), a)
      ensures Owed(Apply(s, e), a)
    {
      OwedKept(s, e, a);
    }
  }

  lemma {:induction false} RunInv(ss: seq<State>, es: seq<Step>, k: nat)
    requires FromStart(ss, es) && k <= |es|
    ensures Inv(ss[k])
  {
    if k == 0 {
      D.InitInv(ss[0].d.capacity, ss[0].d.concurrency);
    } else {
      RunInv(ss, es, k - 1);
      InvKept(ss[k - 1], es[k - 1]);
    }
  }

  /** The main guarantee.  In every state of every run, with any interleaving, failed writes,
      crashes and restarts: a live address that the tick is not removing and that holds an
      announced deposit has an obligation. */
  lemma {:induction false} NoFundedAddressForgotten(ss: seq<State>, es: seq<Step>, k: nat, a: Addr, height: nat)
    requires FromStart(ss, es) && k <= |es|
    requires a in ss[k].live && !Removing(ss[k], a)
    requires (a, height) in ss[k].chain.held && Announced(ss[k], a, height)
    ensures Obligation(ss[k], a)
  {
    RunInv(ss, es, k);
    assert Needs(ss[k], a);
  }

  /** Scanning announces: every deposit at a scanned height is announced for whoever is live. */
  lemma {:induction false} ScannedIsAnnounced(ss: seq<State>, es: seq<Step>, k: nat, a: Addr, height: nat)
    requires FromStart(ss, es) && k <= |es|
    requires a in ss[k].live && (a, height) in ss[k].chain.held && height in ss[k].scan.scanned
    ensures Announced(ss[k], a, height)
  {
    RunInv(ss, es, k);
  }
}
