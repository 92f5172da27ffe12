/** The durable tables mirror the in-memory maps, and the waits between failed attempts add up,
    in every interleaving of forward tasks with maintenance, crash and restart. */
module Mirror {
  import opened Wrappers
  import opened Forwarding
  import opened Backoff
  import opened Protocol
  import opened Obligations
  import D = Dispatcher

  // ---- Where the address's forward stands ----

  predicate RunsAt(s: State, i: nat, a: Addr) {
    TaskAt(s, i, a) && Running(s.d.tasks[i].pc)
  }

  /** The point that the address's running forward has reached; `Done` if none is running. */
  ghost function Phase(s: State, a: Addr): Pc {
    if i: nat :| RunsAt(s, i, a) then s.d.tasks[i].pc else Done
  }

  lemma PhaseOf(s: State, i: nat, a: Addr)
    requires D.Inv(s.d) && RunsAt(s, i, a)
    ensures Phase(s, a) == s.d.tasks[i].pc
  {
    forall j: nat | RunsAt(s, j, a)
      ensures j == i
    {
      OneTask(s, i, j, a);
    }
  }

  /** Nothing of the forward's work is under way. */
  predicate Quiescent(pc: Pc) {
    pc.Starting? || pc.Finishing? || pc.Done?
  }

  lemma OwnPhase(s: State, i: nat, ok: bool, landed: bool, a: Addr)
    requires D.Inv(s.d) && WorkEnabled(s, i) && TaskAt(s, i, a)
    ensures Phase(s, a) == s.d.tasks[i].pc
    ensures Phase(ApplyWork(s, i, ok, landed), a) == NextPc(s, a, s.d.tasks[i].pc, ok)
  {
    PhaseOf(s, i, a);
    DispatcherInvKept(s, Work(i, ok, landed));
    WorkComesCloser(s, i, ok);
    PhaseOf(ApplyWork(s, i, ok, landed), i, a);
  }

  /** A running task that another's step has not moved, or has just spawned. */
  lemma RunningTaskBefore(s: State, e: Step, i: nat)
    requires Enabled(s, e) && !e.Crash?
    requires i < |Apply(s, e).d.tasks| && Running(Apply(s, e).d.tasks[i].pc)
    requires !(e.Work? && TaskAt(s, e.task, Apply(s, e).d.tasks[i].addr))
    ensures
      var s' := Apply(s, e);
      s'.d.tasks[i].pc.Starting? || (i < |s.d.tasks| && s.d.tasks[i] == s'.d.tasks[i])
  {
    RefinesDispatcher(s, e);
  }

  /** A step of anything else leaves a forward that is at work where it is. */
  lemma OthersPhase(s: State, e: Step, a: Addr)
    requires D.Inv(s.d) && Enabled(s, e) && !e.Crash? && !(e.Work? && TaskAt(s, e.task, a))
    ensures
      var s' := Apply(s, e);
      Phase(s', a) == Phase(s, a) || (Quiescent(Phase(s, a)) && Quiescent(Phase(s', a)))
  {
    var s' := Apply(s, e);
    DispatcherInvKept(s, e);
    if i: nat :| RunsAt(s, i, a) && !s.d.tasks[i].pc.Finishing? {
      PhaseOf(s, i, a);
      OthersLeaveTask(s, e, i);
      PhaseOf(s', i, a);
    } else if j: nat :| RunsAt(s', j, a) {
      PhaseOf(s', j, a);
      RunningTaskBefore(s, e, j);
      if !s'.d.tasks[j].pc.Starting? {
        assert RunsAt(s, j, a);
      }
    }
  }

  // ---- The durable mirror ----

  predicate SameRetry(s: State, a: Addr) {
    Lookup(s.mem.retry, a) == Lookup(s.db.retry, a)
  }

  predicate SameActivity(s: State, a: Addr) {
    Lookup(s.mem.activity, a) == Lookup(s.db.activity, a)
  }

  /** Between the two halves of a mirrored update. */
  predicate Halfway(pc: Pc) {
    pc.RecordMem? || pc.FailMem? || pc.ClearStore?
  }

  /** The backoff entries agree; inside an update of them, its first half is there. */
  predicate RetryAgrees(s: State, a: Addr, pc: Pc) {
    match pc
    case FailMem(entry) => Lookup(s.db.retry, a) == Some(entry)
    case ClearStore(_) => a !in s.mem.retry
    case _ => SameRetry(s, a)
  }

  /** The same for the activity times. */
  predicate ActivityAgrees(s: State, a: Addr, pc: Pc) {
    match pc
    case RecordMem(_, at) => Lookup(s.db.activity, a) == Some(at)
    case _ => SameActivity(s, a)
  }

  ghost predicate Mirrored(s: State, a: Addr) {
    RetryAgrees(s, a, Phase(s, a)) && ActivityAgrees(s, a, Phase(s, a))
  }

  /** The address's forward is not inside an update. */
  ghost predicate Settled(s: State, a: Addr) {
    !Halfway(Phase(s, a))
  }

  // ---- What disturbs it, and what restores it ----

  /** The tick takes entries of the address out of a map or a table. */
  predicate Drops(s: State, e: Step, a: Addr) {
    && e.Maint?
    && (match e.maint
        case RetireNext(x) => x == a
        case Proceed(_, _) => s.tick.Planned? && StageDrops(s.tick.plan, s.tick.stage, a)
        case _ => false)
  }

  predicate StageDrops(plan: Plan, stage: Stage, a: Addr) {
    match stage
    case RetireRetryDb(x, _) => x == a
    case RetireActivity(x, _) => x == a
    case RetireActivityDb(x, _) => x == a
    case PruneRetry => a !in plan.kept
    case PruneActivity => a !in plan.kept
    case PruneStore => a !in plan.kept
    case _ => false
  }

  /** The address's own store writes succeed, the tick does not drop its entries, and a restart
      loads what is stored. */
  predicate Faithful(s: State, e: Step, a: Addr) {
    && !Drops(s, e, a)
    && (e.Work? && TaskAt(s, e.task, a) && WritesStore(s.d.tasks[e.task].pc) ==> e.ok)
    && (e.Crash? ==> e.retryLoads && e.activityLoads)
  }

  /** Only a tick that removes the address drops its entries. */
  lemma KeptIsNotDropped(s: State, e: Step, a: Addr)
    requires PlanInv(s) && Enabled(s, e) && !Removing(s, a)
    ensures !Drops(s, e, a)
  {
  }

  /** The first half of an update of the backoff entries, or a restart. */
  predicate RewritesRetry(s: State, e: Step, a: Addr) {
    e.Crash? || (e.Work? && TaskAt(s, e.task, a) && (s.d.tasks[e.task].pc.FailStore? || s.d.tasks[e.task].pc.ClearMem?))
  }

  predicate RewritesActivity(s: State, e: Step, a: Addr) {
    e.Crash? || (e.Work? && TaskAt(s, e.task, a) && s.d.tasks[e.task].pc.RecordStore?)
  }

  /** The tables' entries for the address. */
  function Entries(s: State, a: Addr): (Option<Retry>, Option<Retry>, Option<nat>, Option<nat>) {
    (Lookup(s.mem.retry, a), Lookup(s.db.retry, a), Lookup(s.mem.activity, a), Lookup(s.db.activity, a))
  }

  /** Apart from dropping ticks, nobody but the address's own forward touches its entries. */
  lemma EntriesUntouched(s: State, e: Step, a: Addr)
    requires Enabled(s, e) && !e.Crash? && !Drops(s, e, a)
    requires !(e.Work? && TaskAt(s, e.task, a))
    ensures Entries(Apply(s, e), a) == Entries(s, a)
  {
    match e
    case Work(i, ok, _) => OtherWorkTouches(s, i, ok, a);
    case Maint(m, ok) => MaintTouches(s, m, ok, a);
    case _ =>
  }

  lemma OtherWorkTouches(s: State, i: nat, ok: bool, a: Addr)
    requires WorkEnabled(s, i) && !TaskAt(s, i, a)
    ensures
      var b, pc := s.d.tasks[i].addr, s.d.tasks[i].pc;
      var mem, db := WorkMem(s.mem, b, pc), WorkDb(s.db, b, pc, ok);
      && Lookup(mem.retry, a) == Lookup(s.mem.retry, a) && Lookup(mem.activity, a) == Lookup(s.mem.activity, a)
      && Lookup(db.retry, a) == Lookup(s.db.retry, a) && Lookup(db.activity, a) == Lookup(s.db.activity, a)
  {
  }

  lemma MaintTouches(s: State, m: MaintStep, ok: bool, a: Addr)
    requires MaintEnabled(s, m) && !Drops(s, Maint(m, ok), a)
    ensures Entries(ApplyMaint(s, m, ok), a) == Entries(s, a)
  {
  }

  lemma OwnStepAgrees(s: State, i: nat, ok: bool, landed: bool, a: Addr)
    requires WorkEnabled(s, i) && TaskAt(s, i, a)
    requires WritesStore(s.d.tasks[i].pc) ==> ok
    ensures
      var e, pc := Work(i, ok, landed), s.d.tasks[i].pc;
      var s', pc' := ApplyWork(s, i, ok, landed), NextPc(s, a, s.d.tasks[i].pc, ok);
      && (RetryAgrees(s', a, pc') <==> RetryAgrees(s, a, pc) || RewritesRetry(s, e, a))
      && (ActivityAgrees(s', a, pc') <==> ActivityAgrees(s, a, pc) || RewritesActivity(s, e, a))
  {
  }

  lemma CrashAgrees(s: State, e: Step, a: Addr)
    requires e.Crash? && e.retryLoads && e.activityLoads
    ensures Phase(Apply(s, e), a) == Done
    ensures SameRetry(Apply(s, e), a) && SameActivity(Apply(s, e), a)
  {
  }

  /** Agreement depends on the entries and on how far the address's forward is. */
  lemma SameAgreement(s: State, s': State, a: Addr)
    requires Entries(s, a) == Entries(s', a)
    requires Phase(s', a) == Phase(s, a) || (Quiescent(Phase(s, a)) && Quiescent(Phase(s', a)))
    ensures RetryAgrees(s', a, Phase(s', a)) <==> RetryAgrees(s, a, Phase(s, a))
    ensures ActivityAgrees(s', a, Phase(s', a)) <==> ActivityAgrees(s, a, Phase(s, a))
  {
  }

  /** One step, exactly: what agrees goes on agreeing, and what does not is mended only by the next
      update of it, or by a restart. */
  lemma AgreementExactly(s: State, e: Step, a: Addr)
    requires D.Inv(s.d) && Enabled(s, e) && Faithful(s, e, a)
    ensures
      var s' := Apply(s, e);
      && (RetryAgrees(s', a, Phase(s', a)) <==> RetryAgrees(s, a, Phase(s, a)) || RewritesRetry(s, e, a))
      && (ActivityAgrees(s', a, Phase(s', a)) <==> ActivityAgrees(s, a, Phase(s, a)) || RewritesActivity(s, e, a))
  {
    if e.Work? && TaskAt(s, e.task, a) {
      OwnPhase(s, e.task, e.ok, e.landed, a);
      OwnStepAgrees(s, e.task, e.ok, e.landed, a);
    } else if e.Crash? {
      CrashAgrees(s, e, a);
    } else {
      OthersPhase(s, e, a);
      EntriesUntouched(s, e, a);
      SameAgreement(s, Apply(s, e), a);
    }
  }

  lemma MirroredKept(s: State, e: Step, a: Addr)
    requires D.Inv(s.d) && Enabled(s, e) && Faithful(s, e, a) && Mirrored(s, a)
    ensures Mirrored(Apply(s, e), a)
  {
    AgreementExactly(s, e, a);
  }

  lemma {:induction false} SupportOf(ss: seq<State>, es: seq<Step>, k: nat)
    requires FromStart(ss, es) && k <= |es|
    ensures D.Inv(ss[k].d) && PlanInv(ss[k])
  {
    RunInv(ss, es, k);
  }

  ghost predicate FaithfulRun(ss: seq<State>, es: seq<Step>, a: Addr, m: nat, k: nat)
    requires Run(ss, es) && m <= k <= |es|
  {
    forall j :: m <= j < k ==> Faithful(ss[j], es[j], a)
  }

  ghost predicate RetryRewritten(ss: seq<State>, es: seq<Step>, a: Addr, m: nat, k: nat)
    requires Run(ss, es) && m <= k <= |es|
  {
    exists j :: m <= j < k && RewritesRetry(ss[j], es[j], a)
  }

  ghost predicate ActivityRewritten(ss: seq<State>, es: seq<Step>, a: Addr, m: nat, k: nat)
    requires Run(ss, es) && m <= k <= |es|
  {
    exists j :: m <= j < k && RewritesActivity(ss[j], es[j], a)
  }

  lemma {:induction false} AgreementOverRun(ss: seq<State>, es: seq<Step>, a: Addr, m: nat, k: nat)
    requires FromStart(ss, es) && m <= k <= |es| && FaithfulRun(ss, es, a, m, k)
    ensures
      RetryAgrees(ss[k], a, Phase(ss[k], a))
      <==> RetryAgrees(ss[m], a, Phase(ss[m], a)) || RetryRewritten(ss, es, a, m, k)
    ensures
      ActivityAgrees(ss[k], a, Phase(ss[k], a))
      <==> ActivityAgrees(ss[m], a, Phase(ss[m], a)) || ActivityRewritten(ss, es, a, m, k)
  {
    if k > m {
      AgreementOverRun(ss, es, a, m, k - 1);
      SupportOf(ss, es, k - 1);
      AgreementExactly(ss[k - 1], es[k - 1], a);
      RewrittenLater(ss, es, a, m, k);
    }
  }

  lemma {:induction false} RewrittenLater(ss: seq<State>, es: seq<Step>, a: Addr, m: nat, k: nat)
    requires Run(ss, es) && m < k <= |es|
    ensures RetryRewritten(ss, es, a, m, k)
            <==> RetryRewritten(ss, es, a, m, k - 1) || RewritesRetry(ss[k - 1], es[k - 1], a)
    ensures ActivityRewritten(ss, es, a, m, k)
            <==> ActivityRewritten(ss, es, a, m, k - 1) || RewritesActivity(ss[k - 1], es[k - 1], a)
  {
  }

  // ---- Where it starts ----

  /** Nothing recorded anywhere, and no forward that will get past its first check. */
  ghost predicate Untouched(s: State, a: Addr) {
    && Entries(s, a) == (None, None, None, None)
    && Quiescent(Phase(s, a))
  }

  lemma UntouchedKept(s: State, e: Step, a: Addr)
    requires D.Inv(s.d) && Enabled(s, e) && Untouched(s, a) && a !in s.live
    ensures Untouched(Apply(s, e), a)
  {
    if e.Work? && TaskAt(s, e.task, a) {
      OwnPhase(s, e.task, e.ok, e.landed, a);
    } else if !e.Crash? {
      OthersPhase(s, e, a);
      if Drops(s, e, a) {
        DropsOnly(s, e, a);
      } else {
        EntriesUntouched(s, e, a);
      }
    }
  }

  /** Dropping adds nothing. */
  lemma DropsOnly(s: State, e: Step, a: Addr)
    requires Enabled(s, e) && Drops(s, e, a) && Entries(s, a) == (None, None, None, None)
    ensures Entries(Apply(s, e), a) == (None, None, None, None)
  {
  }

  lemma {:induction false} UntouchedUntilLive(ss: seq<State>, es: seq<Step>, a: Addr, m: nat)
    requires FromStart(ss, es) && m <= |es| && forall j :: 0 <= j < m ==> a !in ss[j].live
    ensures Untouched(ss[m], a)
  {
    if m > 0 {
      UntouchedUntilLive(ss, es, a, m - 1);
      SupportOf(ss, es, m - 1);
      UntouchedKept(ss[m - 1], es[m - 1], a);
    }
  }

  /** The process has just restarted and loaded its tables, or the address has not been live before
      this state: it is the first state of all, or the address joins right now, or later. */
  predicate Starts(ss: seq<State>, es: seq<Step>, a: Addr, m: nat)
    requires |ss| == |es| + 1 && m <= |es|
  {
    || (m > 0 && es[m - 1].Crash? && es[m - 1].retryLoads && es[m - 1].activityLoads)
    || forall j :: 0 <= j < m ==> a !in ss[j].live
  }

  lemma {:induction false} StartsMirrored(ss: seq<State>, es: seq<Step>, a: Addr, m: nat)
    requires FromStart(ss, es) && m <= |es| && Starts(ss, es, a, m)
    ensures Mirrored(ss[m], a)
  {
    if forall j :: 0 <= j < m ==> a !in ss[j].live {
      UntouchedUntilLive(ss, es, a, m);
    }
  }

  /** From the start of the process, a restart, or the address's joining on: between the updates of
      its forwards, an address that no tick drops has the same backoff entry and activity time in
      memory and in the store, so a restart at that point reproduces its failure count, next attempt
      and activity. */
  lemma {:induction false} StoreMirrorsMemory(ss: seq<State>, es: seq<Step>, a: Addr, m: nat, k: nat)
    requires FromStart(ss, es) && m <= k <= |es|
    requires Starts(ss, es, a, m) && FaithfulRun(ss, es, a, m, k)
    requires Settled(ss[k], a)
    ensures SameRetry(ss[k], a) && SameActivity(ss[k], a)
    ensures
      var restarted := Apply(ss[k], Crash(true, true));
      && Lookup(restarted.mem.retry, a) == Lookup(ss[k].mem.retry, a)
      && Lookup(restarted.mem.activity, a) == Lookup(ss[k].mem.activity, a)
  {
    StartsMirrored(ss, es, a, m);
    AgreementOverRun(ss, es, a, m, k);
  }

  // ---- An address that was removed and returns ----

  /** The tick's prune of the store, which succeeds and spares no row of the address. */
  predicate PrunesStore(s: State, e: Step, a: Addr) {
    && e.Maint? && e.maint.Proceed? && e.ok
    && s.tick.Planned? && s.tick.stage.PruneStore? && a !in s.tick.plan.kept
  }

  /** No backoff entry is left in memory, and no forward is about to put one there. */
  ghost predicate NoRetryLeft(s: State, a: Addr) {
    a !in s.mem.retry && !Phase(s, a).FailMem?
  }

  ghost predicate NoActivityLeft(s: State, a: Addr) {
    a !in s.mem.activity && !Phase(s, a).RecordMem?
  }

  lemma AfterPrune(s: State, e: Step, a: Addr)
    requires D.Inv(s.d) && Enabled(s, e) && PrunesStore(s, e, a)
    ensures
      var s' := Apply(s, e);
      && (RetryAgrees(s', a, Phase(s', a)) <==> NoRetryLeft(s, a))
      && (ActivityAgrees(s', a, Phase(s', a)) <==> NoActivityLeft(s, a))
  {
    OthersPhase(s, e, a);
  }

  /** A removed address, exactly: after the last prune of its rows it is mirrored, live again or
      not, just when for each of the two tables either nothing was left in memory at the prune and
      no forward was about to put something there, or an update or a restart has come since. */
  lemma {:induction false} ReturningExactly(ss: seq<State>, es: seq<Step>, a: Addr, p: nat, k: nat)
    requires FromStart(ss, es) && p < k <= |es| && PrunesStore(ss[p], es[p], a)
    requires FaithfulRun(ss, es, a, p + 1, k)
    ensures
      Mirrored(ss[k], a)
      <==>
      && (NoRetryLeft(ss[p], a) || RetryRewritten(ss, es, a, p + 1, k))
      && (NoActivityLeft(ss[p], a) || ActivityRewritten(ss, es, a, p + 1, k))
  {
    SupportOf(ss, es, p);
    AfterPrune(ss[p], es[p], a);
    AgreementOverRun(ss, es, a, p + 1, k);
  }

  // ---- Waits add up ----

  /** A forward passes the backoff check. */
  predicate Attempts(s: State, e: Step, a: Addr) {
    && e.Work? && WorkEnabled(s, e.task) && TaskAt(s, e.task, a)
    && s.d.tasks[e.task].pc.CheckBackoff?
    && NextPc(s, a, CheckBackoff, e.ok).QueryBalance?
  }

  /** A forward that checks the backoff attempts exactly when no entry holds it back at that time: an
      entry does until its time has come, and no longer. */
  lemma AttemptsExactly(s: State, e: Step, a: Addr)
    requires e.Work? && WorkEnabled(s, e.task) && TaskAt(s, e.task, a) && s.d.tasks[e.task].pc.CheckBackoff?
    ensures Attempts(s, e, a) <==> a in s.mem.retry ==> s.mem.retry[a].nextAttempt <= s.chain.now
    ensures !Attempts(s, e, a) ==> Apply(s, e).d.tasks[e.task].pc.Finishing?
  {
  }

  /** A failed attempt is recorded. */
  predicate NotesFailure(s: State, e: Step, a: Addr) {
    e.Work? && TaskAt(s, e.task, a) && s.d.tasks[e.task].pc.FailStore?
  }

  predicate Clears(s: State, e: Step, a: Addr) {
    e.Work? && TaskAt(s, e.task, a) && s.d.tasks[e.task].pc.ClearMem?
  }

  /** The time of the first attempt, after one more step. */
  function FirstAfter(s: State, e: Step, a: Addr, first: Option<nat>): Option<nat> {
    if first.None? && Attempts(s, e, a) then Some(s.chain.now) else first
  }

  function CountAfter(s: State, e: Step, a: Addr, n: nat): nat {
    if NotesFailure(s, e, a) then n + 1 else n
  }

  /** Failures recorded between two points of a run. */
  function Noted(ss: seq<State>, es: seq<Step>, a: Addr, m: nat, k: nat): nat
    requires Run(ss, es) && m <= k <= |es|
  {
    if k == m then 0 else CountAfter(ss[k - 1], es[k - 1], a, Noted(ss, es, a, m, k - 1))
  }

  /** The time of the first attempt between two points of a run. */
  function FirstAttempt(ss: seq<State>, es: seq<Step>, a: Addr, m: nat, k: nat): Option<nat>
    requires Run(ss, es) && m <= k <= |es|
  {
    if k == m then None else FirstAfter(ss[k - 1], es[k - 1], a, FirstAttempt(ss, es, a, m, k - 1))
  }

  /** What holds of the address's running task after `n` recorded failures, the first attempt
      having been at `first`. */
  predicate TaskBound(s: State, pc: Pc, first: Option<nat>, n: nat) {
    match pc
    case Starting => true
    case CheckBackoff => true
    case Finishing => true
    case Done => true
    case FailMem(_) => first.Some?
    case FailStore(entry) =>
      first.Some? && entry.failures == n + 1 && first.value + TotalDelay(n + 1) <= entry.nextAttempt
    case Stamp(sent) => !sent && first.Some? && first.value + TotalDelay(n) <= s.chain.now
    case RecordStore(sent, _) => !sent && first.Some? && first.value + TotalDelay(n) <= s.chain.now
    case RecordMem(sent, _) => !sent && first.Some? && first.value + TotalDelay(n) <= s.chain.now
    case ClearStore(_) => false
    case ClearMem(_) => true
    case _ => first.Some? && first.value + TotalDelay(n) <= s.chain.now
  }

  /** The stored entry counts the recorded failures and is far enough ahead. */
  predicate EntryBound(s: State, a: Addr, first: Option<nat>, n: nat) {
    && (first.None? ==> n == 0)
    && (first.Some? ==> first.value <= s.chain.now)
    && (if n == 0 then a !in s.db.retry
        else a in s.db.retry && s.db.retry[a].failures == n
             && first.value + TotalDelay(n) <= s.db.retry[a].nextAttempt)
  }

  ghost predicate BackoffInv(s: State, a: Addr, first: Option<nat>, n: nat) {
    && Mirrored(s, a)
    && EntryBound(s, a, first, n)
    && TaskBound(s, Phase(s, a), first, n)
  }

  lemma TimePasses(s: State, e: Step)
    requires Enabled(s, e)
    ensures s.chain.now <= Apply(s, e).chain.now
  {
  }

  /** One step of the address's own forward. */
  lemma OwnStepBounds(s: State, i: nat, ok: bool, landed: bool, a: Addr, first: Option<nat>, n: nat)
    requires WorkEnabled(s, i) && TaskAt(s, i, a) && RetryAgrees(s, a, s.d.tasks[i].pc)
    requires WritesStore(s.d.tasks[i].pc) ==> ok
    requires EntryBound(s, a, first, n) && TaskBound(s, s.d.tasks[i].pc, first, n)
    requires !s.d.tasks[i].pc.ClearMem?
    ensures
      var s' := ApplyWork(s, i, ok, landed);
      var e := Work(i, ok, landed);
      var first', n' := FirstAfter(s, e, a, first), CountAfter(s, e, a, n);
      && EntryBound(s', a, first', n')
      && TaskBound(s', NextPc(s, a, s.d.tasks[i].pc, ok), first', n')
      && (Attempts(s, e, a) ==> first'.value + TotalDelay(n) <= s.chain.now)
  {
  }

  lemma TaskBoundLater(s: State, s': State, pc: Pc, first: Option<nat>, n: nat)
    requires TaskBound(s, pc, first, n) && s.chain.now <= s'.chain.now
    ensures TaskBound(s', pc, first, n)
  {
  }

  lemma OthersBound(s: State, e: Step, a: Addr, first: Option<nat>, n: nat)
    requires D.Inv(s.d) && Enabled(s, e) && !e.Crash? && Faithful(s, e, a)
    requires !(e.Work? && TaskAt(s, e.task, a))
    requires BackoffInv(s, a, first, n)
    ensures BackoffInv(Apply(s, e), a, first, n)
  {
    MirroredKept(s, e, a);
    OthersPhase(s, e, a);
    EntriesUntouched(s, e, a);
    TimePasses(s, e);
    TaskBoundLater(s, Apply(s, e), Phase(s, a), first, n);
  }

  lemma OwnBound(s: State, i: nat, ok: bool, landed: bool, a: Addr, first: Option<nat>, n: nat)
    requires D.Inv(s.d) && WorkEnabled(s, i) && TaskAt(s, i, a)
    requires Faithful(s, Work(i, ok, landed), a) && !s.d.tasks[i].pc.ClearMem?
    requires BackoffInv(s, a, first, n)
    ensures
      var e := Work(i, ok, landed);
      BackoffInv(ApplyWork(s, i, ok, landed), a, FirstAfter(s, e, a, first), CountAfter(s, e, a, n))
  {
    OwnPhase(s, i, ok, landed, a);
    OwnStepBounds(s, i, ok, landed, a, first, n);
    MirroredKept(s, Work(i, ok, landed), a);
  }

  lemma BackoffInvKept(s: State, e: Step, a: Addr, first: Option<nat>, n: nat)
    requires D.Inv(s.d) && Enabled(s, e) && Faithful(s, e, a) && !Clears(s, e, a)
    requires BackoffInv(s, a, first, n)
    ensures BackoffInv(Apply(s, e), a, FirstAfter(s, e, a, first), CountAfter(s, e, a, n))
  {
    if e.Crash? {
      MirroredKept(s, e, a);
    } else if e.Work? && TaskAt(s, e.task, a) {
      OwnBound(s, e.task, e.ok, e.landed, a, first, n);
    } else {
      OthersBound(s, e, a, first, n);
    }
  }

  /** Nothing recorded and no attempt under way. */
  ghost predicate Fresh(s: State, a: Addr) {
    && a !in s.mem.retry && a !in s.db.retry && SameActivity(s, a)
    && (Quiescent(Phase(s, a)) || Phase(s, a).CheckBackoff?)
  }

  lemma FreshStarts(s: State, a: Addr)
    requires Fresh(s, a)
    ensures BackoffInv(s, a, None, 0)
  {
  }

  /** An address that has not been live yet starts fresh. */
  lemma {:induction false} NewcomersStartFresh(ss: seq<State>, es: seq<Step>, a: Addr, m: nat)
    requires FromStart(ss, es) && m <= |es| && forall j :: 0 <= j < m ==> a !in ss[j].live
    ensures Fresh(ss[m], a)
  {
    UntouchedUntilLive(ss, es, a, m);
  }

  /** The invariant at one state of a run, counting from state `m`. */
  ghost predicate BackoffAt(ss: seq<State>, es: seq<Step>, a: Addr, m: nat, k: nat)
    requires Run(ss, es) && m <= k <= |es|
  {
    BackoffInv(ss[k], a, FirstAttempt(ss, es, a, m, k), Noted(ss, es, a, m, k))
  }

  lemma {:induction false} BackoffOneMore(ss: seq<State>, es: seq<Step>, a: Addr, m: nat, k: nat)
    requires FromStart(ss, es) && m < k <= |es| && BackoffAt(ss, es, a, m, k - 1)
    requires Faithful(ss[k - 1], es[k - 1], a) && !Clears(ss[k - 1], es[k - 1], a)
    ensures BackoffAt(ss, es, a, m, k)
  {
    SupportOf(ss, es, k - 1);
    BackoffInvKept(ss[k - 1], es[k - 1], a, FirstAttempt(ss, es, a, m, k - 1), Noted(ss, es, a, m, k - 1));
  }

  lemma {:induction false} BackoffInvHolds(ss: seq<State>, es: seq<Step>, a: Addr, m: nat, k: nat)
    requires FromStart(ss, es) && m <= k <= |es| && Fresh(ss[m], a)
    requires forall j :: m <= j < k ==> Faithful(ss[j], es[j], a) && !Clears(ss[j], es[j], a)
    ensures BackoffAt(ss, es, a, m, k)
  {
    if k == m {
      FreshStarts(ss[m], a);
    } else {
      BackoffInvHolds(ss, es, a, m, k - 1);
      BackoffOneMore(ss, es, a, m, k);
    }
  }

  /** The cumulative backoff bound.  While an address fails without an intervening clear, an
      attempt that follows `n` recorded failures starts no earlier than the sum of the first `n`
      delays after the first attempt; restarts included. */
  lemma {:induction false} WaitsAddUp(ss: seq<State>, es: seq<Step>, a: Addr, m: nat, k: nat)
    requires FromStart(ss, es) && m <= k < |es| && Fresh(ss[m], a)
    requires forall j :: m <= j <= k ==> Faithful(ss[j], es[j], a) && !Clears(ss[j], es[j], a)
    requires Attempts(ss[k], es[k], a)
    ensures
      var n := Noted(ss, es, a, m, k);
      var first := FirstAttempt(ss, es, a, m, k + 1);
      && first.Some?
      && first.value + TotalDelay(n) <= ss[k].chain.now
      && (n == 1 ==> first.value + 30 <= ss[k].chain.now)
      && (n == 2 ==> first.value + 90 <= ss[k].chain.now)
      && (n == 3 ==> first.value + 390 <= ss[k].chain.now)
      && (n >= 4 ==> first.value + 2190 + 3600 * (n - 4) <= ss[k].chain.now)
  {
    var s, e := ss[k], es[k];
    var first, n := FirstAttempt(ss, es, a, m, k), Noted(ss, es, a, m, k);
    BackoffInvHolds(ss, es, a, m, k);
    SupportOf(ss, es, k);
    OwnPhase(s, e.task, e.ok, e.landed, a);
    OwnStepBounds(s, e.task, e.ok, e.landed, a, first, n);
    TotalDelayClosed(n);
  }

  /** The first attempt is one: its time is the time of an attempt of the run, with none before. */
  lemma {:induction false} FirstAttemptIsFirst(ss: seq<State>, es: seq<Step>, a: Addr, m: nat, k: nat)
    requires Run(ss, es) && m <= k <= |es|
    ensures
      match FirstAttempt(ss, es, a, m, k)
      case None => forall j :: m <= j < k ==> !Attempts(ss[j], es[j], a)
      case Some(t) =>
        exists f :: m <= f < k && Attempts(ss[f], es[f], a) && ss[f].chain.now == t
                    && forall j :: m <= j < f ==> !Attempts(ss[j], es[j], a)
  {
    if k > m {
      FirstAttemptIsFirst(ss, es, a, m, k - 1);
    }
  }

  // ---- And no wait is longer than scheduled ----

  /** The entry holds attempts back for no longer than the delay after its last failure. */
  predicate Near(entry: Retry, now: nat) {
    entry.failures >= 1 && entry.nextAttempt <= now + RetryDelay(entry.failures)
  }

  predicate PendingNear(pc: Pc, now: nat) {
    match pc
    case FailStore(entry) => Near(entry, now)
    case FailMem(entry) => Near(entry, now)
    case _ => true
  }

  ghost predicate EntriesNear(s: State) {
    && (forall a :: a in s.mem.retry ==> Near(s.mem.retry[a], s.chain.now))
    && (forall a :: a in s.db.retry ==> Near(s.db.retry[a], s.chain.now))
    && (forall i: nat :: i < |s.d.tasks| ==> PendingNear(s.d.tasks[i].pc, s.chain.now))
  }

  lemma PendingNearKept(s: State, e: Step, i: nat)
    requires EntriesNear(s) && Enabled(s, e) && i < |Apply(s, e).d.tasks|
    ensures PendingNear(Apply(s, e).d.tasks[i].pc, Apply(s, e).chain.now)
  {
    TimePasses(s, e);
    if !e.Crash? {
      RefinesDispatcher(s, e);
      if e.Work? && e.task == i {
        assert PendingNear(s.d.tasks[i].pc, s.chain.now);
      } else if Running(Apply(s, e).d.tasks[i].pc) {
        StaysOrSpawned(s, e, i);
      }
    }
  }

  /** A running task that this step has not moved was there before, or has just been spawned. */
  lemma StaysOrSpawned(s: State, e: Step, i: nat)
    requires Enabled(s, e) && !e.Crash? && !(e.Work? && e.task == i)
    requires i < |Apply(s, e).d.tasks| && Running(Apply(s, e).d.tasks[i].pc)
    ensures
      var t := Apply(s, e).d.tasks[i];
      t.pc.Starting? || (i < |s.d.tasks| && s.d.tasks[i] == t)
  {
    RefinesDispatcher(s, e);
  }

  lemma TablesNearKept(s: State, e: Step, a: Addr)
    requires EntriesNear(s) && Enabled(s, e)
    ensures a in Apply(s, e).mem.retry ==> Near(Apply(s, e).mem.retry[a], Apply(s, e).chain.now)
    ensures a in Apply(s, e).db.retry ==> Near(Apply(s, e).db.retry[a], Apply(s, e).chain.now)
  {
    TimePasses(s, e);
    if e.Work? {
      assert PendingNear(s.d.tasks[e.task].pc, s.chain.now);
    }
  }

  lemma EntriesNearKept(s: State, e: Step)
    requires EntriesNear(s) && Enabled(s, e)
    ensures EntriesNear(Apply(s, e))
  {
    var s' := Apply(s, e);
    forall a
      ensures a in s'.mem.retry ==> Near(s'.mem.retry[a], s'.chain.now)
      ensures a in s'.db.retry ==> Near(s'.db.retry[a], s'.chain.now)
    {
      TablesNearKept(s, e, a);
    }
    forall i: nat | i < |s'.d.tasks|
      ensures PendingNear(s'.d.tasks[i].pc, s'.chain.now)
    {
      PendingNearKept(s, e, i);
    }
  }

  /** In every state of every run, restarts and failing writes included, an address waits for no
      longer than the delay its failures call for, hence at most an hour. */
  lemma {:induction false} NobodyWaitsLonger(ss: seq<State>, es: seq<Step>, k: nat)
    requires FromStart(ss, es) && k <= |es|
    ensures EntriesNear(ss[k])
    ensures forall a :: a in ss[k].mem.retry ==> ss[k].mem.retry[a].nextAttempt <= ss[k].chain.now + 3600
  {
    if k > 0 {
      NobodyWaitsLonger(ss, es, k - 1);
      EntriesNearKept(ss[k - 1], es[k - 1]);
    }
    forall a | a in ss[k].mem.retry
      ensures ss[k].mem.retry[a].nextAttempt <= ss[k].chain.now + 3600
    {
      DelaysGrow(ss[k].mem.retry[a].failures, ss[k].mem.retry[a].failures);
    }
  }
}
