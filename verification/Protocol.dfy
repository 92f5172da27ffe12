/** The relayer as one transition system: chain, block scanner, forward queue, dispatcher,
    forward tasks, maintenance ticks, balance poll, durable store, crash and restart.

    A step is one access to shared state, so all interleavings of the source's tasks are runs of
    this system.  Two steps read more than one thing: a tick's plan reads the clock, the activity
    map and the live list, and a failure reads the clock with the backoff entry.  A write to the
    durable store may fail; then the step's `ok` is false. */
module Protocol {
  import opened Forwarding
  import opened Wrappers
  import opened Backoff
  import D = Dispatcher

  // ---- State ----

  /** `held` are the deposits not yet swept, as (address, height). */
  datatype Chain = Chain(now: nat, blocks: seq<set<Addr>>, held: set<(Addr, nat)>)

  /** The backoff and activity maps; once in memory, once in the durable store. */
  datatype Tables = Tables(retry: map<Addr, Retry>, activity: map<Addr, nat>)

  /** What one maintenance tick decided after its fetch. */
  datatype Plan = Plan(kept: set<Addr>, newcomers: set<Addr>, at: nat)

  /** Progress of a planned tick up to the live-list swap.  A retired address loses its in-memory
      backoff entry, its stored one, its in-memory activity and its stored activity, in this order. */
  datatype Stage =
    | Retire(todo: set<Addr>)
    | RetireRetryDb(addr: Addr, todo: set<Addr>)
    | RetireActivity(addr: Addr, todo: set<Addr>)
    | RetireActivityDb(addr: Addr, todo: set<Addr>)
    | PruneRetry
    | PruneActivity
    | PruneStore
    | Swap

  datatype Tick =
    | Idle
    | Planned(plan: Plan, stage: Stage)
    | Probing(todo: set<Addr>, at: nat)
    | Requeueing(todo: set<Addr>)

  /** While delivering height `cursor + 1`, `todo` are the watched recipients not sent yet. */
  datatype Phase = Booting | Waiting | Delivering(todo: set<Addr>)

  /** `boot` is the cursor this process started from.  `scanned` and `skips` (ranges after the
      first height, up to the second) are history, read by no step. */
  datatype Scan = Scan(phase: Phase, cursor: nat, boot: nat, scanned: set<nat>, skips: set<(nat, nat)>)

  datatype Limits = Limits(maxAge: nat, maxIdle: nat)

  /** `live` gives, for each address on the live list, the chain tip when it was last announced:
      when it joined, and whenever a producer sent it.  That number is history. */
  datatype State = State(
    limits: Limits,
    chain: Chain,
    d: D.State,
    live: map<Addr, nat>,
    mem: Tables,
    tick: Tick,
    poll: set<Addr>,
    scan: Scan,
    db: Tables,
    heightDb: Option<nat>)

  // ---- Steps ----

  datatype EnvStep = Elapse(seconds: nat) | Commit(recipients: set<Addr>) | Sweep(addr: Addr)

  datatype BootFrom = Reload | StartAt(height: nat) | AtTip(height: nat)

  datatype ScanStep =
    | Boot(from: BootFrom)
    | Fetch
    | Deliver(addr: Addr)
    | Advance
    | Skip(to: nat)

  /** `left` and `leftActivity` are the rows that a prune of the store spares when it fails midway. */
  datatype MaintStep =
    | FetchFails
    | Begin(requests: map<Addr, Option<nat>>)
    | RetireNext(addr: Addr)
    | Proceed(left: set<Addr>, leftActivity: set<Addr>)
    | SendTo(addr: Addr)

  datatype PollStep = Snapshot | PollTo(addr: Addr)

  datatype Step =
    | Env(env: EnvStep)
    | Consume(consume: D.Step)
    | Work(task: nat, ok: bool, landed: bool)
    | Maint(maint: MaintStep, ok: bool)
    | Poll(poll: PollStep)
    | Scanner(scan: ScanStep, ok: bool)
    | Crash(retryLoads: bool, activityLoads: bool)

  function Tip(s: State): nat { |s.chain.blocks| }

  function Announce(live: map<Addr, nat>, a: Addr, tip: nat): map<Addr, nat> {
    if a in live then live[a := tip] else live
  }

  predicate Funded(chain: Chain, a: Addr) {
    exists p :: p in chain.held && p.0 == a
  }

  function Swept(chain: Chain, a: Addr): Chain {
    chain.(held := set p | p in chain.held && p.0 != a)
  }

  // ---- Environment ----

  function ApplyEnv(chain: Chain, e: EnvStep): Chain {
    match e
    case Elapse(seconds) => chain.(now := chain.now + seconds)
    case Commit(recipients) =>
      chain.(blocks := chain.blocks + [recipients],
             held := chain.held + set a | a in recipients :: (a, |chain.blocks| + 1))
    case Sweep(a) => Swept(chain, a)
  }

  // ---- forward_address ----

  /** Where a task goes next.  `ok` is the answer of the query, the fee lookup or the submission. */
  function TaskNext(live: set<Addr>, mem: Tables, chain: Chain, a: Addr, pc: Pc, ok: bool): Pc {
    match pc
    case Starting => if a in live then CheckBackoff else Finishing
    case CheckBackoff => if a in mem.retry && chain.now < mem.retry[a].nextAttempt then Finishing else QueryBalance
    case QueryBalance => if !ok then FailRead else if Funded(chain, a) then Stamp(false) else ClearMem(false)
    case Stamp(sent) => RecordStore(sent, chain.now)
    case RecordStore(sent, at) => RecordMem(sent, at)
    case RecordMem(sent, at) => if sent then Finishing else ResolveFee
    case ResolveFee => if ok then Submit else FailRead
    case Submit => if ok then ClearMem(true) else FailRead
    case FailRead => FailStore(NextRetry(mem.retry, a, chain.now))
    case FailStore(entry) => FailMem(entry)
    case FailMem(entry) => Finishing
    case ClearMem(sent) => ClearStore(sent)
    case ClearStore(sent) => if sent then Stamp(true) else Finishing
    case _ => pc
  }

  function NextPc(s: State, a: Addr, pc: Pc, ok: bool): Pc {
    TaskNext(s.live.Keys, s.mem, s.chain, a, pc, ok)
  }

  /** A successful submission empties the address; one reported as failed may still have landed. */
  function WorkChain(chain: Chain, a: Addr, pc: Pc, ok: bool, landed: bool): Chain {
    if pc.Submit? && (ok || landed) then Swept(chain, a) else chain
  }

  function WorkMem(mem: Tables, a: Addr, pc: Pc): Tables {
    match pc
    case RecordMem(_, at) => mem.(activity := mem.activity[a := at])
    case FailMem(entry) => mem.(retry := mem.retry[a := entry])
    case ClearMem(_) => mem.(retry := mem.retry - {a})
    case _ => mem
  }

  function WorkDb(db: Tables, a: Addr, pc: Pc, ok: bool): Tables {
    if !ok then db else
    match pc
    case RecordStore(_, at) => db.(activity := db.activity[a := at])
    case FailStore(entry) => db.(retry := db.retry[a := entry])
    case ClearStore(_) => db.(retry := db.retry - {a})
    case _ => db
  }

  predicate WritesStore(pc: Pc) {
    pc.RecordStore? || pc.FailStore? || pc.ClearStore?
  }

  predicate WorkEnabled(s: State, i: nat) {
    i < |s.d.tasks| && Running(s.d.tasks[i].pc) && !s.d.tasks[i].pc.Finishing?
  }

  function ApplyWork(s: State, i: nat, ok: bool, landed: bool): State
    requires WorkEnabled(s, i)
  {
    var a, pc := s.d.tasks[i].addr, s.d.tasks[i].pc;
    s.(chain := WorkChain(s.chain, a, pc, ok, landed),
       mem := WorkMem(s.mem, a, pc),
       db := WorkDb(s.db, a, pc, ok),
       d := D.MoveTo(s.d, i, NextPc(s, a, pc, ok)))
  }

  // ---- Maintenance ----

  predicate Room(s: State) {
    |s.d.queue| < s.d.capacity
  }

  /** The addresses a tick retires: one activity snapshot, one time. */
  function ToRetire(requests: map<Addr, Option<nat>>, activity: map<Addr, nat>, now: nat, limits: Limits): set<Addr>
    requires limits.maxAge < TWO_64 && limits.maxIdle < TWO_64
  {
    set a | a in requests &&
            RetirementReason(requests[a], Lookup(activity, a), now, limits.maxAge, limits.maxIdle).Some?
  }

  function Due(retry: map<Addr, Retry>, at: nat): set<Addr> {
    set a | a in retry && at >= retry[a].nextAttempt
  }

  function Restrict<V>(entries: map<Addr, V>, kept: set<Addr>): map<Addr, V> {
    map a | a in entries && a in kept :: entries[a]
  }

  predicate MaintEnabled(s: State, e: MaintStep) {
    match e
    case FetchFails => s.tick.Idle?
    case Begin(_) => s.tick.Idle? && s.limits.maxAge < TWO_64 && s.limits.maxIdle < TWO_64
    case RetireNext(a) => s.tick.Planned? && s.tick.stage.Retire? && a in s.tick.stage.todo
    case Proceed(_, _) => (
      match s.tick
      case Idle => false
      case Planned(_, stage) => stage.Retire? ==> stage.todo == {}
      case Probing(todo, _) => todo == {}
      case Requeueing(todo) => todo == {})
    case SendTo(a) =>
      && Room(s)
      && ((s.tick.Probing? && a in s.tick.todo) || (s.tick.Requeueing? && a in s.tick.todo))
  }

  function PlanTick(s: State, requests: map<Addr, Option<nat>>): Tick
    requires s.limits.maxAge < TWO_64 && s.limits.maxIdle < TWO_64
  {
    var retired := ToRetire(requests, s.mem.activity, s.chain.now, s.limits);
    var kept := requests.Keys - retired;
    Planned(Plan(kept, kept - s.live.Keys, s.chain.now), Retire(retired))
  }

  /** The new live list; newcomers count as announced now, because the tick will probe them. */
  function Joined(live: map<Addr, nat>, kept: set<Addr>, tip: nat): map<Addr, nat> {
    map a | a in kept :: if a in live then live[a] else tip
  }

  function StageMem(mem: Tables, plan: Plan, stage: Stage): Tables {
    match stage
    case RetireActivity(a, _) => mem.(activity := mem.activity - {a})
    case PruneRetry => mem.(retry := Restrict(mem.retry, plan.kept))
    case PruneActivity => mem.(activity := Restrict(mem.activity, plan.kept))
    case _ => mem
  }

  function StageDb(db: Tables, plan: Plan, stage: Stage, left: set<Addr>, leftActivity: set<Addr>, ok: bool): Tables {
    match stage
    case RetireRetryDb(a, _) => if ok then db.(retry := db.retry - {a}) else db
    case RetireActivityDb(a, _) => if ok then db.(activity := db.activity - {a}) else db
    case PruneStore =>
      if ok then Tables(Restrict(db.retry, plan.kept), Restrict(db.activity, plan.kept))
      else Tables(Restrict(db.retry, plan.kept + left), Restrict(db.activity, plan.kept + leftActivity))
    case _ => db
  }

  function NextStage(plan: Plan, stage: Stage): Tick {
    match stage
    case Retire(_) => Planned(plan, PruneRetry)
    case RetireRetryDb(a, todo) => Planned(plan, RetireActivity(a, todo))
    case RetireActivity(a, todo) => Planned(plan, RetireActivityDb(a, todo))
    case RetireActivityDb(a, todo) => Planned(plan, Retire(todo))
    case PruneRetry => Planned(plan, PruneActivity)
    case PruneActivity => Planned(plan, PruneStore)
    case PruneStore => Planned(plan, Swap)
    case Swap => Probing(plan.newcomers, plan.at)
  }

  /** One access of a planned tick; the last one swaps in the new live list. */
  function ApplyStage(s: State, left: set<Addr>, leftActivity: set<Addr>, ok: bool): State
    requires s.tick.Planned?
  {
    var Planned(plan, stage) := s.tick;
    s.(mem := StageMem(s.mem, plan, stage),
       db := StageDb(s.db, plan, stage, left, leftActivity, ok),
       live := if stage.Swap? then Joined(s.live, plan.kept, Tip(s)) else s.live,
       tick := NextStage(plan, stage))
  }

  function Without(tick: Tick, a: Addr): Tick {
    match tick
    case Probing(todo, at) => Probing(todo - {a}, at)
    case Requeueing(todo) => Requeueing(todo - {a})
    case _ => tick
  }

  function ApplyMaint(s: State, e: MaintStep, ok: bool): State
    requires MaintEnabled(s, e)
  {
    match e
    case FetchFails => s
    case Begin(requests) => s.(tick := PlanTick(s, requests))
    case RetireNext(a) =>
      s.(mem := s.mem.(retry := s.mem.retry - {a}),
         tick := Planned(s.tick.plan, RetireRetryDb(a, s.tick.stage.todo - {a})))
    case Proceed(left, leftActivity) =>
      if s.tick.Planned? then ApplyStage(s, left, leftActivity, ok)
      else if s.tick.Probing? then s.(tick := Requeueing(Due(s.mem.retry, s.tick.at)))
      else s.(tick := Idle)
    case SendTo(a) =>
      s.(d := D.Apply(s.d, D.Send(a)), tick := Without(s.tick, a), live := Announce(s.live, a, Tip(s)))
  }

  // ---- Balance poll ----

  predicate PollEnabled(s: State, e: PollStep) {
    match e
    case Snapshot => s.poll == {}
    case PollTo(a) => Room(s) && a in s.poll
  }

  function ApplyPoll(s: State, e: PollStep): State
    requires PollEnabled(s, e)
  {
    match e
    case Snapshot => s.(poll := s.live.Keys)
    case PollTo(a) =>
      s.(d := D.Apply(s.d, D.Send(a)), poll := s.poll - {a}, live := Announce(s.live, a, Tip(s)))
  }

  // ---- Block scanner ----

  /** A starting cursor does not lie beyond the tip; a fetched height is committed.  Which skips
      are justified is the subject of the scanner's own model. */
  predicate ScanEnabled(s: State, e: ScanStep) {
    match e
    case Boot(from) =>
      && s.scan.phase.Booting?
      && (match from
          case Reload => s.heightDb.Some?
          case StartAt(_) => s.heightDb.None?
          case AtTip(_) => true)
      && BootCursor(s.heightDb, from) <= Tip(s)
    case Fetch => s.scan.phase.Waiting? && s.scan.cursor < Tip(s)
    case Deliver(a) => s.scan.phase.Delivering? && a in s.scan.phase.todo && Room(s)
    case Advance => s.scan.phase.Delivering? && s.scan.phase.todo == {}
    case Skip(to) => s.scan.phase.Waiting? && s.scan.cursor < to <= Tip(s)
  }

  function BootCursor(heightDb: Option<nat>, from: BootFrom): nat
    requires from.Reload? ==> heightDb.Some?
  {
    match from
    case Reload => heightDb.value
    case StartAt(h) => if h == 0 then 0 else h - 1
    case AtTip(h) => h
  }

  function NextScan(s: State, e: ScanStep): Scan
    requires ScanEnabled(s, e)
  {
    var scan := s.scan;
    match e
    case Boot(from) =>
      var cursor := BootCursor(s.heightDb, from);
      scan.(phase := Waiting, cursor := cursor, boot := cursor)
    case Fetch =>
      scan.(phase := Delivering(s.chain.blocks[scan.cursor] * s.live.Keys))
    case Deliver(a) => scan.(phase := Delivering(scan.phase.todo - {a}))
    case Advance =>
      scan.(phase := Waiting, cursor := scan.cursor + 1, scanned := scan.scanned + {scan.cursor + 1})
    case Skip(to) => scan.(cursor := to, skips := scan.skips + {(scan.cursor, to)})
  }

  /** A step that moves the cursor tries to persist it. */
  function ApplyScan(s: State, e: ScanStep, ok: bool): State
    requires ScanEnabled(s, e)
  {
    var scan := NextScan(s, e);
    s.(scan := scan,
       heightDb := if ok && (e.Boot? || e.Advance? || e.Skip?) then Some(scan.cursor) else s.heightDb,
       d := if e.Deliver? then D.Apply(s.d, D.Send(e.addr)) else s.d,
       live := if e.Deliver? then Announce(s.live, e.addr, Tip(s)) else s.live)
  }

  // ---- Crash and restart ----

  /** Everything in memory is gone; the tables are loaded again unless loading fails. */
  function ApplyCrash(s: State, retryLoads: bool, activityLoads: bool): State {
    State(
      s.limits,
      s.chain,
      D.Init(s.d.capacity, s.d.concurrency),
      map[],
      Tables(if retryLoads then s.db.retry else map[], if activityLoads then s.db.activity else map[]),
      Idle,
      {},
      s.scan.(phase := Booting, cursor := 0, boot := 0),
      s.db,
      s.heightDb)
  }

  // ---- The system ----

  function Init(capacity: nat, concurrency: nat, limits: Limits): State {
    State(limits, Chain(0, [], {}), D.Init(capacity, concurrency), map[], Tables(map[], map[]), Idle, {},
          Scan(Booting, 0, 0, {}, {}), Tables(map[], map[]), None)
  }

  /** The consumer loop and the tail of a task; starting, forwarding and sending are other steps. */
  predicate ConsumerStep(e: D.Step) {
    !e.Send? && !e.Begin? && !e.Work?
  }

  predicate Enabled(s: State, e: Step) {
    match e
    case Env(_) => true
    case Consume(c) => ConsumerStep(c) && D.Enabled(s.d, c)
    case Work(i, _, _) => WorkEnabled(s, i)
    case Maint(m, _) => MaintEnabled(s, m)
    case Poll(p) => PollEnabled(s, p)
    case Scanner(c, _) => ScanEnabled(s, c)
    case Crash(_, _) => true
  }

  function Apply(s: State, e: Step): State
    requires Enabled(s, e)
  {
    match e
    case Env(env) => s.(chain := ApplyEnv(s.chain, env))
    case Consume(c) => s.(d := D.Apply(s.d, c))
    case Work(i, ok, landed) => ApplyWork(s, i, ok, landed)
    case Maint(m, ok) => ApplyMaint(s, m, ok)
    case Poll(p) => ApplyPoll(s, p)
    case Scanner(c, ok) => ApplyScan(s, c, ok)
    case Crash(retryLoads, activityLoads) => ApplyCrash(s, retryLoads, activityLoads)
  }

  ghost predicate Run(ss: seq<State>, es: seq<Step>) {
    && |ss| == |es| + 1
    && forall k :: 0 <= k < |es| ==> Enabled(ss[k], es[k]) && ss[k + 1] == Apply(ss[k], es[k])
  }

  ghost predicate FromStart(ss: seq<State>, es: seq<Step>) {
    && Run(ss, es)
    && ss[0].d.capacity >= 1 && ss[0].d.concurrency >= 1
    && ss[0] == Init(ss[0].d.capacity, ss[0].d.concurrency, ss[0].limits)
  }

  // ---- Every step is a step of the dispatcher, or leaves it alone ----

  function DispatcherStep(s: State, e: Step): Option<D.Step>
    requires Enabled(s, e)
  {
    match e
    case Consume(c) => Some(c)
    case Work(i, ok, _) =>
      var a, pc := s.d.tasks[i].addr, s.d.tasks[i].pc;
      Some(if pc.Starting? then D.Begin(i, NextPc(s, a, pc, ok)) else D.Work(i, NextPc(s, a, pc, ok)))
    case Maint(m, _) => if m.SendTo? then Some(D.Send(m.addr)) else None
    case Poll(p) => if p.PollTo? then Some(D.Send(p.addr)) else None
    case Scanner(c, _) => if c.Deliver? then Some(D.Send(c.addr)) else None
    case _ => None
  }

  lemma WorkComesCloser(s: State, i: nat, ok: bool)
    requires WorkEnabled(s, i)
    ensures
      var t := s.d.tasks[i];
      Running(NextPc(s, t.addr, t.pc, ok)) && Rank(NextPc(s, t.addr, t.pc, ok)) < Rank(t.pc)
  {
  }

  lemma MaintRefines(s: State, m: MaintStep, ok: bool)
    requires MaintEnabled(s, m)
    ensures ApplyMaint(s, m, ok).d == if m.SendTo? then D.Apply(s.d, D.Send(m.addr)) else s.d
  {
  }

  lemma RefinesDispatcher(s: State, e: Step)
    requires Enabled(s, e) && !e.Crash?
    ensures
      match DispatcherStep(s, e)
      case Some(c) => D.Enabled(s.d, c) && Apply(s, e).d == D.Apply(s.d, c)
      case None => Apply(s, e).d == s.d
  {
    match e
    case Work(i, ok, _) => WorkComesCloser(s, i, ok);
    case Maint(m, ok) => MaintRefines(s, m, ok);
    case _ =>
  }
}
