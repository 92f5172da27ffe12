/** The block scanner: boot, sessions, `scan_to`, failover and recovery of stuck heights.

    What nodes answer, how long things take and whether a write succeeds are parameters, so a
    property of these methods holds for every behaviour of the environment. */
module Scanner {
  import opened Forwarding
  import opened Wrappers
  import opened Backoff
  import opened Evidence
  import opened Deposits
  import opened ScannerLog
  import opened RetryTables

  /** A session either does not get as far as the tip, or catches up to it and then follows
      `news`; it ends cleanly or with a subscription error. */
  datatype Session = Refused | Opened(tip: Height, fetches: seq<Fetch>, news: seq<Height>, clean: bool)

  /** One turn of the scanner's loop, with the answers a recovery would get. */
  datatype Round = Round(session: Session, seconds: nat, answers: seq<Answer>, persists: bool)

  /** How a process ends: between two turns; while it follows its endpoint, with `done` deposits of
      the block that came last dealt with; or after a failed session, before the cursor moves. */
  datatype Ending =
    | Resting
    | Scanning(tips: seq<Height>, fetches: seq<Fetch>, events: seq<Event>, live: set<Addr>, done: nat)
    | Recovering(session: Session, answers: seq<Answer>)

  /** A process: how it starts, its turns, and how it ends. */
  datatype Life = Life(
    loads: bool, start: Option<nat>, tips: seq<Option<Height>>, persists: bool, rounds: seq<Round>, ending: Ending)

  const RECONNECT_DELAY: nat := 3

  /** The first endpoint that reports its tip. */
  function FirstTip(tips: seq<Option<Height>>): (tip: Option<Height>)
    ensures tip.None? ==> forall i :: 0 <= i < |tips| ==> tips[i].None?
    ensures tip.Some? ==> exists i :: 0 <= i < |tips| && tips[i] == tip && forall j :: 0 <= j < i ==> tips[j].None?
  {
    if tips == [] then None
    else if tips[0].Some? then tips[0]
    else
      var tip := FirstTip(tips[1..]);
      assert forall j :: 1 <= j < |tips| ==> tips[j] == tips[1..][j - 1];
      assert tip.Some? ==>
          exists i :: 0 <= i < |tips[1..]| && tips[1..][i] == tip && forall j :: 0 <= j < i ==> tips[1..][j].None?;
      assert forall i :: 0 <= i < |tips[1..]| && tips[1..][i] == tip ==> tips[i + 1] == tip;
      tip
  }

  /** The cursor a process starts from; `row` is what loading the stored one returns.  A configured
      start is the first height to scan. */
  function BootCursor(loads: bool, row: Option<nat>, start: Option<nat>, tips: seq<Option<Height>>): (from: Option<nat>)
    ensures loads && row.Some? ==> from == row
    ensures loads && row.None? && start.Some? ==> from.Some? && (start.value >= 1 ==> from.value + 1 == start.value)
    ensures !loads || (row.None? && start.None?) ==>
              if from.None? then forall i :: 0 <= i < |tips| ==> tips[i].None?
              else exists i :: 0 <= i < |tips| && tips[i] == Some(from.value) && forall j :: 0 <= j < i ==> tips[j].None?
  {
    if loads && row.Some? then row
    else if loads && start.Some? then Some(SatSub(start.value, 1))
    else if FirstTip(tips).Some? then Some(FirstTip(tips).value) else None
  }

  /** How long the first `n` turns take, with three seconds after each. */
  function Duration(rounds: seq<Round>, n: nat): nat
    requires n <= |rounds|
  {
    if n == 0 then 0 else Duration(rounds, n - 1) + rounds[n - 1].seconds + 3
  }

  class Scanner {
    const endpoints: nat
    const depth: nat
    const timeout: nat
    const store: RetryStore
    var cursor: nat
    var current: nat
    var pruned: Option<StuckAt>
    var clock: nat
    /** Everything sent to the forward queue. */
    var sent: seq<Addr>

    ghost var past: Past
    /** Where in the log the stuck clock started. */
    ghost var stuckEntry: nat

    ghost predicate Positioned()
      reads this
    {
      endpoints >= 1 && current < endpoints && depth < TWO_64 && cursor < TWO_64 - 1
    }

    /** There is a stored cursor, and it is not ahead of the one in memory. */
    ghost predicate Resumable()
      reads this, store
    {
      store.heightRow.Some? && LoadedHeight(store.heightRow.value) <= cursor
    }

    ghost predicate ClockValid()
      reads this
    {
      ClockRuns(past.log, stuckEntry, pruned, cursor, clock)
    }

    ghost predicate HistoryValid()
      reads this
    {
      History(past, cursor, sent, depth, timeout)
    }

    ghost predicate Valid()
      reads this
    {
      Positioned() && ClockValid() && HistoryValid()
    }

    /** A scan timeout below a minute is raised to a minute. */
    constructor (endpoints: nat, depth: nat, scanTimeout: nat, store: RetryStore)
      requires endpoints >= 1 && depth < TWO_64
      ensures Valid() && past.log == [] && sent == []
      ensures this.store == store && this.endpoints == endpoints && this.depth == depth
      ensures timeout == if scanTimeout < 60 then 60 else scanTimeout
    {
      this.endpoints, this.depth, this.store := endpoints, depth, store;
      timeout := if scanTimeout < 60 then 60 else scanTimeout;
      cursor, current, pruned, clock, sent := 0, 0, None, 0, [];
      past, stuckEntry := Past([], 0, {}, {}, 0), 0;
    }

    // ---- Boot ----

    /** Takes the cursor a process starts from.  A reloaded cursor that is not ahead of the last
        one in memory continues the covered range; any other one starts it anew. */
    method StartAt(height: nat, reloads: bool, persists: bool)
      requires Valid() && height < TWO_64 - 1
      modifies this`cursor, this`current, this`pruned, this`past, store`heightRow
      ensures Valid()
      ensures cursor == height && current == 0 && pruned == None
      ensures
        var continues := reloads && height <= old(cursor);
        past == Plus(old(past), [Booted(height, reloads)]).(base := if continues then old(past).base else height)
      ensures store.heightRow == if persists then Some(StoredHeight(height)) else old(store.heightRow)
      ensures persists || (old(StoredCursor()).Some? && old(StoredCursor()).value <= height) ==> Resumable()
    {
      ghost var e, continues := Booted(height, reloads), reloads && height <= cursor;
      GrowsAppend(past.log, [e]);
      HistoryBoot(past, e, cursor, height, continues, sent, depth, timeout);
      past := Plus(past, [e]).(base := if continues then past.base else height);
      current, pruned := 0, None;
      MoveTo(height, persists);
    }

    // ---- Moving the cursor ----

    /** `advance_cursor`, and the end of a turn of `scan_to`: the cursor moves, then is persisted. */
    method MoveTo(height: nat, persists: bool)
      requires height < TWO_64 - 1
      modifies this`cursor, store`heightRow
      ensures cursor == height
      ensures store.heightRow == if persists then Some(StoredHeight(height)) else old(store.heightRow)
      ensures persists || (old(StoredCursor()).Some? && old(StoredCursor()).value <= height) ==> Resumable()
    {
      cursor := height;
      store.StoreHeight(height, persists);
    }

    /** Asks the endpoints in order until one answers. */
    method CurrentHeight(tips: seq<Option<Height>>) returns (tip: Option<Height>)
      ensures tip == FirstTip(tips)
    {
      for i := 0 to |tips|
        invariant FirstTip(tips) == FirstTip(tips[i..])
      {
        if tips[i].Some? {
          return tips[i];
        }
      }
      tip := None;
    }

    /** What loading the stored cursor returns. */
    function StoredCursor(): Option<nat>
      reads store
    {
      if store.heightRow.None? then None else Some(LoadedHeight(store.heightRow.value))
    }

    /** A stored cursor, else the configured start (inclusive), else the tip. */
    method ChooseStart(loads: bool, start: Option<nat>, tips: seq<Option<Height>>) returns (from: Option<nat>,
                       reloads: bool)
      requires start.Some? ==> start.value < TWO_64
      ensures from == BootCursor(loads, StoredCursor(), start, tips)
      ensures reloads == (loads && StoredCursor().Some?)
      ensures from.Some? ==> from.value < TWO_64 - 1
    {
      var row := None;
      if loads {
        row := store.LoadHeight();
      }
      if row.Some? {
        return row, true;
      }
      if loads && start.Some? {
        return Some(SatSub(start.value, 1)), false;
      }
      var tip := CurrentHeight(tips);
      return if tip.Some? then Some(tip.value) else None, false;
    }

    /** The head of `run_block_scanner`: only a tip that nobody reports keeps the scanner from
        starting. */
    method Boot(loads: bool, start: Option<nat>, tips: seq<Option<Height>>, persists: bool) returns (started: bool)
      requires Valid() && (start.Some? ==> start.value < TWO_64)
      modifies this`cursor, this`current, this`pruned, this`past, store`heightRow
      ensures Valid() && Grows(old(past).log, past.log) && past.beyond == old(past).beyond
      ensures
        var row := old(StoredCursor());
        var from := BootCursor(loads, row, start, tips);
        && started == from.Some?
        && (started ==> cursor == from.value)
        && (started ==> past.base == if loads && row.Some? && row.value <= old(cursor) then old(past).base else cursor)
      ensures started && persists ==> Resumable()
      ensures old(Resumable()) && loads ==> started && Resumable() && past.base == old(past).base
      ensures !started ==> past == old(past) && cursor == old(cursor)
    {
      var from, reloads := ChooseStart(loads, start, tips);
      started := from.Some?;
      if started {
        StartAt(from.value, reloads, persists);
      }
    }

    // ---- Scanning ----

    /** Sends the watched recipients of a block one by one, `done` deposits far. */
    method Deliver(events: seq<Event>, live: set<Addr>, done: nat)
      modifies this`sent
      ensures sent == old(sent) + Delivered(events, live, done)
    {
      var deposits := DepositsFromEvents(events);
      ghost var names := Recipients(events, |events|);
      DepositsForRecipients(events, |events|);
      assert events[..|events|] == events;
      for i := 0 to if done <= |deposits| then done else |deposits|
        invariant sent == old(sent) + Watched(names, live, i)
      {
        if deposits[i].recipient in live {
          sent := sent + [deposits[i].recipient];
        }
      }
    }

    /** All of them. */
    method DeliverAll(events: seq<Event>, live: set<Addr>)
      modifies this`sent
      ensures sent == old(sent) + WatchedRecipients(events, live)
    {
      FewRecipients(events, |events|);
      Deliver(events, live, |events|);
    }

    /** A `block_results` call at the height after the cursor. */
    ghost method NoteRead(tip: Height)
      requires Valid() && (current, tip) in past.reports && cursor + 1 + depth <= tip
      modifies this`past
      ensures Valid() && past == Plus(old(past), [Read(cursor + 1, current, tip)])
    {
      var e := Read(cursor + 1, current, tip);
      HistoryAppend(past, e, cursor, cursor, sent, depth, timeout);
      ClockAppend(past.log, e, stuckEntry, pruned, cursor, cursor, clock);
      past := Plus(past, [e]);
    }

    /** One block: its watched recipients are sent before the cursor passes it. */
    method ScanBlock(events: seq<Event>, live: set<Addr>, persists: bool)
      requires Valid() && cursor + 1 <= MAX_HEIGHT && cursor < past.highest
      modifies this`cursor, this`sent, this`past, store`heightRow
      ensures Valid()
      ensures cursor == old(cursor) + 1
      ensures sent == old(sent) + WatchedRecipients(events, live)
      ensures past == Plus(old(past), [Scanned(cursor, events, live)])
      ensures store.heightRow == if persists then Some(StoredHeight(cursor)) else old(store.heightRow)
      ensures old(Resumable()) ==> Resumable()
    {
      DeliverAll(events, live);
      ghost var e := Scanned(cursor + 1, events, live);
      HistoryAppend(past, e, cursor, cursor + 1, old(sent), depth, timeout);
      ClockAppend(past.log, e, stuckEntry, pruned, cursor, cursor + 1, clock);
      past := Plus(past, [e]);
      MoveTo(cursor + 1, persists);
    }

    /** One turn of `scan_to`: fetch the next height and, if it comes, scan it. */
    method Turn(tip: Height, fetches: seq<Fetch>, place: nat) returns (ok: bool)
      requires Valid() && (current, tip) in past.reports && cursor + 1 + depth <= tip && place <= |fetches|
      modifies this`cursor, this`sent, this`past, store`heightRow
      ensures Valid() && ok == (place < |fetches| && fetches[place].Block?)
      ensures cursor == if ok then old(cursor) + 1 else old(cursor)
      ensures if ok then Sends(old(sent), sent, fetches, place, place + 1) else sent == old(sent)
      ensures GrownPast(old(past), past, ok) && |past.log| == |old(past).log| + if ok then 2 else 1
      ensures past.log[|old(past).log|] == Read(old(cursor) + 1, current, tip)
      ensures store.heightRow == if ok && fetches[place].persists then Some(StoredHeight(cursor)) else old(store.heightRow)
      ensures old(Resumable()) ==> Resumable()
    {
      NoteRead(tip);
      var fetch := if place < |fetches| then fetches[place] else Fails;
      match fetch {
        case Fails =>
          ok := false;
        case Block(events, live, persists) =>
          ScanBlock(events, live, persists);
          SendsIs(old(sent), sent, fetches, place, place + 1);
          ok := true;
      }
      TurnGrows(old(past), fetch, old(cursor) + 1, current, tip);
    }

    /** Scans up to `depth` below the tip, or up to the first height that cannot be fetched.  The
        answers come from `fetches`, from place `from` on; `next` is the first one not used. */
    method ScanTo(tip: Height, fetches: seq<Fetch>, from: nat) returns (ok: bool, next: nat)
      requires Valid() && (current, tip) in past.reports && from <= |fetches|
      modifies this`cursor, this`sent, this`past, store`heightRow
      ensures Valid() && GrownPast(old(past), past, old(cursor) < cursor)
      ensures from <= next <= |fetches| && cursor == old(cursor) + (next - from)
      ensures forall j :: from <= j < next ==> fetches[j].Block?
      ensures Sends(old(sent), sent, fetches, from, next)
      ensures ok ==> cursor == if old(cursor) < SatSub(tip, depth) then SatSub(tip, depth) else old(cursor)
      ensures !ok ==> cursor < SatSub(tip, depth) && (next == |fetches| || fetches[next].Fails?)
      ensures old(Resumable()) ==> Resumable()
    {
      next := from;
      var target := SatSub(tip, depth);
      SendsNone(sent, fetches, from);
      while cursor < target
        invariant Valid() && GrownPast(old(past), past, old(cursor) < cursor)
        invariant from <= next <= |fetches| && cursor == old(cursor) + (next - from)
        invariant forall j :: from <= j < next ==> fetches[j].Block?
        invariant Sends(old(sent), sent, fetches, from, next)
        invariant cursor <= target || cursor == old(cursor)
        invariant old(Resumable()) ==> Resumable()
        decreases target - cursor
      {
        ghost var before, was, sofar := past, cursor, sent;
        ok := Turn(tip, fetches, next);
        GrownPastTrans(old(past), before, past, old(cursor) < was, was < cursor);
        if !ok {
          return;
        }
        SendsJoin(old(sent), sofar, sent, fetches, from, next, next + 1);
        next := next + 1;
      }
      ok := true;
    }

    // ---- Sessions ----

    /** The current endpoint reports a tip, by its status or a new block. */
    ghost method Hear(tip: Height)
      requires Valid()
      modifies this`past
      ensures Valid() && past == HearTip(old(past), current, tip)
    {
      HistoryHearTip(past, current, tip, cursor, sent, depth, timeout);
      past := HearTip(past, current, tip);
    }

    /** The current endpoint reports a height; everything `depth` below it is scanned. */
    method Follow(tip: Height, fetches: seq<Fetch>, from: nat) returns (ok: bool, next: nat)
      requires Valid() && from <= |fetches|
      modifies this`cursor, this`sent, this`past, store`heightRow
      ensures Valid() && GrownPast(old(past), past, old(cursor) < cursor)
      ensures from <= next <= |fetches| && cursor == old(cursor) + (next - from)
      ensures forall j :: from <= j < next ==> fetches[j].Block?
      ensures Sends(old(sent), sent, fetches, from, next)
      ensures ok ==> cursor == if old(cursor) < SatSub(tip, depth) then SatSub(tip, depth) else old(cursor)
      ensures !ok ==> cursor < SatSub(tip, depth) && (next == |fetches| || fetches[next].Fails?)
      ensures old(Resumable()) ==> Resumable()
    {
      Hear(tip);
      ok, next := ScanTo(tip, fetches, from);
      GrownPastTrans(old(past), HearTip(old(past), current, tip), past, false, old(cursor) < cursor);
    }

    /** Follows the endpoint's tips, one after the other, until a height cannot be fetched. */
    method FollowAll(tips: seq<Height>, fetches: seq<Fetch>) returns (ok: bool, next: nat)
      requires Valid()
      modifies this`cursor, this`sent, this`past, store`heightRow
      ensures Valid() && GrownPast(old(past), past, old(cursor) < cursor)
      ensures next <= |fetches| && cursor == old(cursor) + next && forall j :: 0 <= j < next ==> fetches[j].Block?
      ensures Sends(old(sent), sent, fetches, 0, next)
      ensures ok ==> cursor == Reach(old(cursor), tips, |tips|, depth)
      ensures !ok ==> (next == |fetches| || fetches[next].Fails?) && exists tip :: tip in tips && cursor < SatSub(tip, depth)
      ensures old(Resumable()) ==> Resumable()
    {
      ok := true;
      next := 0;
      SendsNone(sent, fetches, 0);
      var i := 0;
      while ok && i < |tips|
        invariant i <= |tips|
        invariant Valid() && GrownPast(old(past), past, old(cursor) < cursor)
        invariant next <= |fetches| && cursor == old(cursor) + next && forall j :: 0 <= j < next ==> fetches[j].Block?
        invariant Sends(old(sent), sent, fetches, 0, next)
        invariant ok ==> cursor == Reach(old(cursor), tips, i, depth)
        invariant !ok ==> next == |fetches| || fetches[next].Fails?
        invariant !ok ==> exists tip :: tip in tips && cursor < SatSub(tip, depth)
        invariant old(Resumable()) ==> Resumable()
        decreases |tips| - i, ok
      {
        ghost var before, was, place, sofar := past, cursor, next, sent;
        ok, next := Follow(tips[i], fetches, next);
        GrownPastTrans(old(past), before, past, old(cursor) < was, was < cursor);
        SendsJoin(old(sent), sofar, sent, fetches, 0, place, next);
        assert tips[i] in tips;
        i := i + 1;
      }
    }

    /** The tips a session hears. */
    function Tips(session: Session): seq<Height>
      requires session.Opened?
    {
      [session.tip] + session.news
    }

    /** Catches up to the tip, then follows new blocks.  A session fails only at a height that cannot
        be fetched, by not opening, or by an unclean end. */
    method ScanSession(session: Session) returns (ok: bool, ghost next: nat)
      requires Valid()
      modifies this`cursor, this`sent, this`past, store`heightRow
      ensures Valid() && GrownPast(old(past), past, old(cursor) < cursor)
      ensures cursor == old(cursor) + next
      ensures session.Refused? ==> !ok && next == 0 && sent == old(sent)
      ensures session.Opened? ==>
                && next <= |session.fetches| && (forall j :: 0 <= j < next ==> session.fetches[j].Block?)
                && Sends(old(sent), sent, session.fetches, 0, next)
                && (ok ==> session.clean && cursor == Reach(old(cursor), Tips(session), |Tips(session)|, depth))
                && (!ok ==> !session.clean || next == |session.fetches| || session.fetches[next].Fails?)
      ensures old(Resumable()) ==> Resumable()
    {
      if session.Refused? {
        return false, 0;
      }
      ok, next := FollowAll(Tips(session), session.fetches);
      ok := ok && session.clean;
    }

    // ---- Recovery ----

    /** Starts the stuck clock for the next height. */
    method StartClock()
      requires Valid()
      modifies this`pruned, this`past, this`stuckEntry
      ensures Valid()
      ensures pruned == Some(StuckAt(cursor + 1, clock))
      ensures past == Plus(old(past), [Stuck(cursor + 1, clock)])
    {
      ghost var e := Stuck(cursor + 1, clock);
      HistoryAppend(past, e, cursor, cursor, sent, depth, timeout);
      stuckEntry := |past.log|;
      past := Plus(past, [e]);
      pruned := Some(StuckAt(cursor + 1, clock));
    }

    /** The endpoints' answers, and the probes of the stuck height. */
    ghost method NoteProbes(answers: seq<Answer>)
      requires Valid() && Representable(answers)
      modifies this`past
      ensures Valid()
      ensures past == Plus(HearAnswers(old(past), answers), ProbeEntries(answers, cursor + 1, depth))
    {
      HistoryHearAnswers(past, answers, cursor, sent, depth, timeout);
      var probes, heard := ProbeEntries(answers, cursor + 1, depth), HearAnswers(past, answers);
      ProbesLagged(answers, cursor + 1, depth);
      LaggedMore(probes, depth, Reported(answers), heard.reports);
      HistoryProbes(heard, probes, cursor, sent, depth, timeout);
      ClockProbes(past.log, probes, stuckEntry, pruned, cursor, clock);
      past := Plus(heard, probes);
    }

    /** The skip that the evidence allows. */
    method SkipTo(height: nat, ghost answers: seq<Answer>, running: StuckAt, persists: bool)
      requires Valid() && Representable(answers) && Highest(answers, 0) <= past.highest
      requires pruned == Some(running) && running.height == cursor + 1 && running.since <= clock
      requires cursor < height == Recovered(cursor, answers, depth, clock - running.since, timeout)
      modifies this`cursor, this`pruned, this`past, store`heightRow
      ensures Valid() && cursor == height && pruned == None
      ensures past == Plus(old(past), [SkipEntry(old(cursor), height, stuckEntry, clock, answers)])
      ensures old(Resumable()) ==> Resumable()
    {
      SkipAllowed(past, height, stuckEntry, running, cursor, clock, answers, sent, depth, timeout);
      past := Plus(past, [SkipEntry(cursor, height, stuckEntry, clock, answers)]);
      MoveTo(height, persists);
      pruned := None;
    }

    /** Where the verdict lets the cursor go, if anywhere. */
    method Decide(answers: seq<Answer>, elapsed: nat) returns (to: Option<nat>)
      ensures (if to.Some? then to.value else cursor) == Recovered(cursor, answers, depth, elapsed, timeout)
      ensures to.Some? ==> cursor < to.value
    {
      var stuck := cursor + 1;
      var evidence := GatherHeightEvidence(answers, stuck, depth);
      var verdict := AssessEvidence(evidence, |answers|, stuck);
      to := None;
      if verdict.Pruned? && (verdict.unanimous || elapsed >= timeout) {
        to := Some(verdict.newCursor);
      } else if verdict.Unservable? && elapsed >= timeout {
        to := Some(stuck);
      }
    }

    /** Acts on the verdict while the clock of the next height runs. */
    method Act(answers: seq<Answer>, running: StuckAt, persists: bool)
      requires Valid() && Representable(answers) && Highest(answers, 0) <= past.highest
      requires pruned == Some(running) && running.height == cursor + 1 && running.since <= clock
      modifies this`cursor, this`pruned, this`past, store`heightRow
      ensures Valid()
      ensures
        past == if old(cursor) < cursor then Plus(old(past), [SkipEntry(old(cursor), cursor, stuckEntry, clock, answers)])
                else old(past)
      ensures cursor == Recovered(old(cursor), answers, depth, clock - running.since, timeout)
      ensures old(cursor) <= cursor && pruned == if old(cursor) < cursor then None else Some(running)
      ensures old(Resumable()) ==> Resumable()
    {
      var to := Decide(answers, clock - running.since);
      if to.Some? {
        SkipTo(to.value, answers, running, persists);
      }
    }

    /** The clock of the next height runs, from now on or since it got stuck. */
    method EnsureClock()
      requires Valid()
      modifies this`pruned, this`past, this`stuckEntry
      ensures Valid() && pruned == Some(Clocked(old(pruned), cursor + 1, clock))
      ensures past == WithClock(old(past), old(pruned), cursor, clock)
    {
      if pruned.None? || pruned.value.height != cursor + 1 {
        StartClock();
      }
    }

    /** The clock runs, and the endpoints have been asked about the next height. */
    method Examine(answers: seq<Answer>)
      requires Valid() && Representable(answers)
      modifies this`pruned, this`past, this`stuckEntry
      ensures Valid() && Highest(answers, 0) <= past.highest
      ensures past == AfterAsking(old(past), old(pruned), cursor, clock, answers, depth)
      ensures pruned == Some(Clocked(old(pruned), cursor + 1, clock))
    {
      EnsureClock();
      HighestMonotone(answers, |answers|, past.highest);
      NoteProbes(answers);
    }

    /** `recover_pruned`: the cursor goes exactly where the testimony and the clock allow. */
    method RecoverPruned(answers: seq<Answer>, persists: bool)
      requires Valid() && |answers| == endpoints && Representable(answers)
      modifies this`cursor, this`pruned, this`past, this`stuckEntry, store`heightRow
      ensures Valid() && Continues(old(past), past)
      ensures past.beyond == old(past).beyond + Beyond(answers) && past.reports == old(past).reports + Reported(answers)
      ensures
        var running := Clocked(old(pruned), old(cursor) + 1, clock);
        && cursor == Recovered(old(cursor), answers, depth, clock - running.since, timeout)
        && old(cursor) <= cursor
        && pruned == if old(cursor) < cursor then None else Some(running)
      ensures old(Resumable()) ==> Resumable()
    {
      var running := Clocked(pruned, cursor + 1, clock);
      ghost var was := cursor;
      AskingContinues(past, pruned, cursor, clock, answers, depth);
      Examine(answers);
      ghost var asked := past;
      Act(answers, running, persists);
      ContinuesPlus(asked, [SkipEntry(was, cursor, stuckEntry, clock, answers)]);
      ContinuesTrans(old(past), asked, past);
    }

    // ---- The loop ----

    /** A clean end of a session stops the stuck clock. */
    method EndCleanly()
      requires Valid()
      modifies this`pruned, this`past
      ensures Valid() && pruned == None
      ensures past == Plus(old(past), [CleanEnd])
    {
      HistoryAppend(past, CleanEnd, cursor, cursor, sent, depth, timeout);
      past := Plus(past, [CleanEnd]);
      pruned := None;
    }

    /** A failed session leaves the clock alone and rotates to the next endpoint. */
    method EndFailed()
      requires Valid()
      modifies this`current, this`past
      ensures Valid() && current == if endpoints == 1 then old(current) else (old(current) + 1) % endpoints
      ensures past == Plus(old(past), [SessionFailed])
    {
      ghost var e := SessionFailed;
      HistoryAppend(past, e, cursor, cursor, sent, depth, timeout);
      ClockAppend(past.log, e, stuckEntry, pruned, cursor, cursor, clock);
      past := Plus(past, [e]);
      Rotate();
    }

    /** A failed session rotates to the next endpoint. */
    method Rotate()
      requires Valid()
      modifies this`current
      ensures Valid() && current == if endpoints == 1 then old(current) else (old(current) + 1) % endpoints
    {
      if endpoints > 1 {
        current := (current + 1) % endpoints;
      }
    }

    /** After a session: a clean one stops the clock, a failed one rotates and has the next height
        examined. */
    method AfterSession(ok: bool, answers: seq<Answer>, persists: bool)
      requires Valid() && |answers| == endpoints && Representable(answers)
      modifies this`cursor, this`current, this`pruned, this`past, this`stuckEntry, store`heightRow
      ensures Valid() && Continues(old(past), past) && old(cursor) <= cursor
      ensures current == if ok || endpoints == 1 then old(current) else (old(current) + 1) % endpoints
      ensures ok ==> pruned == None && cursor == old(cursor)
      ensures
        var running := Clocked(old(pruned), old(cursor) + 1, clock);
        !ok ==>
          && cursor == Recovered(old(cursor), answers, depth, clock - running.since, timeout)
          && pruned == if old(cursor) < cursor then None else Some(running)
      ensures Beyond(answers) == {} ==> past.beyond == old(past).beyond
      ensures old(Resumable()) ==> Resumable()
    {
      if ok {
        ContinuesPlus(past, [CleanEnd]);
        EndCleanly();
      } else {
        ContinuesPlus(past, [SessionFailed]);
        EndFailed();
        ghost var failed := past;
        RecoverPruned(answers, persists);
        ContinuesTrans(old(past), failed, past);
      }
    }

    /** A session that scans `next` heights, and what follows it at the same point in time. */
    method SessionAndAfter(round: Round) returns (ok: bool, ghost next: nat)
      requires Valid() && |round.answers| == endpoints && Representable(round.answers)
      modifies this`cursor, this`current, this`sent, this`pruned, this`past, this`stuckEntry, store`heightRow
      ensures Valid() && Continues(old(past), past)
      ensures current == if ok || endpoints == 1 then old(current) else (old(current) + 1) % endpoints
      ensures SessionScans(round.session, next, old(sent), sent)
      ensures ok ==> pruned == None && cursor == old(cursor) + next && CaughtUp(round.session, old(cursor), cursor)
      ensures !ok ==> Recovers(round.answers, old(pruned), old(cursor) + next, clock, cursor, pruned)
      ensures Beyond(round.answers) == {} ==> past.beyond == old(past).beyond
      ensures old(Resumable()) ==> Resumable()
    {
      ok, next := ScanSession(round.session);
      ghost var scanned := past;
      AfterSession(ok, round.answers, round.persists);
      ContinuesTrans(old(past), scanned, past);
    }

    /** The session sends the watched recipients of the first `next` blocks it fetches. */
    ghost predicate SessionScans(session: Session, next: nat, before: seq<Addr>, sent: seq<Addr>) {
      if session.Refused? then next == 0 && sent == before
      else next <= |session.fetches| && Sends(before, sent, session.fetches, 0, next)
    }

    /** The session ended cleanly, with every tip it heard of followed. */
    ghost predicate CaughtUp(session: Session, before: nat, after: nat) {
      session.Opened? && session.clean && after == Reach(before, Tips(session), |Tips(session)|, depth)
    }

    /** What a recovery at `reached` does to cursor and clock. */
    ghost predicate Recovers(answers: seq<Answer>, before: Option<StuckAt>, reached: nat, now: nat,
                             after: nat, pruned: Option<StuckAt>)
    {
      var running := Clocked(before, reached + 1, now);
      && reached <= after == Recovered(reached, answers, depth, now - running.since, timeout)
      && pruned == if reached < after then None else Some(running)
    }

    /** One turn of the scanner's loop; the session takes its time. */
    method Turnaround(round: Round) returns (ok: bool, ghost next: nat)
      requires Valid() && |round.answers| == endpoints && Representable(round.answers)
      modifies this, store`heightRow
      ensures Valid() && Continues(old(past), past)
      ensures clock == old(clock) + round.seconds + 3
      ensures current == if ok || endpoints == 1 then old(current) else (old(current) + 1) % endpoints
      ensures SessionScans(round.session, next, old(sent), sent)
      ensures ok ==> pruned == None && cursor == old(cursor) + next && CaughtUp(round.session, old(cursor), cursor)
      ensures !ok ==> Recovers(round.answers, old(pruned), old(cursor) + next, old(clock) + round.seconds, cursor, pruned)
      ensures Beyond(round.answers) == {} ==> past.beyond == old(past).beyond
      ensures old(Resumable()) ==> Resumable()
    {
      clock := clock + round.seconds;
      ok, next := SessionAndAfter(round);
      clock := clock + RECONNECT_DELAY;
    }

    /** `run_block_scanner` for any number of turns: the cursor never goes back, whichever endpoints
        fail, lag or come back, and never passes the larger of its start and the highest tip reported,
        unless an endpoint claims a retention horizon beyond its own tip. */
    method Run(rounds: seq<Round>)
      requires Valid()
      requires forall r :: r in rounds ==> |r.answers| == endpoints && Representable(r.answers)
      modifies this, store`heightRow
      ensures Valid() && Continues(old(past), past) && Grows(old(sent), sent)
      ensures old(cursor) <= cursor
      ensures (forall r :: r in rounds ==> Beyond(r.answers) == {}) ==> past.beyond == old(past).beyond
      ensures past.beyond == {} ==> WithinTips(past, cursor)
      ensures clock == old(clock) + Duration(rounds, |rounds|)
      ensures old(Resumable()) ==> Resumable()
    {
      for i := 0 to |rounds|
        invariant Valid() && Continues(old(past), past)
        invariant old(cursor) <= cursor && clock == old(clock) + Duration(rounds, i)
        invariant (forall r :: r in rounds ==> Beyond(r.answers) == {}) ==> past.beyond == old(past).beyond
        invariant old(Resumable()) ==> Resumable()
      {
        assert rounds[i] in rounds;
        ghost var before := past;
        var _, _ := Turnaround(rounds[i]);
        ContinuesTrans(old(past), before, past);
      }
      SentFollows(old(past), old(sent), past, sent);
      if past.beyond == {} {
        CursorWithinTips(past, cursor, sent, depth, timeout);
      }
    }

    // ---- Crash and restart ----

    /** The process ends while it sends the recipients of the block after the cursor. */
    method EndInBlock(events: seq<Event>, live: set<Addr>, done: nat)
      requires Valid()
      modifies this`sent, this`past, this`pruned
      ensures Valid() && pruned == None
      ensures sent == old(sent) + Delivered(events, live, done)
      ensures past == Plus(old(past), [Interrupted(cursor + 1, events, live, done)])
    {
      Deliver(events, live, done);
      ghost var e := Interrupted(cursor + 1, events, live, done);
      HistoryAppend(past, e, cursor, cursor, old(sent), depth, timeout);
      past := Plus(past, [e]);
      pruned := None;
    }

    /** A failed session, and a recovery up to its decision. */
    method FailAndExamine(answers: seq<Answer>)
      requires Valid() && Representable(answers)
      modifies this`current, this`pruned, this`past, this`stuckEntry
      ensures Valid() && Continues(old(past), past) && past.beyond == old(past).beyond + Beyond(answers)
    {
      EndFailed();
      ghost var failed := past;
      ContinuesPlus(old(past), [SessionFailed]);
      AskingContinues(past, pruned, cursor, clock, answers, depth);
      Examine(answers);
      ContinuesTrans(old(past), failed, past);
    }

    /** What a process that ends while following its endpoint has sent: the blocks it scanned, and the
        first recipients of the one that was being fetched. */
    ghost predicate EndsSending(ending: Ending, ok: bool, next: nat, before: seq<Addr>, sent: seq<Addr>)
      requires ending.Scanning?
    {
      && next <= |ending.fetches|
      && (ok ==> Sends(before, sent, ending.fetches, 0, next))
      && (!ok ==>
            exists scanned :: Sends(before, scanned, ending.fetches, 0, next)
                              && sent == scanned + Delivered(ending.events, ending.live, ending.done))
    }

    /** The last turn of a process, cut off.  An end between a move of the cursor and its write is a
        move whose write fails, with nothing after it. */
    method End(ending: Ending) returns (ok: bool, ghost next: nat)
      requires Valid() && (ending.Recovering? ==> |ending.answers| == endpoints && Representable(ending.answers))
      modifies this, store`heightRow
      ensures Valid() && Continues(old(past), past) && Grows(old(sent), sent)
      ensures cursor == old(cursor) + next && clock == old(clock)
      ensures ending.Resting? ==> next == 0 && past == old(past) && sent == old(sent)
      ensures ending.Scanning? ==> EndsSending(ending, ok, next, old(sent), sent)
      ensures ending.Recovering? ==> SessionScans(ending.session, next, old(sent), sent)
      ensures ending.Recovering? && !ok ==> past.beyond == old(past).beyond + Beyond(ending.answers)
      ensures !ending.Recovering? || ok ==> past.beyond == old(past).beyond
      ensures old(Resumable()) ==> Resumable()
    {
      ok, next := true, 0;
      match ending {
        case Resting =>
        case Scanning(tips, fetches, events, live, done) =>
          ok, next := FollowAll(tips, fetches);
          if !ok {
            ghost var before := past;
            EndInBlock(events, live, done);
            ContinuesPlus(before, [Interrupted(cursor + 1, events, live, done)]);
            ContinuesTrans(old(past), before, past);
          }
        case Recovering(session, answers) =>
          ok, next := ScanSession(session);
          if !ok {
            ghost var before := past;
            FailAndExamine(answers);
            ContinuesTrans(old(past), before, past);
          }
      }
      SentFollows(old(past), old(sent), past, sent);
    }

    /** What the source demands of a process: one answer per endpoint, representable heights. */
    predicate Fits(life: Life) {
      && (life.start.Some? ==> life.start.value < TWO_64)
      && (forall r :: r in life.rounds ==> |r.answers| == endpoints && Representable(r.answers))
      && (life.ending.Recovering? ==> |life.ending.answers| == endpoints && Representable(life.ending.answers))
    }

    /** No endpoint claims a horizon beyond its own tip. */
    predicate Sane(life: Life) {
      && (forall r :: r in life.rounds ==> Beyond(r.answers) == {})
      && (life.ending.Recovering? ==> Beyond(life.ending.answers) == {})
    }

    /** One process, from its boot to its end. */
    method Live(life: Life) returns (started: bool)
      requires Valid() && Fits(life)
      modifies this, store`heightRow
      ensures Valid() && Grows(old(past).log, past.log) && Grows(old(sent), sent)
      ensures
        var from := BootCursor(life.loads, None, life.start, life.tips);
        old(store.heightRow).None? ==> started == from.Some? && (started ==> past.base == from.value)
      ensures started && life.persists ==> Resumable()
      ensures Sane(life) ==> past.beyond == old(past).beyond
      ensures clock == if started then old(clock) + Duration(life.rounds, |life.rounds|) else old(clock)
      ensures !started ==> past == old(past) && sent == old(sent) && cursor == old(cursor)
      ensures old(Resumable()) && life.loads ==> Resumable() && past.base == old(past).base
    {
      started := Boot(life.loads, life.start, life.tips, life.persists);
      if started {
        ghost var booted := past;
        Run(life.rounds);
        GrowsTrans(old(past).log, booted.log, past.log);
        ghost var ran := past;
        var _, _ := End(life.ending);
        GrowsTrans(old(past).log, ran.log, past.log);
      }
      SentFollows(old(past), old(sent), past, sent);
    }

    /** Any number of processes, one after the other, each ending anywhere: between turns, inside a
        block, between a move of the cursor and its write, or during a recovery.  As long as restarts
        reload the stored cursor, the covered range continues: heights may be scanned again, but none
        is left out. */
    method Lifetimes(lives: seq<Life>)
      requires Valid() && forall l :: l in lives ==> Fits(l)
      modifies this, store`heightRow
      ensures Valid() && Grows(old(past).log, past.log) && Grows(old(sent), sent)
      ensures old(Resumable()) && (forall l :: l in lives ==> l.loads) ==> Resumable() && past.base == old(past).base
      ensures old(past).beyond == {} && (forall l :: l in lives ==> Sane(l)) ==> WithinTips(past, cursor)
    {
      for i := 0 to |lives|
        invariant Valid() && Grows(old(past).log, past.log)
        invariant old(Resumable()) && (forall l :: l in lives ==> l.loads) ==> Resumable() && past.base == old(past).base
        invariant (forall l :: l in lives ==> Sane(l)) ==> past.beyond == old(past).beyond
      {
        assert lives[i] in lives;
        ghost var before := past;
        var _ := Live(lives[i]);
        GrowsTrans(old(past).log, before.log, past.log);
      }
      SentFollows(old(past), old(sent), past, sent);
      if past.beyond == {} {
        CursorWithinTips(past, cursor, sent, depth, timeout);
      }
    }

    /** From the very first start on.  If its cursor is written and later processes reload it, every
        height between that first cursor and the current one is covered. */
    method Deployment(first: Life, later: seq<Life>) returns (started: bool)
      requires Valid() && store.heightRow.None? && Fits(first) && forall l :: l in later ==> Fits(l)
      modifies this, store`heightRow
      ensures Valid() && Grows(old(past).log, past.log) && Grows(old(sent), sent)
      ensures
        var from := BootCursor(first.loads, None, first.start, first.tips);
        && started == from.Some?
        && (started && first.persists && (forall l :: l in later ==> l.loads) ==> past.base == from.value)
    {
      started := Live(first);
      ghost var before := past;
      Lifetimes(later);
      GrowsTrans(old(past).log, before.log, past.log);
      SentFollows(old(past), old(sent), past, sent);
    }
  }
}
