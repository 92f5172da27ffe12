/** The history a block scanner leaves, and what it must satisfy. */
module ScannerLog {
  import opened Forwarding
  import opened Wrappers
  import opened Backoff
  import opened Evidence
  import opened Deposits

  /** A height fits a signed 64-bit integer. */
  type Height = h: nat | h <= MAX_HEIGHT

  /** `Read` and `Probed` are `block_results` calls, successful or not, with the endpoint and the
      tip of it that allowed the call.  `Scanned` is written when the cursor passes the height,
      after its watched recipients were sent; `Interrupted` when the process ends before that, with
      the first `done` deposits dealt with.  `Skipped` covers `from` to `to`; `gated` says that it
      had to wait out the timeout, on the clock that entry `clock` started. */
  datatype Entry =
    | Booted(cursor: nat, reloaded: bool)
    | Read(height: nat, endpoint: nat, tip: nat)
    | Probed(height: nat, endpoint: nat, tip: nat)
    | Scanned(height: nat, events: seq<Event>, live: set<Addr>)
    | Interrupted(height: nat, events: seq<Event>, live: set<Addr>, done: nat)
    | Stuck(height: nat, since: nat)
    | SessionFailed
    | CleanEnd
    | Skipped(from: nat, to: nat, gated: bool, clock: nat, at: nat, answers: seq<Answer>)

  /** Those of the first `n` names that are watched, in order. */
  function Watched(names: seq<Addr>, live: set<Addr>, n: nat): seq<Addr>
    requires n <= |names|
  {
    if n == 0 then []
    else Watched(names, live, n - 1) + (if names[n - 1] in live then [names[n - 1]] else [])
  }

  lemma {:induction false} WatchedExactly(names: seq<Addr>, live: set<Addr>, n: nat, a: Addr)
    requires n <= |names|
    ensures a in Watched(names, live, n) <==> a in live && exists i :: 0 <= i < n && names[i] == a
  {
    if n > 0 {
      WatchedExactly(names, live, n - 1, a);
      assert n - 1 < n && names[n - 1] == names[n - 1];
    }
  }

  /** The watched recipients of a block, as far as the first `done` deposits. */
  function Delivered(events: seq<Event>, live: set<Addr>, done: nat): seq<Addr> {
    var names := Recipients(events, |events|);
    Watched(names, live, if done <= |names| then done else |names|)
  }

  /** All of them. */
  function WatchedRecipients(events: seq<Event>, live: set<Addr>): seq<Addr> {
    var names := Recipients(events, |events|);
    Watched(names, live, |names|)
  }

  lemma {:induction false} WatchedGrows(names: seq<Addr>, live: set<Addr>, m: nat, n: nat)
    requires m <= n <= |names|
    ensures Watched(names, live, m) <= Watched(names, live, n)
  {
    if m < n {
      WatchedGrows(names, live, m, n - 1);
    }
  }

  /** Delivering stops somewhere on the way to delivering everything. */
  lemma {:induction false} DeliveredIsPart(events: seq<Event>, live: set<Addr>, done: nat)
    ensures Delivered(events, live, done) <= WatchedRecipients(events, live)
    ensures Delivered(events, live, 0) == []
    ensures done >= |Recipients(events, |events|)| ==> Delivered(events, live, done) == WatchedRecipients(events, live)
  {
    var names := Recipients(events, |events|);
    WatchedGrows(names, live, if done <= |names| then done else |names|, |names|);
  }

  lemma {:induction false} WatchedOnce(names: seq<Addr>, live: set<Addr>, n: nat, i: nat, j: nat)
    requires n <= |names| && forall k, l :: 0 <= k < l < |names| ==> names[k] != names[l]
    requires i < j < |Watched(names, live, n)|
    ensures Watched(names, live, n)[i] != Watched(names, live, n)[j]
  {
    if j < |Watched(names, live, n - 1)| {
      WatchedOnce(names, live, n - 1, i, j);
    } else {
      WatchedExactly(names, live, n - 1, Watched(names, live, n - 1)[i]);
      assert Watched(names, live, n - 1)[i] in Watched(names, live, n - 1);
    }
  }

  /** A block sends no address twice. */
  lemma {:induction false} NobodySentTwice(events: seq<Event>, live: set<Addr>, i: nat, j: nat)
    requires i < j < |WatchedRecipients(events, live)|
    ensures WatchedRecipients(events, live)[i] != WatchedRecipients(events, live)[j]
  {
    var names := Recipients(events, |events|);
    forall k, l | 0 <= k < l < |names|
      ensures names[k] != names[l]
    {
      RecipientsOnce(events, |events|, k, l);
    }
    WatchedOnce(names, live, |names|, i, j);
  }

  /** Everything sent by the first `k` entries, in order: the watched recipients of the scanned
      heights, and of the first deposits of an interrupted one. */
  function Sent(log: seq<Entry>, k: nat): seq<Addr>
    requires k <= |log|
  {
    if k == 0 then [] else Sent(log, k - 1) + SentBy(log[k - 1])
  }

  function SentBy(e: Entry): seq<Addr> {
    match e
    case Scanned(_, events, live) => WatchedRecipients(events, live)
    case Interrupted(_, events, live, done) => Delivered(events, live, done)
    case _ => []
  }

  predicate SentUpTo(sent: seq<Addr>, log: seq<Entry>, n: nat) {
    n == |log| ==> sent == Sent(log, n)
  }

  /** What has been sent is what the log says. */
  ghost predicate SentAsLogged(sent: seq<Addr>, log: seq<Entry>) {
    forall n: nat :: SentUpTo(sent, log, n)
  }

  lemma {:induction false} SentIsLogged(sent: seq<Addr>, log: seq<Entry>)
    ensures SentAsLogged(sent, log) <==> sent == Sent(log, |log|)
  {
    assert SentAsLogged(sent, log) ==> SentUpTo(sent, log, |log|);
  }

  lemma {:induction false} SentSame(log: seq<Entry>, e: Entry, k: nat)
    requires k <= |log|
    ensures Sent(log + [e], k) == Sent(log, k)
  {
    if k > 0 {
      SentSame(log, e, k - 1);
    }
  }

  lemma {:induction false} SentAppend(sent: seq<Addr>, log: seq<Entry>, e: Entry)
    requires SentAsLogged(sent, log)
    ensures SentAsLogged(sent + SentBy(e), log + [e])
  {
    SentIsLogged(sent, log);
    SentSame(log, e, |log|);
  }

  // ---- Growing sequences ----

  predicate SameAt<T(==)>(s: seq<T>, t: seq<T>, j: nat)
    requires j < |s| && j < |t|
  {
    s[j] == t[j]
  }

  /** The second sequence starts with the first one. */
  ghost predicate Grows<T>(s: seq<T>, t: seq<T>) {
    |s| <= |t| && forall j: nat :: j < |s| ==> SameAt(s, t, j)
  }

  lemma {:induction false} GrowsTrans<T>(r: seq<T>, s: seq<T>, t: seq<T>)
    requires Grows(r, s) && Grows(s, t)
    ensures Grows(r, t)
  {
    forall j: nat | j < |r|
      ensures SameAt(r, t, j)
    {
      assert SameAt(r, s, j) && SameAt(s, t, j);
    }
  }

  lemma {:induction false} GrowsAppend<T>(s: seq<T>, more: seq<T>)
    ensures Grows(s, s + more)
  {
  }

  lemma {:induction false} GrowsIsPrefix<T>(s: seq<T>, t: seq<T>)
    ensures Grows(s, t) <==> s <= t
  {
    if Grows(s, t) {
      forall j: nat | j < |s|
        ensures s[j] == t[j]
      {
        assert SameAt(s, t, j);
      }
    }
  }

  // ---- Coverage ----

  predicate Covers(e: Entry, height: nat) {
    match e
    case Scanned(h, _, _) => h == height
    case Skipped(from, to, _, _, _, _) => from <= height <= to
    case _ => false
  }

  ghost predicate CoveredBy(log: seq<Entry>, height: nat) {
    exists k :: 0 <= k < |log| && Covers(log[k], height)
  }

  ghost predicate Covered(log: seq<Entry>, base: nat, cursor: nat) {
    forall h :: base < h <= cursor ==> CoveredBy(log, h)
  }

  lemma {:induction false} CoveredGrows(log: seq<Entry>, e: Entry, base: nat, cursor: nat, cursor': nat)
    requires Covered(log, base, cursor)
    requires forall h :: cursor < h <= cursor' ==> Covers(e, h)
    ensures Covered(log + [e], base, cursor')
  {
    var log' := log + [e];
    forall h | base < h <= cursor'
      ensures CoveredBy(log', h)
    {
      if h <= cursor {
        assert CoveredBy(log, h);
        var k :| 0 <= k < |log| && Covers(log[k], h);
        assert Covers(log'[k], h);
      } else {
        assert Covers(log'[|log|], h);
      }
    }
  }

  // ---- Skips and their clock ----

  /** What a skip's testimony must show. */
  ghost predicate Justified(e: Entry, depth: nat)
    requires e.Skipped?
  {
    && e.from <= e.to
    && !Retained(e.answers, e.from, depth, true)
    && (if AllPruned(e.answers, e.from) then
          && (forall a :: a in e.answers && a.Status? ==> e.to < a.earliest)
          && (exists a :: a in e.answers && a.Status? && a.earliest == e.to + 1)
          && (e.gated <==> Silent in e.answers)
        else
          Retained(e.answers, e.from, depth, false) && e.to == e.from && e.gated)
  }

  ghost predicate SkipOk(log: seq<Entry>, k: nat, depth: nat)
    requires k < |log|
  {
    log[k].Skipped? ==> Justified(log[k], depth)
  }

  ghost predicate SkipsJustified(log: seq<Entry>, depth: nat) {
    forall k: nat :: k < |log| ==> SkipOk(log, k, depth)
  }

  lemma {:induction false} SkipsAppend(log: seq<Entry>, e: Entry, depth: nat)
    requires SkipsJustified(log, depth) && (e.Skipped? ==> Justified(e, depth))
    ensures SkipsJustified(log + [e], depth)
  {
    forall k: nat | k < |log + [e]|
      ensures SkipOk(log + [e], k, depth)
    {
      if k < |log| {
        assert SkipOk(log, k, depth);
      }
    }
  }

  /** Neither the cursor moves nor a session ends cleanly. */
  predicate Still(e: Entry) {
    e.Read? || e.Probed? || e.SessionFailed?
  }

  predicate StillAt(log: seq<Entry>, j: nat)
    requires j < |log|
  {
    Still(log[j])
  }

  ghost predicate StillSince(log: seq<Entry>, k: nat) {
    forall j: nat :: k < j < |log| ==> StillAt(log, j)
  }

  lemma {:induction false} StillAppend(log: seq<Entry>, e: Entry, k: nat)
    requires StillSince(log, k) && Still(e)
    ensures StillSince(log + [e], k)
  {
    forall j: nat | k < j < |log + [e]|
      ensures StillAt(log + [e], j)
    {
      if j < |log| {
        assert StillAt(log, j);
      }
    }
  }

  /** An entry of a session; a quiet one if the cursor has not moved. */
  predicate SessionAt(log: seq<Entry>, j: nat, moved: bool)
    requires j < |log|
  {
    (log[j].Read? || log[j].Scanned?) && (moved || Still(log[j]))
  }

  /** The log has grown by session entries only; by quiet ones if the cursor has not moved. */
  ghost predicate Grown(before: seq<Entry>, log: seq<Entry>, moved: bool) {
    Grows(before, log) && forall j: nat :: |before| <= j < |log| ==> SessionAt(log, j, moved)
  }

  lemma {:induction false} GrownTrans(first: seq<Entry>, mid: seq<Entry>, last: seq<Entry>, moved: bool, moved': bool)
    requires Grown(first, mid, moved) && Grown(mid, last, moved')
    ensures Grown(first, last, moved || moved')
  {
    var any := moved || moved';
    GrowsTrans(first, mid, last);
    forall j: nat | |first| <= j < |last|
      ensures SessionAt(last, j, any)
    {
      if j < |mid| {
        assert SessionAt(mid, j, moved) && SameAt(mid, last, j);
      } else {
        assert SessionAt(last, j, moved');
      }
    }
  }

  /** The clock that allows the skip at `j` started at entry `k`. */
  ghost predicate ClockRan(log: seq<Entry>, k: nat, j: nat, timeout: nat)
    requires k < j < |log| && log[j].Skipped?
  {
    && log[k].Stuck? && log[k].height == log[j].from
    && log[k].since + timeout <= log[j].at
    && forall i: nat :: k < i < j ==> StillAt(log, i)
  }

  ghost predicate TimeoutServed(log: seq<Entry>, j: nat, timeout: nat)
    requires j < |log|
  {
    log[j].Skipped? && log[j].gated ==> log[j].clock < j && ClockRan(log, log[j].clock, j, timeout)
  }

  /** Every skip that had to wait was preceded by a whole timeout in which the cursor stood right
      before the skipped height and no session ended cleanly. */
  ghost predicate TimeoutsServed(log: seq<Entry>, timeout: nat) {
    forall j: nat :: j < |log| ==> TimeoutServed(log, j, timeout)
  }

  /** The clock started by an earlier entry allows the skip now. */
  ghost predicate ClockAllows(log: seq<Entry>, e: Entry, timeout: nat)
    requires e.Skipped?
  {
    && e.clock < |log| && log[e.clock].Stuck? && log[e.clock].height == e.from
    && log[e.clock].since + timeout <= e.at && StillSince(log, e.clock)
  }

  lemma {:induction false} StillAtAppend(log: seq<Entry>, e: Entry, i: nat)
    requires i < |log| && StillAt(log, i)
    ensures StillAt(log + [e], i)
  {
  }

  lemma {:induction false} TimeoutsAppend(log: seq<Entry>, e: Entry, timeout: nat)
    requires TimeoutsServed(log, timeout) && (e.Skipped? && e.gated ==> ClockAllows(log, e, timeout))
    ensures TimeoutsServed(log + [e], timeout)
  {
    var log' := log + [e];
    forall j: nat | j < |log'|
      ensures TimeoutServed(log', j, timeout)
    {
      if j < |log| {
        assert TimeoutServed(log, j, timeout);
      }
      if log'[j].Skipped? && log'[j].gated {
        forall i: nat | log'[j].clock < i < j
          ensures StillAt(log', i)
        {
          StillAtAppend(log, e, i);
        }
      }
    }
  }

  // ---- Confirmation lag ----

  predicate Lagged(e: Entry, depth: nat, reports: set<(nat, nat)>) {
    match e
    case Read(h, endpoint, tip) => (endpoint, tip) in reports && h + depth <= tip
    case Probed(h, endpoint, tip) => (endpoint, tip) in reports && h + depth <= tip
    case _ => true
  }

  /** Every height fetched or probed is `depth` below a tip that the same endpoint reported. */
  ghost predicate LagKept(log: seq<Entry>, depth: nat, reports: set<(nat, nat)>) {
    forall k: nat :: k < |log| ==> LaggedAt(log, k, depth, reports)
  }

  predicate LaggedAt(log: seq<Entry>, k: nat, depth: nat, reports: set<(nat, nat)>)
    requires k < |log|
  {
    Lagged(log[k], depth, reports)
  }

  lemma {:induction false} LagAppend(log: seq<Entry>, e: Entry, depth: nat, reports: set<(nat, nat)>)
    requires LagKept(log, depth, reports) && Lagged(e, depth, reports)
    ensures LagKept(log + [e], depth, reports)
  {
    forall k: nat | k < |log + [e]|
      ensures LaggedAt(log + [e], k, depth, reports)
    {
      if k < |log| {
        assert LaggedAt(log, k, depth, reports);
      }
    }
  }

  // ---- What a recovery adds ----

  /** The probes of the first `n` endpoints. */
  function ProbesOf(answers: seq<Answer>, n: nat, stuck: nat, depth: nat): seq<Entry>
    requires n <= |answers|
  {
    if n == 0 then []
    else if answers[n - 1].Status? && Probes(answers[n - 1], stuck, depth) then
      ProbesOf(answers, n - 1, stuck, depth) + [Probed(stuck, n - 1, answers[n - 1].latest)]
    else ProbesOf(answers, n - 1, stuck, depth)
  }

  function ProbeEntries(answers: seq<Answer>, stuck: nat, depth: nat): seq<Entry> {
    ProbesOf(answers, |answers|, stuck, depth)
  }

  function Reported(answers: seq<Answer>): set<(nat, nat)> {
    set i | 0 <= i < |answers| && answers[i].Status? :: (i, answers[i].latest)
  }

  /** A probe is logged for exactly the endpoints that retain the height and are far enough past it. */
  lemma {:induction false} ProbesLogged(answers: seq<Answer>, n: nat, stuck: nat, depth: nat, e: Entry)
    requires n <= |answers|
    ensures
      e in ProbesOf(answers, n, stuck, depth)
      <==> exists i :: 0 <= i < n && answers[i].Status? && answers[i].earliest <= stuck
                       && FarEnough(answers[i].latest, stuck, depth) && e == Probed(stuck, i, answers[i].latest)
  {
    if n > 0 {
      ProbesLogged(answers, n - 1, stuck, depth, e);
      if answers[n - 1].Status? {
        ProbesExactly(answers[n - 1], stuck, depth);
      }
    }
  }

  lemma {:induction false} ProbesLagged(answers: seq<Answer>, stuck: nat, depth: nat)
    requires depth < TWO_64 && forall a :: a in answers && a.Status? ==> a.latest <= MAX_HEIGHT
    ensures forall e :: e in ProbeEntries(answers, stuck, depth) ==> e.Probed? && Lagged(e, depth, Reported(answers))
  {
    forall e | e in ProbeEntries(answers, stuck, depth)
      ensures e.Probed? && Lagged(e, depth, Reported(answers))
    {
      ProbesLogged(answers, |answers|, stuck, depth, e);
      var i :| 0 <= i < |answers| && answers[i].Status? && e == Probed(stuck, i, answers[i].latest)
               && FarEnough(answers[i].latest, stuck, depth);
      assert answers[i] in answers;
    }
  }

  /** The highest height the first `n` answers speak of: a tip, or the height before a horizon. */
  function HighestOf(answers: seq<Answer>, n: nat, sofar: nat): nat
    requires n <= |answers|
  {
    if n == 0 then sofar
    else
      var rest := HighestOf(answers, n - 1, sofar);
      match answers[n - 1]
      case Silent => rest
      case Status(_, _, _) => if rest < TopOf(answers[n - 1]) then TopOf(answers[n - 1]) else rest
  }

  function Highest(answers: seq<Answer>, sofar: nat): nat {
    HighestOf(answers, |answers|, sofar)
  }

  lemma {:induction false} HighestOfBounds(answers: seq<Answer>, n: nat, sofar: nat)
    requires n <= |answers|
    ensures sofar <= HighestOf(answers, n, sofar)
    ensures forall i :: 0 <= i < n && answers[i].Status? ==>
              answers[i].latest <= HighestOf(answers, n, sofar) && answers[i].earliest <= HighestOf(answers, n, sofar) + 1
  {
    if n > 0 {
      HighestOfBounds(answers, n - 1, sofar);
    }
  }

  lemma {:induction false} HighestBounds(answers: seq<Answer>, sofar: nat)
    ensures sofar <= Highest(answers, sofar)
    ensures forall a :: a in answers && a.Status? ==>
              a.latest <= Highest(answers, sofar) && a.earliest <= Highest(answers, sofar) + 1
  {
    HighestOfBounds(answers, |answers|, sofar);
  }

  function TopOf(answer: Answer): nat
    requires answer.Status?
  {
    var horizon := if answer.earliest == 0 then 0 else answer.earliest - 1;
    if horizon < answer.latest then answer.latest else horizon
  }

  /** The retention horizons that endpoints claim beyond their own tips. */
  function Beyond(answers: seq<Answer>): set<nat> {
    set a | a in answers && a.Status? && a.earliest > a.latest + 1 :: a.earliest - 1
  }

  ghost predicate Reports(reports: set<(nat, nat)>, tip: nat) {
    exists r :: r in reports && r.1 == tip
  }

  /** It was heard before, claimed beyond a tip, or is a tip. */
  lemma {:induction false} HighestHeard(answers: seq<Answer>, n: nat, sofar: nat)
    requires n <= |answers|
    ensures
      var top := HighestOf(answers, n, sofar);
      top == sofar || top in Beyond(answers) || Reports(Reported(answers), top)
  {
    if n > 0 {
      HighestHeard(answers, n - 1, sofar);
      assert answers[n - 1] in answers;
      if answers[n - 1].Status? {
        assert (n - 1, answers[n - 1].latest) in Reported(answers);
      }
    }
  }

  lemma {:induction false} HighestMonotone(answers: seq<Answer>, n: nat, sofar: nat)
    requires n <= |answers|
    ensures HighestOf(answers, n, 0) <= HighestOf(answers, n, sofar)
  {
    if n > 0 {
      HighestMonotone(answers, n - 1, sofar);
    }
  }

  /** What a skip from `cursor` that `Recovered` decides looks like in the log. */
  function SkipEntry(cursor: nat, after: nat, clock: nat, at: nat, answers: seq<Answer>): Entry {
    Skipped(cursor + 1, after,
            !((forall a :: a in answers && a.Status? ==> cursor + 1 < a.earliest) && Silent !in answers),
            clock, at, answers)
  }

  lemma {:induction false} SkipEntryJustified(cursor: nat, answers: seq<Answer>, depth: nat, elapsed: nat, timeout: nat,
                           clock: nat, at: nat, sofar: nat)
    requires Representable(answers) && cursor < Recovered(cursor, answers, depth, elapsed, timeout)
    ensures
      var after := Recovered(cursor, answers, depth, elapsed, timeout);
      var e := SkipEntry(cursor, after, clock, at, answers);
      && after <= MAX_HEIGHT
      && Justified(e, depth)
      && (e.gated ==> elapsed >= timeout)
      && after <= Highest(answers, sofar)
  {
    if cursor >= MAX_HEIGHT {
      NothingBeyondRange(cursor, answers, depth, elapsed, timeout);
    }
    SkipsExactlyOnEvidence(cursor, answers, depth, elapsed, timeout);
    SkipCoversOnlyLostHeights(cursor, answers, depth, elapsed, timeout);
    HighestBounds(answers, sofar);
  }

  // ---- All of it ----

  /** `base` is where the covered range starts, `reports` are the tips reported per endpoint,
      `beyond` the retention horizons claimed beyond the claimant's own tip, and `highest` the
      highest of all these. */
  datatype Past = Past(log: seq<Entry>, base: nat, reports: set<(nat, nat)>, beyond: set<nat>, highest: nat)

  /** The past of a scanner at `cursor` that has sent `sent` to the forward queue. */
  ghost predicate History(past: Past, cursor: nat, sent: seq<Addr>, depth: nat, timeout: nat) {
    && Covered(past.log, past.base, cursor)
    && SentAsLogged(sent, past.log)
    && SkipsJustified(past.log, depth)
    && TimeoutsServed(past.log, timeout)
    && LagKept(past.log, depth, past.reports)
    && WithinHeard(past, cursor)
  }

  /** The cursor is not above the larger of where it started and what was heard. */
  ghost predicate WithinHeard(past: Past, cursor: nat) {
    && cursor <= (if past.base < past.highest then past.highest else past.base)
    && (past.highest == 0 || past.highest in past.beyond || Reports(past.reports, past.highest))
    && forall r :: r in past.reports ==> r.1 <= past.highest
  }

  /** The cursor is not above the larger of where it started and the highest tip ever reported. */
  ghost predicate WithinTips(past: Past, cursor: nat) {
    cursor <= past.base || exists r :: r in past.reports && cursor <= r.1
  }

  /** As long as no endpoint claims a horizon beyond its own tip, tips bound the cursor. */
  lemma CursorWithinTips(past: Past, cursor: nat, sent: seq<Addr>, depth: nat, timeout: nat)
    requires History(past, cursor, sent, depth, timeout) && past.beyond == {}
    ensures WithinTips(past, cursor)
  {
    if past.base < cursor {
      var r :| r in past.reports && r.1 == past.highest;
    }
  }

  function Plus(past: Past, more: seq<Entry>): Past {
    past.(log := past.log + more)
  }

  /** One more entry, other than a skip. */
  lemma {:induction false} HistoryAppend(past: Past, e: Entry, cursor: nat, cursor': nat, sent: seq<Addr>,
                                         depth: nat, timeout: nat)
    requires History(past, cursor, sent, depth, timeout)
    requires !e.Skipped? && Lagged(e, depth, past.reports)
    requires forall h :: cursor < h <= cursor' ==> Covers(e, h)
    requires cursor' <= (if past.base < past.highest then past.highest else past.base)
    ensures History(Plus(past, [e]), cursor', sent + SentBy(e), depth, timeout)
    ensures SentBy(e) == [] ==> sent + SentBy(e) == sent
  {
    CoveredGrows(past.log, e, past.base, cursor, cursor');
    SkipsAppend(past.log, e, depth);
    TimeoutsAppend(past.log, e, timeout);
    LagAppend(past.log, e, depth, past.reports);
    SentAppend(sent, past.log, e);
  }

  /** A skip with its clock, if it needed one. */
  lemma {:induction false} HistorySkip(past: Past, e: Entry, cursor: nat, sent: seq<Addr>, depth: nat, timeout: nat)
    requires History(past, cursor, sent, depth, timeout)
    requires e.Skipped? && e.from == cursor + 1 && Justified(e, depth) && e.to <= past.highest
    requires e.gated ==> ClockAllows(past.log, e, timeout)
    ensures History(Plus(past, [e]), e.to, sent, depth, timeout)
  {
    assert sent + SentBy(e) == sent;
    CoveredGrows(past.log, e, past.base, cursor, e.to);
    SkipsAppend(past.log, e, depth);
    TimeoutsAppend(past.log, e, timeout);
    LagAppend(past.log, e, depth, past.reports);
    SentAppend(sent, past.log, e);
  }

  /** The probes of a recovery. */
  lemma {:induction false} HistoryProbes(past: Past, probes: seq<Entry>, cursor: nat, sent: seq<Addr>,
                                         depth: nat, timeout: nat)
    requires History(past, cursor, sent, depth, timeout)
    requires forall e :: e in probes ==> e.Probed? && Lagged(e, depth, past.reports)
    ensures History(Plus(past, probes), cursor, sent, depth, timeout)
    decreases |probes|
  {
    if probes == [] {
      assert past.log + probes == past.log;
    } else {
      var n := |probes| - 1;
      assert probes[n] in probes && probes[n].Probed?;
      HistoryProbes(past, probes[..n], cursor, sent, depth, timeout);
      HistoryAppend(Plus(past, probes[..n]), probes[n], cursor, cursor, sent, depth, timeout);
      assert past.log + probes == past.log + probes[..n] + [probes[n]];
    }
  }

  /** An endpoint reports its tip. */
  function HearTip(past: Past, endpoint: nat, tip: nat): Past {
    past.(reports := past.reports + {(endpoint, tip)},
          highest := if past.highest < tip then tip else past.highest)
  }

  /** The endpoints answer status queries. */
  function HearAnswers(past: Past, answers: seq<Answer>): Past {
    past.(reports := past.reports + Reported(answers), beyond := past.beyond + Beyond(answers),
          highest := Highest(answers, past.highest))
  }

  lemma {:induction false} LaggedMore(entries: seq<Entry>, depth: nat, reports: set<(nat, nat)>,
                                      reports': set<(nat, nat)>)
    requires reports <= reports' && forall e :: e in entries ==> e.Probed? && Lagged(e, depth, reports)
    ensures forall e :: e in entries ==> e.Probed? && Lagged(e, depth, reports')
  {
  }

  /** Only session entries have been added, and new reports and heights heard. */
  ghost predicate GrownPast(before: Past, past: Past, moved: bool) {
    && Grown(before.log, past.log, moved)
    && before.base == past.base
    && before.reports <= past.reports
    && before.beyond == past.beyond
  }

  /** The log has grown, and the covered range goes on. */
  ghost predicate Continues(before: Past, past: Past) {
    Grows(before.log, past.log) && before.base == past.base
  }

  lemma ContinuesTrans(first: Past, mid: Past, last: Past)
    requires Continues(first, mid) && Continues(mid, last)
    ensures Continues(first, last)
  {
    GrowsTrans(first.log, mid.log, last.log);
  }

  lemma {:induction false} ContinuesPlus(past: Past, more: seq<Entry>)
    ensures Continues(past, Plus(past, more))
  {
    GrowsAppend(past.log, more);
  }

  lemma GrownPastTrans(first: Past, mid: Past, last: Past, moved: bool, moved': bool)
    requires GrownPast(first, mid, moved) && GrownPast(mid, last, moved')
    ensures GrownPast(first, last, moved || moved')
  {
    GrownTrans(first.log, mid.log, last.log, moved, moved');
  }

  lemma {:induction false} LagKeptMore(log: seq<Entry>, depth: nat, reports: set<(nat, nat)>, reports': set<(nat, nat)>)
    requires LagKept(log, depth, reports) && reports <= reports'
    ensures LagKept(log, depth, reports')
  {
    forall k: nat | k < |log|
      ensures LaggedAt(log, k, depth, reports')
    {
      assert LaggedAt(log, k, depth, reports);
    }
  }

  lemma {:induction false} HistoryHearTip(past: Past, endpoint: nat, tip: nat, cursor: nat, sent: seq<Addr>,
                                          depth: nat, timeout: nat)
    requires History(past, cursor, sent, depth, timeout)
    ensures History(HearTip(past, endpoint, tip), cursor, sent, depth, timeout)
  {
    LagKeptMore(past.log, depth, past.reports, HearTip(past, endpoint, tip).reports);
  }

  lemma {:induction false} HistoryHearAnswers(past: Past, answers: seq<Answer>, cursor: nat, sent: seq<Addr>,
                                              depth: nat, timeout: nat)
    requires History(past, cursor, sent, depth, timeout)
    ensures History(HearAnswers(past, answers), cursor, sent, depth, timeout)
  {
    LagKeptMore(past.log, depth, past.reports, HearAnswers(past, answers).reports);
    HighestBounds(answers, past.highest);
    HighestHeard(answers, |answers|, past.highest);
  }

  /** A process starts: the covered range starts anew or continues from an earlier cursor. */
  lemma {:induction false} HistoryBoot(past: Past, e: Entry, cursor: nat, cursor': nat, continues: bool,
                                       sent: seq<Addr>, depth: nat, timeout: nat)
    requires History(past, cursor, sent, depth, timeout) && e.Booted?
    requires continues ==> cursor' <= cursor
    ensures History(Plus(past, [e]).(base := if continues then past.base else cursor'), cursor', sent, depth, timeout)
  {
    var earlier := past.(base := if continues then past.base else cursor');
    assert Covered(past.log, earlier.base, cursor');
    HistoryAppend(earlier, e, cursor', cursor', sent, depth, timeout);
  }

  // ---- The stuck clock ----

  /** The height the scanner is stuck at, and since when. */
  datatype StuckAt = StuckAt(height: nat, since: nat)

  /** The clock goes on for the height it was started for, and starts now for another. */
  function Clocked(pruned: Option<StuckAt>, stuck: nat, now: nat): (r: StuckAt)
    ensures r.height == stuck && r.since <= now
    ensures pruned.Some? && pruned.value.height == stuck && pruned.value.since <= now ==> r == pruned.value
    ensures pruned.None? || pruned.value.height != stuck ==> r.since == now
  {
    if pruned.Some? && pruned.value.height == stuck && pruned.value.since <= now
    then pruned.value else StuckAt(stuck, now)
  }

  /** Entry `k` started the clock; while its height is the next one, nothing has moved since. */
  ghost predicate ClockRuns(log: seq<Entry>, k: nat, pruned: Option<StuckAt>, cursor: nat, now: nat) {
    pruned.Some? ==>
      && pruned.value.height <= cursor + 1
      && pruned.value.since <= now
      && k < |log|
      && log[k] == Stuck(pruned.value.height, pruned.value.since)
      && (pruned.value.height == cursor + 1 ==> StillSince(log, k))
  }

  /** The clock survives quiet entries, and entries that come with a move of the cursor. */
  lemma {:induction false} ClockAppend(log: seq<Entry>, e: Entry, k: nat, pruned: Option<StuckAt>, cursor: nat,
                                       cursor': nat, now: nat)
    requires ClockRuns(log, k, pruned, cursor, now)
    requires cursor < cursor' || (cursor == cursor' && Still(e))
    ensures ClockRuns(log + [e], k, pruned, cursor', now)
  {
    if pruned.Some? && pruned.value.height == cursor' + 1 {
      StillAppend(log, e, k);
    }
  }

  lemma {:induction false} ClockProbes(log: seq<Entry>, probes: seq<Entry>, k: nat, pruned: Option<StuckAt>,
                                       cursor: nat, now: nat)
    requires ClockRuns(log, k, pruned, cursor, now) && forall e :: e in probes ==> e.Probed?
    ensures ClockRuns(log + probes, k, pruned, cursor, now)
    decreases |probes|
  {
    if probes == [] {
      assert log + probes == log;
    } else {
      var n := |probes| - 1;
      assert probes[n] in probes;
      ClockProbes(log, probes[..n], k, pruned, cursor, now);
      ClockAppend(log + probes[..n], probes[n], k, pruned, cursor, cursor, now);
      assert log + probes == log + probes[..n] + [probes[n]];
    }
  }

  /** The skip that the evidence and the clock allow. */
  lemma {:induction false} SkipAllowed(past: Past, height: nat, k: nat, running: StuckAt, cursor: nat,
                                       now: nat, answers: seq<Answer>,
                    sent: seq<Addr>, depth: nat, timeout: nat)
    requires History(past, cursor, sent, depth, timeout) && ClockRuns(past.log, k, Some(running), cursor, now)
    requires running.height == cursor + 1 && running.since <= now
    requires Representable(answers) && Highest(answers, 0) <= past.highest
    requires cursor < height == Recovered(cursor, answers, depth, now - running.since, timeout)
    ensures height <= MAX_HEIGHT
    ensures History(Plus(past, [SkipEntry(cursor, height, k, now, answers)]), height, sent, depth, timeout)
  {
    var e := SkipEntry(cursor, height, k, now, answers);
    SkipEntryJustified(cursor, answers, depth, now - running.since, timeout, k, now, 0);
    HistorySkip(past, e, cursor, sent, depth, timeout);
  }

  // ---- What a session and a recovery do ----

  /** One `block_results` call; `live` is the live list when the recipients are filtered. */
  datatype Fetch = Fails | Block(events: seq<Event>, live: set<Addr>, persists: bool)

  /** Everything sent once the fetches from `m` up to `n` have been scanned, block by block. */
  function SentAfter(sent: seq<Addr>, fetches: seq<Fetch>, m: nat, n: nat): seq<Addr>
    requires m <= n <= |fetches|
  {
    if n == m then sent
    else
      var sofar := SentAfter(sent, fetches, m, n - 1);
      match fetches[n - 1]
      case Fails => sofar
      case Block(events, live, _) => sofar + WatchedRecipients(events, live)
  }

  lemma {:induction false} SentAfterJoin(sent: seq<Addr>, fetches: seq<Fetch>, m: nat, k: nat, n: nat)
    requires m <= k <= n <= |fetches|
    ensures SentAfter(SentAfter(sent, fetches, m, k), fetches, k, n) == SentAfter(sent, fetches, m, n)
  {
    if n > k {
      SentAfterJoin(sent, fetches, m, k, n - 1);
    }
  }

  predicate SentThrough(before: seq<Addr>, sent: seq<Addr>, fetches: seq<Fetch>, m: nat, n: nat, k: nat)
    requires m <= n <= |fetches|
  {
    k == n ==> sent == SentAfter(before, fetches, m, k)
  }

  /** What has been sent is what the fetches from `m` up to `n` send, block by block. */
  ghost predicate Sends(before: seq<Addr>, sent: seq<Addr>, fetches: seq<Fetch>, m: nat, n: nat)
    requires m <= n <= |fetches|
  {
    forall k: nat :: SentThrough(before, sent, fetches, m, n, k)
  }

  lemma {:induction false} SendsIs(before: seq<Addr>, sent: seq<Addr>, fetches: seq<Fetch>, m: nat, n: nat)
    requires m <= n <= |fetches|
    ensures Sends(before, sent, fetches, m, n) <==> sent == SentAfter(before, fetches, m, n)
  {
    assert Sends(before, sent, fetches, m, n) ==> SentThrough(before, sent, fetches, m, n, n);
  }

  lemma {:induction false} SendsNone(sent: seq<Addr>, fetches: seq<Fetch>, m: nat)
    requires m <= |fetches|
    ensures Sends(sent, sent, fetches, m, m)
  {
    SendsIs(sent, sent, fetches, m, m);
  }

  lemma {:induction false} SendsJoin(before: seq<Addr>, mid: seq<Addr>, sent: seq<Addr>, fetches: seq<Fetch>,
                                     m: nat, k: nat, n: nat)
    requires m <= k <= n <= |fetches| && Sends(before, mid, fetches, m, k) && Sends(mid, sent, fetches, k, n)
    ensures Sends(before, sent, fetches, m, n)
  {
    SendsIs(before, mid, fetches, m, k);
    SendsIs(mid, sent, fetches, k, n);
    SendsIs(before, sent, fetches, m, n);
    SentAfterJoin(before, fetches, m, k, n);
  }

  /** One height read from an endpoint whose tip allows it, and scanned if it could be fetched. */
  function PastTurn(past: Past, fetch: Fetch, height: nat, endpoint: nat, tip: nat): Past {
    var read := Plus(past, [Read(height, endpoint, tip)]);
    match fetch
    case Fails => read
    case Block(events, live, _) => Plus(read, [Scanned(height, events, live)])
  }

  lemma TurnGrows(past: Past, fetch: Fetch, height: nat, endpoint: nat, tip: nat)
    ensures GrownPast(past, PastTurn(past, fetch, height, endpoint, tip), fetch.Block?)
  {
    var read := Plus(past, [Read(height, endpoint, tip)]);
    GrowsAppend(past.log, [Read(height, endpoint, tip)]);
    if fetch.Block? {
      GrowsAppend(read.log, [Scanned(height, fetch.events, fetch.live)]);
      GrowsTrans(past.log, read.log, PastTurn(past, fetch, height, endpoint, tip).log);
    }
  }

  /** Where a scanner gets that follows the first `n` tips. */
  function Reach(cursor: nat, tips: seq<Height>, n: nat, depth: nat): nat
    requires n <= |tips|
  {
    if n == 0 then cursor
    else
      var sofar := Reach(cursor, tips, n - 1, depth);
      if sofar < SatSub(tips[n - 1], depth) then SatSub(tips[n - 1], depth) else sofar
  }

  /** It is the highest of the tips, `depth` below, unless the cursor was there before. */
  lemma {:induction false} ReachIsHighest(cursor: nat, tips: seq<Height>, n: nat, depth: nat)
    requires n <= |tips|
    ensures var r := Reach(cursor, tips, n, depth);
      && cursor <= r && (forall i :: 0 <= i < n ==> SatSub(tips[i], depth) <= r)
      && (r == cursor || exists i :: 0 <= i < n && r == SatSub(tips[i], depth))
  {
    if n > 0 {
      ReachIsHighest(cursor, tips, n - 1, depth);
    }
  }

  /** Before it decides, a recovery starts the clock if it does not run yet, hears the answers, and
      logs its probes. */
  function AfterAsking(past: Past, pruned: Option<StuckAt>, cursor: nat, now: nat, answers: seq<Answer>,
                       depth: nat): Past {
    Plus(HearAnswers(WithClock(past, pruned, cursor, now), answers), ProbeEntries(answers, cursor + 1, depth))
  }

  lemma {:induction false} AskingContinues(past: Past, pruned: Option<StuckAt>, cursor: nat, now: nat,
                                           answers: seq<Answer>, depth: nat)
    ensures Continues(past, AfterAsking(past, pruned, cursor, now, answers, depth))
  {
    var clocked := WithClock(past, pruned, cursor, now);
    ContinuesPlus(past, [Stuck(cursor + 1, now)]);
    ContinuesPlus(HearAnswers(clocked, answers), ProbeEntries(answers, cursor + 1, depth));
    ContinuesTrans(past, clocked, AfterAsking(past, pruned, cursor, now, answers, depth));
  }

  function WithClock(past: Past, pruned: Option<StuckAt>, cursor: nat, now: nat): Past {
    if pruned.Some? && pruned.value.height == cursor + 1 then past else Plus(past, [Stuck(cursor + 1, now)])
  }

  // ---- What it means ----

  lemma {:induction false} SentGrows(log: seq<Entry>, k: nat, n: nat)
    requires k <= n <= |log|
    ensures Grows(Sent(log, k), Sent(log, n))
  {
    if k < n {
      SentGrows(log, k, n - 1);
      GrowsAppend(Sent(log, n - 1), SentBy(log[n - 1]));
      GrowsTrans(Sent(log, k), Sent(log, n - 1), Sent(log, n));
    }
  }

  lemma {:induction false} SentOfGrown(before: seq<Entry>, log: seq<Entry>, k: nat)
    requires Grows(before, log) && k <= |before|
    ensures Sent(before, k) == Sent(log, k)
  {
    if k > 0 {
      assert SameAt(before, log, k - 1);
      SentOfGrown(before, log, k - 1);
    }
  }

  /** As the log grows, so does what has been sent. */
  lemma {:induction false} SentFollows(before: Past, was: seq<Addr>, past: Past, sent: seq<Addr>)
    requires Grows(before.log, past.log)
    requires SentAsLogged(was, before.log) && SentAsLogged(sent, past.log)
    ensures Grows(was, sent)
  {
    SentIsLogged(was, before.log);
    SentIsLogged(sent, past.log);
    SentOfGrown(before.log, past.log, |before.log|);
    SentGrows(past.log, |before.log|, |past.log|);
  }

  /** The watched recipients of a block are the watched addresses that one of its bank events names. */
  lemma {:induction false} WatchedRecipientsAre(events: seq<Event>, live: set<Addr>, a: Addr)
    ensures
      a in WatchedRecipients(events, live)
      <==> a in live && exists i :: 0 <= i < |events| && Recipient(events[i]) == Some(a)
  {
    var names := Recipients(events, |events|);
    WatchedExactly(names, live, |names|, a);
    RecipientsAreNamed(events, |events|, a);
  }

  /** By the time the cursor passes a scanned height, every address that was watched and that a
      bank event of the block names has been sent; and nobody else was sent for it. */
  lemma {:induction false} ScannedHeightSendsRecipients(log: seq<Entry>, k: nat, a: Addr)
    requires k < |log| && log[k].Scanned?
    ensures a in SentBy(log[k]) <==>
              a in log[k].live
              && exists i :: 0 <= i < |log[k].events| && Recipient(log[k].events[i]) == Some(a)
    ensures Sent(log, k) + SentBy(log[k]) == Sent(log, k + 1) && Grows(Sent(log, k + 1), Sent(log, |log|))
  {
    WatchedRecipientsAre(log[k].events, log[k].live, a);
    SentGrows(log, k + 1, |log|);
  }

  /** Coverage over any run: a height between the first cursor and the current one was scanned, or
      lies in a recorded skip whose testimony shows that no endpoint that answered served it. */
  lemma {:induction false} EveryHeightAccounted(past: Past, cursor: nat, sent: seq<Addr>, depth: nat,
                                                timeout: nat, height: nat) returns (k: nat)
    requires History(past, cursor, sent, depth, timeout) && past.base < height <= cursor
    ensures k < |past.log|
    ensures
      var log := past.log;
      || (log[k].Scanned? && log[k].height == height)
      || (log[k].Skipped? && log[k].from <= height <= log[k].to && Justified(log[k], depth)
          && (log[k].gated ==> log[k].clock < k && ClockRan(log, log[k].clock, k, timeout)))
  {
    assert CoveredBy(past.log, height);
    k :| 0 <= k < |past.log| && Covers(past.log[k], height);
    assert SkipOk(past.log, k, depth) && TimeoutServed(past.log, k, timeout);
  }
}
