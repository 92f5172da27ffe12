/** How far the announced deposits reach: every deposit of a watched address is announced, still
    ahead of the cursor, in a recorded skip, or in the gap left by a start from the bare tip. */
module Coverage {
  import opened Wrappers
  import opened Forwarding
  import opened Protocol
  import opened Obligations

  ghost predicate InSkip(s: State, height: nat) {
    exists r :: r in s.scan.skips && r.0 < height <= r.1
  }

  /** The height was scanned or lies in a recorded skip. */
  ghost predicate Accounted(s: State, height: nat) {
    height in s.scan.scanned || InSkip(s, height)
  }

  ghost predicate AccountedBetween(s: State, base: nat, cursor: nat) {
    forall h :: base < h <= cursor ==> Accounted(s, h)
  }

  /** Up to the cursor, and up to the stored cursor, every height after `base` is accounted for. */
  ghost predicate CoveredFrom(s: State, base: nat) {
    && AccountedBetween(s, base, s.scan.cursor)
    && (s.heightDb.Some? ==> AccountedBetween(s, base, s.heightDb.value))
  }

  // ---- The stored cursor ----

  /** The stored cursor is not ahead of the one in memory, so a restart leaves no gap. */
  predicate StoredBehind(s: State) {
    !s.scan.phase.Booting? && s.heightDb.Some? ==> s.heightDb.value <= s.scan.cursor
  }

  /** The stored cursor could not be read, a lagging endpoint reported a lower tip, and that tip
      could not be written. */
  predicate LosesCursor(s: State, e: Step) {
    && e.Scanner? && e.scan.Boot? && e.scan.from.AtTip? && !e.ok
    && s.heightDb.Some? && s.heightDb.value > e.scan.from.height
  }

  /** Exactly one kind of step lets the stored cursor get ahead. */
  lemma StoredBehindKept(s: State, e: Step)
    requires StoredBehind(s) && Enabled(s, e)
    ensures StoredBehind(Apply(s, e)) <==> !LosesCursor(s, e)
  {
  }

  /** Over whole runs, crashes included: the stored cursor never gets ahead of the one in memory
      if and only if no boot loses it. */
  lemma {:induction false} StoredNeverAhead(ss: seq<State>, es: seq<Step>, k: nat)
    requires FromStart(ss, es) && k <= |es|
    ensures (forall j :: 0 <= j <= k ==> StoredBehind(ss[j])) <==> (forall j :: 0 <= j < k ==> !LosesCursor(ss[j], es[j]))
  {
    if k > 0 {
      StoredNeverAhead(ss, es, k - 1);
      assert ss[k] == Apply(ss[k - 1], es[k - 1]);
      assert StoredBehind(ss[k - 1]) || !(forall j :: 0 <= j <= k ==> StoredBehind(ss[j]));
      if StoredBehind(ss[k - 1]) {
        StoredBehindKept(ss[k - 1], es[k - 1]);
      }
    }
  }

  /** The cursor is stored exactly by the steps that move it, if their write succeeds. */
  lemma StoredExactly(s: State, e: Step)
    requires Enabled(s, e)
    ensures
      var s' := Apply(s, e);
      s'.heightDb == if e.Scanner? && e.ok && !e.scan.Fetch? && !e.scan.Deliver? then Some(s'.scan.cursor) else s.heightDb
  {
  }

  /** Where a boot starts: a configured start is the first height to be scanned. */
  lemma BootsAt(s: State, e: Step)
    requires Enabled(s, e) && Boots(e)
    ensures
      var cursor := Apply(s, e).scan.cursor;
      match e.scan.from
      case Reload => s.heightDb == Some(cursor)
      case StartAt(h) => s.heightDb.None? && (h >= 1 ==> cursor + 1 == h) && (h == 0 ==> cursor == 0)
      case AtTip(h) => cursor == h
  {
  }

  /** Within a process the cursor moves by exactly the blocks that are finished, one each, and the
      skips. */
  lemma CursorMoves(s: State, e: Step)
    requires Enabled(s, e) && !e.Crash? && !Boots(e)
    ensures
      var cursor := Apply(s, e).scan.cursor;
      if e.Scanner? && e.scan.Advance? then cursor == s.scan.cursor + 1 && cursor in Apply(s, e).scan.scanned
      else if e.Scanner? && e.scan.Skip? then cursor == e.scan.to && s.scan.cursor < cursor
      else cursor == s.scan.cursor
  {
  }

  function Finished(es: seq<Step>, m: nat, k: nat): nat
    requires m <= k <= |es|
  {
    if k == m then 0
    else Finished(es, m, k - 1) + (if es[k - 1].Scanner? && es[k - 1].scan.Advance? then 1 else 0)
  }

  /** Over any stretch without boot and crash the cursor never goes back, and without skips it is
      exactly as many heights ahead as blocks have been finished. */
  lemma {:induction false} CursorCounts(ss: seq<State>, es: seq<Step>, m: nat, k: nat)
    requires Run(ss, es) && m <= k <= |es| && forall j :: m <= j < k ==> !es[j].Crash? && !Boots(es[j])
    ensures ss[m].scan.cursor + Finished(es, m, k) <= ss[k].scan.cursor
    ensures (forall j :: m <= j < k ==> !(es[j].Scanner? && es[j].scan.Skip?)) ==>
              ss[k].scan.cursor == ss[m].scan.cursor + Finished(es, m, k)
  {
    if k > m {
      CursorCounts(ss, es, m, k - 1);
      CursorMoves(ss[k - 1], es[k - 1]);
    }
  }

  // ---- Across restarts ----

  predicate Boots(e: Step) {
    e.Scanner? && e.scan.Boot?
  }

  predicate FreshBoot(e: Step) {
    Boots(e) && !e.scan.from.Reload?
  }

  /** A boot that does not reload the stored cursor starts beyond a height that nobody accounts for. */
  ghost predicate Leaps(s: State, e: Step, base: nat)
    requires Enabled(s, e)
  {
    FreshBoot(e) && !AccountedBetween(s, base, BootCursor(s.heightDb, e.scan.from))
  }

  lemma AccountedKept(s: State, e: Step, height: nat)
    requires Enabled(s, e) && Accounted(s, height)
    ensures Accounted(Apply(s, e), height)
  {
    if r :| r in s.scan.skips && r.0 < height <= r.1 {
      assert r in Apply(s, e).scan.skips;
    }
  }

  lemma BetweenKept(s: State, e: Step, base: nat, cursor: nat)
    requires Enabled(s, e) && AccountedBetween(s, base, cursor)
    ensures AccountedBetween(Apply(s, e), base, cursor)
  {
    forall h | base < h <= cursor
      ensures Accounted(Apply(s, e), h)
    {
      AccountedKept(s, e, h);
    }
  }

  /** A boot changes neither what was scanned nor what was skipped. */
  lemma BootAccounts(s: State, e: Step, base: nat, cursor: nat)
    requires Enabled(s, e) && Boots(e)
    ensures AccountedBetween(Apply(s, e), base, cursor) <==> AccountedBetween(s, base, cursor)
  {
    var s' := Apply(s, e);
    forall h
      ensures Accounted(s', h) <==> Accounted(s, h)
    {
      if Accounted(s, h) {
        AccountedKept(s, e, h);
      }
      assert s'.scan.skips == s.scan.skips;
      assert InSkip(s', h) ==> InSkip(s, h);
    }
  }

  lemma PassedAccounted(s: State, e: Step, height: nat)
    requires Enabled(s, e) && e.Scanner? && (e.scan.Advance? || e.scan.Skip?)
    requires s.scan.cursor < height <= Apply(s, e).scan.cursor
    ensures Accounted(Apply(s, e), height)
  {
    if e.scan.Skip? {
      assert (s.scan.cursor, e.scan.to) in Apply(s, e).scan.skips;
    }
  }

  /** A step of a scanner that moves its cursor accounts for what it passes. */
  lemma MoveCovers(s: State, e: Step, base: nat)
    requires CoveredFrom(s, base) && Enabled(s, e) && e.Scanner? && (e.scan.Advance? || e.scan.Skip?)
    ensures CoveredFrom(Apply(s, e), base)
  {
    var s' := Apply(s, e);
    BetweenKept(s, e, base, s.scan.cursor);
    forall h | base < h <= s'.scan.cursor
      ensures Accounted(s', h)
    {
      if s.scan.cursor < h {
        PassedAccounted(s, e, h);
      }
    }
    if s.heightDb.Some? {
      BetweenKept(s, e, base, s.heightDb.value);
    }
  }

  /** One step, exactly: the accounted range lasts, through crashes too, unless a boot leaps. */
  lemma CoveredFromExactly(s: State, e: Step, base: nat)
    requires CoveredFrom(s, base) && Enabled(s, e)
    ensures CoveredFrom(Apply(s, e), base) <==> !Leaps(s, e, base)
  {
    var s' := Apply(s, e);
    if Boots(e) {
      BootAccounts(s, e, base, s'.scan.cursor);
      if s'.heightDb.Some? {
        BootAccounts(s, e, base, s'.heightDb.value);
      }
    } else if e.Scanner? && (e.scan.Advance? || e.scan.Skip?) {
      MoveCovers(s, e, base);
    } else {
      BetweenKept(s, e, base, s.scan.cursor);
      if s.heightDb.Some? {
        BetweenKept(s, e, base, s.heightDb.value);
      }
    }
  }

  /** A boot that keeps the stored cursor behind starts an accounted range. */
  lemma BootStartsRange(s: State, e: Step)
    requires Enabled(s, e) && Boots(e) && !LosesCursor(s, e)
    ensures CoveredFrom(Apply(s, e), BootCursor(s.heightDb, e.scan.from))
  {
  }

  /** Over any run with any crashes and restarts, from a boot (step `b`) on: every height after its
      cursor is accounted for, up to the cursor and up to the stored one, in all states if and only
      if no later boot that does not reload leaps over one. */
  lemma {:induction false} RangeLasts(ss: seq<State>, es: seq<Step>, b: nat, k: nat)
    requires FromStart(ss, es) && b < k <= |es| && Boots(es[b]) && !LosesCursor(ss[b], es[b])
    ensures
      var base := BootCursor(ss[b].heightDb, es[b].scan.from);
      (forall j :: b < j <= k ==> CoveredFrom(ss[j], base)) <==> (forall j :: b < j < k ==> !Leaps(ss[j], es[j], base))
  {
    var base := BootCursor(ss[b].heightDb, es[b].scan.from);
    if k == b + 1 {
      BootStartsRange(ss[b], es[b]);
    } else {
      RangeLasts(ss, es, b, k - 1);
      assert ss[k] == Apply(ss[k - 1], es[k - 1]);
      assert CoveredFrom(ss[k - 1], base) || !(forall j :: b < j <= k ==> CoveredFrom(ss[j], base));
      if CoveredFrom(ss[k - 1], base) {
        CoveredFromExactly(ss[k - 1], es[k - 1], base);
      }
    }
  }

  lemma {:induction false} NothingStoredBeforeBoot(ss: seq<State>, es: seq<Step>, b: nat)
    requires FromStart(ss, es) && b <= |es| && forall j :: 0 <= j < b ==> !Boots(es[j])
    ensures ss[b].heightDb.None? && ss[b].scan.phase.Booting?
  {
    if b > 0 {
      NothingStoredBeforeBoot(ss, es, b - 1);
    }
  }

  /** From the very first boot on, however often the process crashes and wherever it does: if every
      restart reloads the stored cursor, each height between the first cursor and the current one
      was scanned or lies in a recorded skip. */
  lemma {:induction false} RestartsLeaveNoHole(ss: seq<State>, es: seq<Step>, b: nat, k: nat, height: nat)
    requires FromStart(ss, es) && b < k <= |es| && Boots(es[b])
    requires forall j :: 0 <= j < b ==> !Boots(es[j])
    requires forall j :: b < j < k ==> !FreshBoot(es[j])
    requires BootCursor(ss[b].heightDb, es[b].scan.from) < height <= ss[k].scan.cursor
    ensures Accounted(ss[k], height)
  {
    NothingStoredBeforeBoot(ss, es, b);
    RangeLasts(ss, es, b, k);
    assert forall j :: b < j < k ==> !Leaps(ss[j], es[j], BootCursor(ss[b].heightDb, es[b].scan.from));
  }

  // ---- One process ----

  /** Every height this process has passed was scanned or belongs to a recorded skip. */
  ghost predicate Covered(s: State) {
    AccountedBetween(s, s.scan.boot, s.scan.cursor)
  }

  lemma CoveredKept(s: State, e: Step)
    requires Covered(s) && Enabled(s, e)
    ensures Covered(Apply(s, e))
  {
    var s' := Apply(s, e);
    if e.Scanner? && (e.scan.Advance? || e.scan.Skip?) {
      BetweenKept(s, e, s.scan.boot, s.scan.cursor);
      forall h | s.scan.boot < h <= s'.scan.cursor
        ensures Accounted(s', h)
      {
        if s.scan.cursor < h {
          PassedAccounted(s, e, h);
        }
      }
    } else if !e.Crash? && !Boots(e) {
      BetweenKept(s, e, s.scan.boot, s.scan.cursor);
    }
  }

  lemma {:induction false} RunCovered(ss: seq<State>, es: seq<Step>, k: nat)
    requires FromStart(ss, es) && k <= |es|
    ensures Covered(ss[k])
  {
    if k > 0 {
      RunCovered(ss, es, k - 1);
      CoveredKept(ss[k - 1], es[k - 1]);
    }
  }

  /** Committed after the address was last announced, but not after the cursor this process booted from. */
  predicate InBootGap(s: State, a: Addr, height: nat)
    requires a in s.live
  {
    s.live[a] < height <= s.scan.boot
  }

  /** Every deposit held by a live address that is not being removed is accounted for. */
  lemma {:induction false} EveryDepositAccounted(ss: seq<State>, es: seq<Step>, k: nat, a: Addr, height: nat)
    requires FromStart(ss, es) && k <= |es|
    requires a in ss[k].live && !Removing(ss[k], a) && (a, height) in ss[k].chain.held
    ensures
      || Obligation(ss[k], a)
      || ss[k].scan.cursor < height
      || InSkip(ss[k], height)
      || InBootGap(ss[k], a, height)
  {
    RunCovered(ss, es, k);
    assert ss[k].scan.boot < height <= ss[k].scan.cursor ==> Accounted(ss[k], height);
    if height in ss[k].scan.scanned {
      ScannedIsAnnounced(ss, es, k, a, height);
    }
    if Announced(ss[k], a, height) {
      NoFundedAddressForgotten(ss, es, k, a, height);
    }
  }
}
