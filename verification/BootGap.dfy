/** The gap that a scanner leaves when it starts above the tip at which an address joined: when it
    is there, and when it is not. */
module BootGap {
  import opened Forwarding
  import opened Protocol
  import opened Obligations
  import opened Coverage

  // ---- When the boot gap is empty ----

  /** A stored cursor that has not been loaded yet is no higher than the tip at which any address joined;
      once loaded, neither is the boot cursor. */
  ghost predicate NoGap(s: State) {
    if s.scan.phase.Booting? then
      s.heightDb.Some? ==> forall a :: a in s.live ==> s.heightDb.value <= s.live[a]
    else
      forall a :: a in s.live ==> s.scan.boot <= s.live[a]
  }

  lemma NoGapKept(s: State, e: Step)
    requires ChainInv(s) && NoGap(s) && Enabled(s, e) && !FreshBoot(e) && s.scan.boot <= Tip(s)
    ensures NoGap(Apply(s, e))
  {
  }

  lemma BootBelowTipKept(s: State, e: Step)
    requires s.scan.boot <= Tip(s) && Enabled(s, e)
    ensures Apply(s, e).scan.boot <= Tip(Apply(s, e))
  {
  }

  lemma {:induction false} BootBelowTip(ss: seq<State>, es: seq<Step>, k: nat)
    requires FromStart(ss, es) && k <= |es|
    ensures ss[k].scan.boot <= Tip(ss[k])
  {
    if k > 0 {
      BootBelowTip(ss, es, k - 1);
      BootBelowTipKept(ss[k - 1], es[k - 1]);
    }
  }

  /** After a restart at step `c` whose scanner reloads its stored cursor, no deposit falls into
      a boot gap, however the steps interleave. */
  lemma {:induction false} ReloadLeavesNoGap(ss: seq<State>, es: seq<Step>, c: nat, k: nat)
    requires FromStart(ss, es) && c < k <= |es| && es[c].Crash?
    requires forall j :: c < j < k ==> !FreshBoot(es[j])
    ensures NoGap(ss[k])
    ensures !ss[k].scan.phase.Booting? ==>
              forall a, height :: a in ss[k].live ==> !InBootGap(ss[k], a, height)
  {
    if k > c + 1 {
      ReloadLeavesNoGap(ss, es, c, k - 1);
      RunInv(ss, es, k - 1);
      BootBelowTip(ss, es, k - 1);
      NoGapKept(ss[k - 1], es[k - 1]);
    }
  }

  // ---- When a boot leaves a gap ----

  /** The cursor that the boot starts from is not above the tip at which any live address joined or
      was last announced. */
  ghost predicate BootsBehind(s: State, e: Step)
    requires Enabled(s, e) && Boots(e)
  {
    forall a :: a in s.live ==> BootCursor(s.heightDb, e.scan.from) <= s.live[a]
  }

  /** Every boot, exactly. */
  lemma BootGapExactly(s: State, e: Step)
    requires Enabled(s, e) && Boots(e)
    ensures NoGap(Apply(s, e)) <==> BootsBehind(s, e)
  {
  }

  lemma {:induction false} NoGapAfter(ss: seq<State>, es: seq<Step>, b: nat, k: nat)
    requires FromStart(ss, es) && b < k <= |es| && Boots(es[b]) && BootsBehind(ss[b], es[b])
    requires forall j :: b < j < k ==> !FreshBoot(es[j])
    ensures NoGap(ss[k])
  {
    if k == b + 1 {
      BootGapExactly(ss[b], es[b]);
    } else {
      NoGapAfter(ss, es, b, k - 1);
      RunInv(ss, es, k - 1);
      BootBelowTip(ss, es, k - 1);
      NoGapKept(ss[k - 1], es[k - 1]);
    }
  }

  /** A boot is followed by states without a gap, all the way to the next boot that does not reload
      and through every crash, if and only if it starts behind the joining of every live address. */
  lemma {:induction false} NoGapFromBoot(ss: seq<State>, es: seq<Step>, b: nat, k: nat)
    requires FromStart(ss, es) && b < k <= |es| && Boots(es[b])
    requires forall j :: b < j < k ==> !FreshBoot(es[j])
    ensures (forall j :: b < j <= k ==> NoGap(ss[j])) <==> BootsBehind(ss[b], es[b])
  {
    BootGapExactly(ss[b], es[b]);
    assert ss[b + 1] == Apply(ss[b], es[b]);
    if BootsBehind(ss[b], es[b]) {
      forall j | b < j <= k
        ensures NoGap(ss[j])
      {
        NoGapAfter(ss, es, b, j);
      }
    }
  }

  /** Until its first swap a process has an empty live list. */
  lemma {:induction false} EmptyUntilSwap(ss: seq<State>, es: seq<Step>, c: nat, k: nat)
    requires FromStart(ss, es) && c <= k <= |es| && (c == 0 || es[c - 1].Crash?)
    requires forall j :: c <= j < k ==> !Swaps(ss[j], es[j])
    ensures ss[k].live == map[]
  {
    if k > c {
      EmptyUntilSwap(ss, es, c, k - 1);
    }
  }

  /** What a caller can arrange: a scanner that boots before the first swap of its process leaves no
      gap, whatever it starts from. */
  lemma {:induction false} EarlyBootLeavesNoGap(ss: seq<State>, es: seq<Step>, c: nat, b: nat, k: nat)
    requires FromStart(ss, es) && c <= b < k <= |es| && (c == 0 || es[c - 1].Crash?) && Boots(es[b])
    requires forall j :: c <= j < b ==> !Swaps(ss[j], es[j])
    requires forall j :: b < j < k ==> !FreshBoot(es[j])
    ensures NoGap(ss[k])
  {
    EmptyUntilSwap(ss, es, c, b);
    NoGapFromBoot(ss, es, b, k);
  }

  /** Without a gap no deposit is out of sight: it has an obligation, or is still ahead of the
      cursor, or lies in a recorded skip. */
  lemma {:induction false} NothingOutOfSight(ss: seq<State>, es: seq<Step>, b: nat, k: nat, a: Addr, height: nat)
    requires FromStart(ss, es) && b < k <= |es| && Boots(es[b]) && BootsBehind(ss[b], es[b])
    requires forall j :: b < j < k ==> !FreshBoot(es[j])
    requires a in ss[k].live && !Removing(ss[k], a) && (a, height) in ss[k].chain.held
    ensures Obligation(ss[k], a) || ss[k].scan.cursor < height || InSkip(ss[k], height)
  {
    NoGapFromBoot(ss, es, b, k);
    EveryDepositAccounted(ss, es, k, a, height);
    if ss[k].scan.phase.Booting? {
      BootingAtZero(ss, es, k);
    }
  }

  lemma {:induction false} BootingAtZero(ss: seq<State>, es: seq<Step>, k: nat)
    requires FromStart(ss, es) && k <= |es| && ss[k].scan.phase.Booting?
    ensures ss[k].scan.cursor == 0 == ss[k].scan.boot
  {
    if k > 0 && !es[k - 1].Crash? {
      BootingAtZero(ss, es, k - 1);
    }
  }
}
