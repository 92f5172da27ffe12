/** Vocabulary shared by the dispatcher and the interleaved protocol: addresses, backoff
    entries, and the program counter of one spawned forward task. */
module Forwarding {

  type Addr = string

  /** One backoff entry: failed attempts so far, and the time before which no attempt may start. */
  datatype Retry = Retry(failures: nat, nextAttempt: nat)

  /** Where a spawned task stands.  Every constructor is a point between two accesses to shared
      state, so other tasks may run in between.  `sent` says whether the step belongs to the
      tail that follows a successful submission. */
  datatype Pc =
    | Starting
    | CheckBackoff
    | QueryBalance
    | Stamp(sent: bool)
    | RecordStore(sent: bool, at: nat)
    | RecordMem(sent: bool, at: nat)
    | ResolveFee
    | Submit
    | FailRead
    | FailStore(entry: Retry)
    | FailMem(entry: Retry)
    | ClearMem(sent: bool)
    | ClearStore(sent: bool)
    | Finishing
    | Releasing(requeue: bool)
    | Resending
    | Done

  /** The worker has not yet removed its in-flight entry. */
  predicate Running(pc: Pc) {
    !pc.Releasing? && !pc.Resending? && !pc.Done?
  }

  predicate HoldsPermit(pc: Pc) {
    Running(pc) || pc.Releasing?
  }

  /** Distance to the return of `forward_address`. */
  function Rank(pc: Pc): nat {
    match pc
    case Starting => 20
    case CheckBackoff => 19
    case QueryBalance => 18
    case Stamp(sent) => if sent then 7 else 17
    case RecordStore(sent, _) => if sent then 6 else 16
    case RecordMem(sent, _) => if sent then 5 else 15
    case ResolveFee => 14
    case Submit => 13
    case FailRead => 12
    case FailStore(_) => 11
    case FailMem(_) => 10
    case ClearMem(_) => 9
    case ClearStore(_) => 8
    case _ => 0
  }
}
