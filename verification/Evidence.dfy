/** The skip policy of the block scanner: what endpoints testify about a stuck height, the
    verdict on that testimony, and where the cursor goes. */
module Evidence {
  import opened Wrappers
  import opened Backoff

  const MAX_HEIGHT: nat := TWO_63 - 1

  function SatAdd(x: nat, y: nat): nat {
    if x + y < TWO_64 then x + y else TWO_64 - 1
  }

  function SatSub(x: nat, y: nat): nat {
    if x < y then 0 else x - y
  }

  /** One endpoint's answer to the status query; `serves` is what a probe of the stuck height
      would return. */
  datatype Answer = Silent | Status(earliest: nat, latest: nat, serves: bool)

  datatype HeightEvidence = HeightEvidence(earliest: nat, probe: Option<bool>)

  datatype Verdict = Pruned(newCursor: nat, unanimous: bool) | Unservable | Wait

  /** The node retains the height and its tip is at least `depth` past it. */
  predicate Probes(answer: Answer, stuck: nat, depth: nat)
    requires answer.Status?
  {
    answer.earliest <= stuck && SatAdd(stuck, depth) <= answer.latest
  }

  function Testimony(answer: Answer, stuck: nat, depth: nat): HeightEvidence
    requires answer.Status?
  {
    HeightEvidence(answer.earliest, if Probes(answer, stuck, depth) then Some(answer.serves) else None)
  }

  /** The testimonies of those of the first `n` endpoints that answered, in order. */
  function Testimonies(answers: seq<Answer>, n: nat, stuck: nat, depth: nat): seq<HeightEvidence>
    requires n <= |answers|
  {
    if n == 0 then []
    else
      var earlier := Testimonies(answers, n - 1, stuck, depth);
      match answers[n - 1]
      case Silent => earlier
      case Status(_, _, _) => earlier + [Testimony(answers[n - 1], stuck, depth)]
  }

  /** `gather_height_evidence`: a height beyond the representable range yields no evidence. */
  method GatherHeightEvidence(answers: seq<Answer>, stuck: nat, depth: nat) returns (evidence: seq<HeightEvidence>)
    ensures evidence == if stuck <= MAX_HEIGHT then Testimonies(answers, |answers|, stuck, depth) else []
    ensures
      forall e :: e in evidence <==>
        stuck <= MAX_HEIGHT
        && exists a :: a in answers && a.Status? && e.earliest == a.earliest
                       && e.probe == if a.earliest <= stuck && FarEnough(a.latest, stuck, depth) then Some(a.serves) else None
  {
    evidence := [];
    if stuck > MAX_HEIGHT {
      return;
    }
    for i := 0 to |answers|
      invariant evidence == Testimonies(answers, i, stuck, depth)
    {
      match answers[i] {
        case Silent =>
        case Status(earliest, latest, serves) =>
          var probe := None;
          if earliest <= stuck && SatAdd(stuck, depth) <= latest {
            probe := Some(serves);
          }
          evidence := evidence + [HeightEvidence(earliest, probe)];
      }
    }
    TestimoniesMean(answers, stuck, depth);
  }

  /** The lowest height that the first `n` testimonies speak of. */
  function MinEarliest(evidence: seq<HeightEvidence>, n: nat): nat
    requires 0 < n <= |evidence|
  {
    var last := evidence[n - 1].earliest;
    if n == 1 then last
    else
      var rest := MinEarliest(evidence, n - 1);
      if rest < last then rest else last
  }

  /** Some probe among the first `n` testimonies had this outcome. */
  function AnyProbe(evidence: seq<HeightEvidence>, n: nat, served: bool): bool
    requires n <= |evidence|
  {
    n > 0 && (evidence[n - 1].probe == Some(served) || AnyProbe(evidence, n - 1, served))
  }

  function Horizon(evidence: seq<HeightEvidence>): nat
    requires evidence != []
  {
    MinEarliest(evidence, |evidence|)
  }

  predicate AnyProbeIn(evidence: seq<HeightEvidence>, served: bool) {
    AnyProbe(evidence, |evidence|, served)
  }

  function AssessEvidence(evidence: seq<HeightEvidence>, total: nat, stuck: nat): Verdict {
    if AnyProbeIn(evidence, true) then Wait
    else if evidence == [] then Wait
    else if Horizon(evidence) > stuck then Pruned(Horizon(evidence) - 1, |evidence| == total)
    else if AnyProbeIn(evidence, false) then Unservable
    else Wait
  }

  /** All testimonies about the height. */
  function AllTestimonies(answers: seq<Answer>, stuck: nat, depth: nat): seq<HeightEvidence> {
    Testimonies(answers, |answers|, stuck, depth)
  }

  /** The verdict on what the endpoints say about the stuck height. */
  function Judge(answers: seq<Answer>, stuck: nat, depth: nat): Verdict {
    AssessEvidence(if stuck <= MAX_HEIGHT then AllTestimonies(answers, stuck, depth) else [], |answers|, stuck)
  }

  function AfterVerdict(cursor: nat, verdict: Verdict, expired: bool): nat {
    match verdict
    case Pruned(newCursor, unanimous) => if unanimous || expired then newCursor else cursor
    case Unservable => if expired then cursor + 1 else cursor
    case Wait => cursor
  }

  /** Where `recover_pruned` leaves the cursor. */
  function Recovered(cursor: nat, answers: seq<Answer>, depth: nat, elapsed: nat, timeout: nat): nat {
    AfterVerdict(cursor, Judge(answers, cursor + 1, depth), elapsed >= timeout)
  }

  // ---- What the testimony says about the endpoints ----

  lemma {:induction false} MinEarliestIsMin(evidence: seq<HeightEvidence>, n: nat)
    requires 0 < n <= |evidence|
    ensures forall i :: 0 <= i < n ==> MinEarliest(evidence, n) <= evidence[i].earliest
    ensures exists i :: 0 <= i < n && evidence[i].earliest == MinEarliest(evidence, n)
  {
    if n > 1 {
      MinEarliestIsMin(evidence, n - 1);
    }
    assert MinEarliest(evidence, n) == evidence[n - 1].earliest || (n > 1 && MinEarliest(evidence, n) == MinEarliest(evidence, n - 1));
  }

  lemma {:induction false} AnyProbeMeans(evidence: seq<HeightEvidence>, n: nat, served: bool)
    requires n <= |evidence|
    ensures AnyProbe(evidence, n, served) <==> exists i :: 0 <= i < n && evidence[i].probe == Some(served)
  {
    if n > 0 {
      AnyProbeMeans(evidence, n - 1, served);
    }
  }

  lemma {:induction false} TestimoniesFrom(answers: seq<Answer>, n: nat, stuck: nat, depth: nat)
    requires n <= |answers|
    ensures forall e :: e in Testimonies(answers, n, stuck, depth) <==>
              exists i :: 0 <= i < n && answers[i].Status? && e == Testimony(answers[i], stuck, depth)
  {
    if n > 0 {
      TestimoniesFrom(answers, n - 1, stuck, depth);
    }
  }

  /** One testimony for each answer: its horizon, and the outcome of a probe if the endpoint retains
      the height and is far enough past it. */
  lemma {:induction false} TestimoniesMean(answers: seq<Answer>, stuck: nat, depth: nat)
    ensures
      forall e :: e in AllTestimonies(answers, stuck, depth) <==>
        exists a :: a in answers && a.Status? && e.earliest == a.earliest
                    && e.probe == if a.earliest <= stuck && FarEnough(a.latest, stuck, depth) then Some(a.serves) else None
  {
    TestimoniesFrom(answers, |answers|, stuck, depth);
    forall a | a in answers && a.Status?
      ensures Probes(a, stuck, depth) <==> a.earliest <= stuck && FarEnough(a.latest, stuck, depth)
    {
      ProbesExactly(a, stuck, depth);
    }
  }

  /** There are as many testimonies as endpoints exactly when none was silent. */
  lemma {:induction false} AllTestify(answers: seq<Answer>, n: nat, stuck: nat, depth: nat)
    requires n <= |answers|
    ensures |Testimonies(answers, n, stuck, depth)| <= n
    ensures |Testimonies(answers, n, stuck, depth)| == n <==> forall i :: 0 <= i < n ==> answers[i].Status?
  {
    if n > 0 {
      AllTestify(answers, n - 1, stuck, depth);
    }
  }

  /** Some endpoint could serve the stuck height right now. */
  ghost predicate Served(answers: seq<Answer>, stuck: nat, depth: nat) {
    exists a :: a in answers && a.Status? && Probes(a, stuck, depth) && a.serves
  }

  /** The tip is at least `depth` past the height, or the largest 64-bit number. */
  predicate FarEnough(latest: nat, stuck: nat, depth: nat) {
    stuck + depth <= latest || latest >= TWO_64 - 1
  }

  /** A probe happens exactly at an endpoint that retains the height and is far enough past it. */
  lemma ProbesExactly(answer: Answer, stuck: nat, depth: nat)
    requires answer.Status?
    ensures Probes(answer, stuck, depth) <==> answer.earliest <= stuck && FarEnough(answer.latest, stuck, depth)
  {
  }

  /** The tips of a pool of endpoints, as far as they are representable. */
  predicate Representable(answers: seq<Answer>) {
    forall a :: a in answers && a.Status? ==> a.latest <= MAX_HEIGHT && a.earliest <= MAX_HEIGHT
  }

  /** Some endpoint retains the height, is far enough past it, and would serve it or not. */
  ghost predicate Retained(answers: seq<Answer>, stuck: nat, depth: nat, serves: bool) {
    exists a :: a in answers && a.Status? && a.earliest <= stuck && FarEnough(a.latest, stuck, depth) && a.serves == serves
  }

  lemma {:induction false} ServedExactly(answers: seq<Answer>, stuck: nat, depth: nat)
    ensures Served(answers, stuck, depth) <==> Retained(answers, stuck, depth, true)
    ensures HolderFails(answers, stuck, depth) <==> Retained(answers, stuck, depth, false)
  {
    forall a | a in answers && a.Status?
      ensures Probes(a, stuck, depth) <==> a.earliest <= stuck && FarEnough(a.latest, stuck, depth)
    {
      ProbesExactly(a, stuck, depth);
    }
  }

  /** Every endpoint that answered has pruned the height, and at least one answered. */
  ghost predicate AllPruned(answers: seq<Answer>, stuck: nat) {
    && (exists a :: a in answers && a.Status?)
    && forall a :: a in answers && a.Status? ==> stuck < a.earliest
  }

  /** A sufficiently advanced holder failed to serve the height. */
  ghost predicate HolderFails(answers: seq<Answer>, stuck: nat, depth: nat) {
    exists a :: a in answers && a.Status? && Probes(a, stuck, depth) && !a.serves
  }

  /** Probe outcomes in the evidence are outcomes at endpoints that were probed. */
  lemma {:induction false} ProbesFrom(answers: seq<Answer>, stuck: nat, depth: nat, served: bool)
    ensures
      AnyProbeIn(AllTestimonies(answers, stuck, depth), served)
      <==> exists a :: a in answers && a.Status? && Probes(a, stuck, depth) && a.serves == served
  {
    var evidence := AllTestimonies(answers, stuck, depth);
    AnyProbeMeans(evidence, |evidence|, served);
    TestimoniesFrom(answers, |answers|, stuck, depth);
    if AnyProbeIn(evidence, served) {
      var k :| 0 <= k < |evidence| && evidence[k].probe == Some(served);
      assert evidence[k] in evidence;
    }
    if a :| a in answers && a.Status? && Probes(a, stuck, depth) && a.serves == served {
      assert Testimony(a, stuck, depth) in evidence;
    }
  }

  /** The lowest retained height in the evidence is the lowest one of the endpoints that answered. */
  lemma {:induction false} HorizonFrom(answers: seq<Answer>, stuck: nat, depth: nat)
    ensures
      var evidence := AllTestimonies(answers, stuck, depth);
      && (evidence == [] <==> forall a :: a in answers ==> a.Silent?)
      && (evidence != [] ==>
            && (forall a :: a in answers && a.Status? ==> Horizon(evidence) <= a.earliest)
            && (exists a :: a in answers && a.Status? && a.earliest == Horizon(evidence)))
  {
    var evidence := AllTestimonies(answers, stuck, depth);
    TestimoniesFrom(answers, |answers|, stuck, depth);
    forall a | a in answers && a.Status?
      ensures Testimony(a, stuck, depth) in evidence
    {
    }
    if evidence != [] {
      assert evidence[0] in evidence;
      MinEarliestIsMin(evidence, |evidence|);
      var k :| 0 <= k < |evidence| && evidence[k].earliest == Horizon(evidence);
      var e := evidence[k];
      assert e in evidence;
      var a :| a in answers && a.Status? && e == Testimony(a, stuck, depth);
      forall b | b in answers && b.Status?
        ensures Horizon(evidence) <= b.earliest
      {
        assert Testimony(b, stuck, depth) in evidence;
      }
    }
  }

  lemma {:induction false} VerdictCases(evidence: seq<HeightEvidence>, total: nat, stuck: nat)
    ensures
      var verdict := AssessEvidence(evidence, total, stuck);
      && (verdict.Pruned? <==> !AnyProbeIn(evidence, true) && evidence != [] && Horizon(evidence) > stuck)
      && (verdict.Pruned? ==> verdict == Pruned(Horizon(evidence) - 1, |evidence| == total))
      && (verdict.Unservable? <==>
            !AnyProbeIn(evidence, true) && evidence != [] && Horizon(evidence) <= stuck && AnyProbeIn(evidence, false))
  {
  }

  /** An endpoint that was probed retains the height. */
  lemma {:induction false} ProbedRetains(answers: seq<Answer>, stuck: nat, depth: nat)
    ensures AllPruned(answers, stuck) ==> !Served(answers, stuck, depth) && !HolderFails(answers, stuck, depth)
    ensures Served(answers, stuck, depth) || HolderFails(answers, stuck, depth) ==>
              exists a :: a in answers && a.Status? && a.earliest <= stuck
  {
  }

  /** The lowest horizon is above the height exactly when all that answered have pruned it. */
  lemma {:induction false} HorizonAbove(answers: seq<Answer>, stuck: nat, depth: nat)
    ensures
      var evidence := AllTestimonies(answers, stuck, depth);
      evidence != [] && Horizon(evidence) > stuck <==> AllPruned(answers, stuck)
    ensures Served(answers, stuck, depth) || HolderFails(answers, stuck, depth) ==>
              AllTestimonies(answers, stuck, depth) != [] && Horizon(AllTestimonies(answers, stuck, depth)) <= stuck
  {
    HorizonFrom(answers, stuck, depth);
    ProbedRetains(answers, stuck, depth);
  }

  lemma {:induction false} VerdictMeans(answers: seq<Answer>, stuck: nat, depth: nat)
    ensures
      var verdict := AssessEvidence(AllTestimonies(answers, stuck, depth), |answers|, stuck);
      && (verdict.Pruned? <==> AllPruned(answers, stuck))
      && (verdict.Unservable? <==> Retained(answers, stuck, depth, false) && !Retained(answers, stuck, depth, true))
      && (verdict.Pruned? ==>
            && (verdict.unanimous <==> Silent !in answers)
            && (exists a :: a in answers && a.Status? && a.earliest == verdict.newCursor + 1)
            && (forall a :: a in answers && a.Status? ==> verdict.newCursor < a.earliest))
  {
    var evidence := AllTestimonies(answers, stuck, depth);
    ServedExactly(answers, stuck, depth);
    VerdictCases(evidence, |answers|, stuck);
    ProbesFrom(answers, stuck, depth, true);
    ProbesFrom(answers, stuck, depth, false);
    HorizonAbove(answers, stuck, depth);
    ProbedRetains(answers, stuck, depth);
    if AllPruned(answers, stuck) {
      AllTestify(answers, |answers|, stuck, depth);
      HorizonFrom(answers, stuck, depth);
    }
  }

  /** Skips are sound, minimal and justified: the cursor moves exactly when no endpoint serves the
      height and either all that answered have pruned it, every endpoint having answered or the
      timeout being over, or a holder fails to serve it and the timeout is over. */
  lemma {:induction false} SkipsExactlyOnEvidence(cursor: nat, answers: seq<Answer>, depth: nat, elapsed: nat,
                                                  timeout: nat)
    requires cursor + 1 < TWO_63
    ensures
      var stuck := cursor + 1;
      var after := Recovered(cursor, answers, depth, elapsed, timeout);
      && cursor <= after
      && (cursor < after <==>
            || (AllPruned(answers, stuck) && (Silent !in answers || elapsed >= timeout))
            || (Retained(answers, stuck, depth, false) && !Retained(answers, stuck, depth, true) && elapsed >= timeout))
  {
    VerdictMeans(answers, cursor + 1, depth);
  }

  /** A pruned jump covers only heights below the retention horizon of every endpoint that
      answered and lands right before a height that one of them retains; any other skip moves
      exactly one height. */
  lemma {:induction false} SkipCoversOnlyLostHeights(cursor: nat, answers: seq<Answer>, depth: nat,
      elapsed: nat, timeout: nat)
    requires cursor + 1 < TWO_63 && cursor < Recovered(cursor, answers, depth, elapsed, timeout)
    ensures
      var after := Recovered(cursor, answers, depth, elapsed, timeout);
      && !Retained(answers, cursor + 1, depth, true)
      && (AllPruned(answers, cursor + 1) ==>
            && (forall a :: a in answers && a.Status? ==> after < a.earliest)
            && (exists a :: a in answers && a.Status? && a.earliest == after + 1))
      && (!AllPruned(answers, cursor + 1) ==>
            after == cursor + 1 && Retained(answers, cursor + 1, depth, false) && elapsed >= timeout)
  {
    VerdictMeans(answers, cursor + 1, depth);
  }

  /** Beyond the representable range nothing is skipped. */
  lemma {:induction false} NothingBeyondRange(cursor: nat, answers: seq<Answer>, depth: nat, elapsed: nat, timeout: nat)
    requires cursor + 1 >= TWO_63
    ensures Recovered(cursor, answers, depth, elapsed, timeout) == cursor
  {
  }
}
