/**
 The wait loop of `send_to_peer`: after its offer the sender looks at the shared state about five times a
 second until the transfer has moved on elsewhere, the partner has not answered in time, or an accepting
 partner has not become ready in time.  What it sees, and when, is environment.
 */
module OutboundWait {
  import opened Prelude

  /** Milliseconds; `handshake_` in the program. */
  datatype Timing = Timing(acceptTimeout: nat, readyTimeout: nat, retransmitAfter: nat)

  /** One look at the state: the clock, `waiting_for_partner`, whether the offer is still
      there, and `awaiting_ready_`. */
  datatype Look = Look(now: int, waiting: bool, hasOffer: bool, accepted: bool)

  datatype Outcome = MovedOn | NoResponse | NotReadyInTime | StillWaiting

  /** The clock never runs backwards and no pass takes longer than `d`. */
  predicate Paced(start: int, looks: seq<Look>, d: nat) {
    && (looks != [] ==> start <= looks[0].now <= start + d)
    && forall i :: 0 <= i < |looks| - 1 ==> looks[i].now <= looks[i + 1].now <= looks[i].now + d
  }

  /** The first look that sees the acceptance, or the number of looks if none does. */
  function FirstAccepted(looks: seq<Look>): (k: nat)
    ensures k <= |looks|
    ensures k < |looks| ==> looks[k].accepted
    ensures forall j :: 0 <= j < k ==> !looks[j].accepted
  {
    if looks == [] || looks[0].accepted then 0 else 1 + FirstAccepted(looks[1..])
  }

  /** Why look number `k` would end the wait. */
  function Verdict(start: int, t: Timing, looks: seq<Look>, k: nat): Outcome
    requires k < |looks|
  {
    if !looks[k].waiting || !looks[k].hasOffer then MovedOn
    else if !looks[k].accepted then
      if looks[k].now >= start + t.acceptTimeout then NoResponse else StillWaiting
    else
      var first := FirstAccepted(looks[..k + 1]);
      if looks[k].now >= looks[first].now + t.readyTimeout then NotReadyInTime else StillWaiting
  }

  predicate WaitsThrough(start: int, t: Timing, looks: seq<Look>, k: nat)
    requires k <= |looks|
  {
    forall i: nat :: i < k ==> Verdict(start, t, looks, i) == StillWaiting
  }

  lemma {:induction false} FirstAcceptedGrows(looks: seq<Look>, look: Look)
    ensures var k := FirstAccepted(looks);
      FirstAccepted(looks + [look]) == if k < |looks| || look.accepted then k else k + 1
  {
    if looks == [] {
      assert (looks + [look])[1..] == [];
    } else {
      assert (looks + [look])[1..] == looks[1..] + [look];
      FirstAcceptedGrows(looks[1..], look);
    }
  }

  /** What `outcome` says about look number `k`, in terms of what was seen: the transfer has moved on when the flag is
      down or the offer is gone; otherwise an unanswering partner has the whole accept timeout, an accepting one the
      whole ready timeout, counted from the first look that saw the acceptance. */
  ghost predicate Judged(start: int, t: Timing, looks: seq<Look>, k: nat, outcome: Outcome)
    requires k < |looks|
  {
    var look := looks[k];
    match outcome
    case MovedOn => !look.waiting || !look.hasOffer
    case NoResponse => look.waiting && look.hasOffer && !look.accepted && look.now - start >= t.acceptTimeout
    case NotReadyInTime =>
      && look.waiting && look.hasOffer && look.accepted
      && exists j: nat :: j <= k && FirstToAccept(looks, j) && look.now - looks[j].now >= t.readyTimeout
    case StillWaiting =>
      && look.waiting && look.hasOffer
      && (!look.accepted ==> look.now - start < t.acceptTimeout)
      && (look.accepted ==>
            exists j: nat :: j <= k && FirstToAccept(looks, j) && look.now - looks[j].now < t.readyTimeout)
  }

  ghost predicate FirstToAccept(looks: seq<Look>, j: nat)
    requires j < |looks|
  {
    looks[j].accepted && forall i :: 0 <= i < j ==> !looks[i].accepted
  }

  lemma VerdictIsJudged(start: int, t: Timing, looks: seq<Look>, k: nat)
    requires k < |looks|
    ensures Judged(start, t, looks, k, Verdict(start, t, looks, k))
  {
    if looks[k].accepted {
      var j := FirstAccepted(looks[..k + 1]);
      forall i | 0 <= i < j
        ensures !looks[i].accepted
      {
        assert looks[i] == looks[..k + 1][i];
      }
      assert looks[..k + 1][k].accepted;
      assert FirstToAccept(looks, j);
    }
  }

  lemma WaitsAreJudged(start: int, t: Timing, looks: seq<Look>, n: nat)
    requires n <= |looks| && WaitsThrough(start, t, looks, n)
    ensures forall k: nat :: k < n ==> Judged(start, t, looks, k, StillWaiting)
  {
    forall k: nat | k < n ensures Judged(start, t, looks, k, StillWaiting) {
      VerdictIsJudged(start, t, looks, k);
    }
  }

  /** The loop itself; `resentAt` is the look whose pass retransmitted the offer. */
  method WaitForPartner(start: int, t: Timing, looks: seq<Look>)
      returns (outcome: Outcome, passes: nat, resentAt: Option<nat>)
    ensures passes <= |looks|
    ensures outcome == StillWaiting ==> passes == |looks| && WaitsThrough(start, t, looks, passes)
    ensures outcome != StillWaiting ==>
      passes > 0 && WaitsThrough(start, t, looks, passes - 1) && outcome == Verdict(start, t, looks, passes - 1)
    ensures outcome != StillWaiting ==> Judged(start, t, looks, passes - 1, outcome)
    ensures forall k: nat :: k < passes - (if outcome == StillWaiting then 0 else 1) ==>
      Judged(start, t, looks, k, StillWaiting)
    ensures outcome == MovedOn <==> passes > 0 && (!looks[passes - 1].waiting || !looks[passes - 1].hasOffer)
    ensures resentAt.Some? ==>
      var k := resentAt.value;
      && k < passes && !looks[k].accepted && looks[k].now >= start + t.retransmitAfter
      && looks[k].waiting && looks[k].hasOffer
    ensures forall k :: 0 <= k < passes && looks[k].waiting && looks[k].hasOffer
                        && !looks[k].accepted && looks[k].now >= start + t.retransmitAfter ==>
      resentAt.Some? && resentAt.value <= k
  {
    passes := 0;
    resentAt := None;
    var acceptedSeen := false;
    var readyDeadline := 0;
    while passes < |looks|
      invariant passes <= |looks|
      invariant WaitsThrough(start, t, looks, passes)
      invariant passes > 0 ==> looks[passes - 1].waiting && looks[passes - 1].hasOffer
      invariant acceptedSeen <==> FirstAccepted(looks[..passes]) < passes
      invariant acceptedSeen ==> readyDeadline == looks[FirstAccepted(looks[..passes])].now + t.readyTimeout
      invariant resentAt.Some? ==>
        var k := resentAt.value;
        && k < passes && !looks[k].accepted && looks[k].now >= start + t.retransmitAfter
        && looks[k].waiting && looks[k].hasOffer
      invariant forall k :: 0 <= k < passes && !looks[k].accepted && looks[k].now >= start + t.retransmitAfter ==>
        resentAt.Some? && resentAt.value <= k
      decreases |looks| - passes
    {
      var look := looks[passes];
      assert looks[..passes + 1] == looks[..passes] + [look];
      FirstAcceptedGrows(looks[..passes], look);
      VerdictIsJudged(start, t, looks, passes);
      WaitsAreJudged(start, t, looks, passes);
      hide Judged;
      passes := passes + 1;
      if !look.waiting || !look.hasOffer {
        return MovedOn, passes, resentAt;
      }
      if !look.accepted && resentAt.None? && look.now >= start + t.retransmitAfter {
        resentAt := Some(passes - 1);
      }
      if !look.accepted {
        if look.now >= start + t.acceptTimeout {
          return NoResponse, passes, resentAt;
        }
      } else {
        if !acceptedSeen {
          acceptedSeen := true;
          readyDeadline := look.now + t.readyTimeout;
        }
        if look.now >= readyDeadline {
          return NotReadyInTime, passes, resentAt;
        }
      }
    }
    WaitsAreJudged(start, t, looks, passes);
    outcome := StillWaiting;
  }

  /** A partner that is waited for past the accept deadline must have accepted before it, give or take a pass. */
  lemma {:induction false} AcceptedInTime(start: int, t: Timing, looks: seq<Look>, d: nat, k: nat)
    requires Paced(start, looks, d) && k < |looks| && WaitsThrough(start, t, looks, k + 1)
    requires looks[k].now >= start + t.acceptTimeout
    ensures FirstAccepted(looks[..k + 1]) <= k
    ensures looks[FirstAccepted(looks[..k + 1])].now <= start + t.acceptTimeout + d
  {
    assert Verdict(start, t, looks, k) == StillWaiting;
    var first := FirstAccepted(looks[..k + 1]);
    if first > 0 {
      assert Verdict(start, t, looks, first - 1) == StillWaiting;
      assert !looks[..k + 1][first - 1].accepted;
    }
  }

  /** A look that lets the sender wait on is earlier than accept timeout + ready timeout + d. */
  lemma StillWaitingIsEarly(start: int, t: Timing, looks: seq<Look>, d: nat, k: nat)
    requires Paced(start, looks, d) && k < |looks| && WaitsThrough(start, t, looks, k + 1)
    ensures looks[k].now < start + t.acceptTimeout + t.readyTimeout + d || looks[k].now < start + t.acceptTimeout
  {
    if looks[k].now >= start + t.acceptTimeout {
      AcceptedInTime(start, t, looks, d, k);
      assert Verdict(start, t, looks, k) == StillWaiting;
    }
  }

  /** Every outbound wait ends: whatever the sender sees and whenever, the look that takes it out of the
      loop comes within accept timeout + ready timeout + 2d. */
  lemma EveryWaitEnds(start: int, t: Timing, looks: seq<Look>, d: nat, k: nat)
    requires Paced(start, looks, d) && k < |looks| && WaitsThrough(start, t, looks, k)
    ensures looks[k].now <= start + t.acceptTimeout + t.readyTimeout + 2 * d
  {
    if k > 0 {
      StillWaitingIsEarly(start, t, looks, d, k - 1);
    }
  }

  /** So looks that reach beyond that time cannot all have let the sender wait on. */
  lemma LongEnoughMeansOver(start: int, t: Timing, looks: seq<Look>, d: nat)
    requires Paced(start, looks, d) && looks != []
    requires looks[|looks| - 1].now > start + t.acceptTimeout + t.readyTimeout + 2 * d
    ensures exists k: nat :: k < |looks| && Verdict(start, t, looks, k) != StillWaiting
  {
    if forall k: nat :: k < |looks| ==> Verdict(start, t, looks, k) == StillWaiting {
      EveryWaitEnds(start, t, looks, d, |looks| - 1);
    }
  }
}
