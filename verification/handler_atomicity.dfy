/**
 Handlers, user calls and the sender's wait take the state lock more than once.  Between two critical sections another
 thread may move.  For each such gap this module says exactly which moves make the whole differ from one atomic
 step: the result is then that of neither order.
 */
module HandlerAtomicity {
  import opened Prelude
  import opened Station
  import opened StationRules

  /** Moves of other threads: the listener runs one handler at a time. */
  predicate Elsewhere(e: Event) {
    !e.Hear?
  }

  // ----- handle_offer: duplicate checks, busy check, the offer is kept, an open station accepts it -----

  /** The offer passes the duplicate checks. */
  predicate Fresh(f: Fields, offer: Offer, named: bool) {
    && named
    && f.accepting != Some(offer.sid) && f.lastCompleted != Some(offer.sid)
    && !(f.pending.Some? && f.pending.value.sid == offer.sid)
  }

  /** It passes the busy check as well. */
  predicate Goes(f: Fields, offer: Offer, named: bool) {
    Fresh(f, offer, named) && !f.IsBusy()
  }

  /** What follows the checks. */
  function Settle(f: Fields, offer: Offer, open: bool): Fields {
    var kept := f.(pending := Some(offer));
    if open then AcceptPending(kept) else kept
  }

  /** Another thread's move between the duplicate checks and the busy check. */
  function OfferAroundBusyCheck(f: Fields, offer: Offer, named: bool, open: bool, e: Event, drawn: Sid): Fields
    requires Enabled(f, e)
  {
    var moved := Move(f, e, drawn);
    if Fresh(f, offer, named) && !moved.IsBusy() then Settle(moved, offer, open) else moved
  }

  /** Another thread's move between the checks and the rest. */
  function OfferAround(f: Fields, offer: Offer, named: bool, open: bool, e: Event, drawn: Sid): Fields
    requires Enabled(f, e)
  {
    var moved := Move(f, e, drawn);
    if Goes(f, offer, named) then Settle(moved, offer, open) else moved
  }

  /** Another thread's move between keeping the offer and accepting it, on an open station. */
  function OfferAroundAccept(f: Fields, offer: Offer, e: Event, drawn: Sid): Fields
    requires Enabled(f.(pending := Some(offer)), e)
  {
    AcceptPending(Move(f.(pending := Some(offer)), e, drawn))
  }

  /** The result of the move before the handler, or of the handler before the move. */
  predicate OfferOrder(f: Fields, offer: Offer, named: bool, open: bool, e: Event, drawn: Sid, result: Fields)
  {
    var after := HandleOffer(f, offer, named, open);
    || (Enabled(f, e) && result == HandleOffer(Move(f, e, drawn), offer, named, open))
    || (Enabled(after, e) && result == Move(after, e, drawn))
  }

  predicate OfferInSomeOrder(f: Fields, offer: Offer, named: bool, open: bool, e: Event, drawn: Sid)
    requires Enabled(f, e)
  {
    OfferOrder(f, offer, named, open, e, drawn, OfferAround(f, offer, named, open, e, drawn))
  }

  /** The user accepts the offer that was pending when a new one passed its checks. */
  predicate AcceptSlipsIn(f: Fields, e: Event) {
    e.PressAccept? && f.pending.Some? && f.lastCompleted != Some(f.pending.value.sid)
  }

  /** The user starts a send while an open station is about to accept. */
  predicate SendSlipsIn(e: Event, open: bool) {
    e.StartSend? && open
  }

  lemma QuietQueue(queued: seq<Job>)
    requires NoAcceptJob(queued) && queued != []
    ensures queued[0].DeclineJob?
  {
  }

  /** The first gap is harmless: whatever moves between the duplicate checks and the busy check, the result is that of
      some order, and the station's invariant holds. */
  lemma OfferIsAtomicAtBusyCheck(f: Fields, offer: Offer, named: bool, open: bool, e: Event, drawn: Sid)
    requires StationInv(f) && f.Listening() && Enabled(f, e) && Elsewhere(e)
    ensures OfferOrder(f, offer, named, open, e, drawn, OfferAroundBusyCheck(f, offer, named, open, e, drawn))
    ensures StationInv(OfferAroundBusyCheck(f, offer, named, open, e, drawn))
  {
    var moved := Move(f, e, drawn);
    MoveKeeps(f, e, drawn);
    if Fresh(f, offer, named) {
      if !moved.IsBusy() {
        StaysFresh(f, offer, e, drawn);
        Going(moved, offer, open);
        AcceptPendingKeeps(moved.(pending := Some(offer)));
      }
    } else {
      NotGoing(f, offer, named, open);
    }
  }

  /** No move elsewhere turns a fresh offer into a duplicate. */
  lemma StaysFresh(f: Fields, offer: Offer, e: Event, drawn: Sid)
    requires StationInv(f) && f.Listening() && Enabled(f, e) && Elsewhere(e) && Fresh(f, offer, true)
    ensures Fresh(Move(f, e, drawn), offer, true)
  {
  }

  /** In the second gap the offer is atomic, in every state and for every move elsewhere, unless it passed its checks
      and the user accepts another pending offer there or, on an open station, starts a send. */
  lemma OfferIsAtomicIff(f: Fields, offer: Offer, named: bool, open: bool, e: Event, drawn: Sid)
    requires StationInv(f) && f.Listening() && Enabled(f, e) && Elsewhere(e)
    ensures OfferInSomeOrder(f, offer, named, open, e, drawn)
       <==> !(Goes(f, offer, named) && (AcceptSlipsIn(f, e) || SendSlipsIn(e, open)))
  {
    if Goes(f, offer, named) {
      if e.PressAccept? {
        AcceptBetween(f, offer, open);
      } else if e.StartSend? {
        SendBetween(f, offer, open, e.data, drawn);
      } else {
        OtherBetween(f, offer, open, e, drawn);
      }
    } else {
      NotGoing(f, offer, named, open);
    }
  }

  lemma NotGoing(f: Fields, offer: Offer, named: bool, open: bool)
    requires !Goes(f, offer, named)
    ensures HandleOffer(f, offer, named, open) == f
  {
  }

  lemma Going(f: Fields, offer: Offer, open: bool)
    requires Goes(f, offer, true)
    ensures HandleOffer(f, offer, true, open) == Settle(f, offer, open)
  {
  }

  lemma AcceptBetween(f: Fields, offer: Offer, open: bool)
    requires StationInv(f) && Goes(f, offer, true)
    ensures OfferInSomeOrder(f, offer, true, open, PressAccept, 0) <==> !AcceptSlipsIn(f, PressAccept)
    ensures forall drawn: Sid :: OfferInSomeOrder(f, offer, true, open, PressAccept, drawn)
                             <==> OfferInSomeOrder(f, offer, true, open, PressAccept, 0)
  {
    if AcceptSlipsIn(f, PressAccept) {
      var queued := f.queued + [AcceptJob(f.pending.value)];
      assert |queued| == |f.queued| + 1;
      assert |queued + [AcceptJob(offer)]| == |f.queued| + 2;
      assert |f.queued + [AcceptJob(offer)]| == |f.queued| + 1;
    }
  }

  lemma SendBetween(f: Fields, offer: Offer, open: bool, data: seq<byte>, drawn: Sid)
    requires StationInv(f) && Goes(f, offer, true) && Enabled(f, StartSend(data))
    ensures OfferInSomeOrder(f, offer, true, open, StartSend(data), drawn) <==> !open
  {
    Going(f, offer, open);
  }

  lemma OtherBetween(f: Fields, offer: Offer, open: bool, e: Event, drawn: Sid)
    requires StationInv(f) && f.Listening() && Goes(f, offer, true) && Enabled(f, e)
    requires Elsewhere(e) && !e.PressAccept? && !e.StartSend?
    ensures OfferInSomeOrder(f, offer, true, open, e, drawn)
  {
    if e.StartQueued? {
      QuietQueue(f.queued);
    }
    Going(Move(f, e, drawn), offer, open);
  }

  /** The slip of an accept is the one that breaks the station's invariant: two inbound sessions at once. */
  lemma OfferKeepsInvIff(f: Fields, offer: Offer, named: bool, open: bool, e: Event, drawn: Sid)
    requires StationInv(f) && f.Listening() && Enabled(f, e) && Elsewhere(e)
    ensures StationInv(OfferAround(f, offer, named, open, e, drawn))
       <==> !(Goes(f, offer, named) && AcceptSlipsIn(f, e))
  {
    MoveKeeps(f, e, drawn);
    var moved := Move(f, e, drawn);
    if Goes(f, offer, named) {
      if AcceptSlipsIn(f, e) {
        TwoInbound(f, offer, open);
      } else {
        SettleKeeps(f, moved, offer, open, e, drawn);
      }
    }
  }

  lemma TwoInbound(f: Fields, offer: Offer, open: bool)
    requires StationInv(f) && Goes(f, offer, true) && AcceptSlipsIn(f, PressAccept)
    ensures !StationInv(Settle(AcceptPending(f), offer, open))
  {
    var r := Settle(AcceptPending(f), offer, open);
    if open {
      var n := |f.queued|;
      assert r.queued == f.queued + [AcceptJob(f.pending.value)] + [AcceptJob(offer)];
      assert r.queued[n].AcceptJob? && r.queued[n + 1].AcceptJob?;
    }
  }

  lemma SettleKeeps(f: Fields, moved: Fields, offer: Offer, open: bool, e: Event, drawn: Sid)
    requires StationInv(f) && f.Listening() && Enabled(f, e) && Elsewhere(e) && moved == Move(f, e, drawn)
    requires StationInv(moved) && Goes(f, offer, true) && !AcceptSlipsIn(f, e)
    ensures StationInv(Settle(moved, offer, open))
  {
    NotAccepting(f, e, drawn);
    assert StationInv(moved.(pending := Some(offer)));
    AcceptPendingKeeps(moved.(pending := Some(offer)));
  }

  lemma NotAccepting(f: Fields, e: Event, drawn: Sid)
    requires StationInv(f) && f.Listening() && Enabled(f, e) && Elsewhere(e) && !f.IsBusy() && !AcceptSlipsIn(f, e)
    ensures Move(f, e, drawn).accepting == None
  {
    if e.StartQueued? {
      QuietQueue(f.queued);
    }
  }

  /** In the third gap, on an open station, the offer is atomic unless the user declines it there, which an open
      station otherwise never does, or starts a send.  The invariant holds in either case. */
  lemma OfferIsAtomicAtAcceptIff(f: Fields, offer: Offer, e: Event, drawn: Sid)
    requires StationInv(f) && f.Listening() && Goes(f, offer, true)
    requires Enabled(f.(pending := Some(offer)), e) && Elsewhere(e)
    ensures OfferOrder(f, offer, true, true, e, drawn, OfferAroundAccept(f, offer, e, drawn))
       <==> !e.PressDecline? && !e.StartSend?
    ensures StationInv(OfferAroundAccept(f, offer, e, drawn))
  {
    if e.StartQueued? {
      QuietQueue(f.queued);
    }
    MoveKeeps(f.(pending := Some(offer)), e, drawn);
    AcceptPendingKeeps(Move(f.(pending := Some(offer)), e, drawn));
  }

  /** The slips do happen: an offer heard by a fresh station that asks first leaves a second one exposed to an accept,
      and a fresh open station exposes an offer to a decline and to a send. */
  lemma OfferSlipsAreReachable(a: Offer, b: Offer, data: seq<byte>)
    requires a.sid != b.sid
    ensures var f := Move(InitialFields(), Hear(OfferFrame(a), true, false), 0);
      && Evolves(InitialFields(), [(Hear(OfferFrame(a), true, false), 0)], f)
      && f.Listening() && Enabled(f, PressAccept) && Goes(f, b, true) && AcceptSlipsIn(f, PressAccept)
    ensures var f := InitialFields();
      && Evolves(f, [], f) && f.Listening() && Goes(f, b, true)
      && Enabled(f.(pending := Some(b)), PressDecline) && Enabled(f, StartSend(data))
  {
    var heard := (Hear(OfferFrame(a), true, false), 0);
    var f := Move(InitialFields(), heard.0, heard.1);
    assert [heard][1..] == [] && Evolves(f, [], f);
  }

  // ----- handle_decline: the offer is cleared, then the transfer finished -----

  /** A handled decline is atomic whatever moves between its two critical sections. */
  lemma DeclineIsAtomic(f: Fields, sid: Sid, e: Event, drawn: Sid)
    requires StationInv(f) && f.Listening() && f.OutboundIs(sid)
    requires Elsewhere(e) && Enabled(ClearOutbound(f), e)
    ensures Enabled(HandleDecline(f, sid), e)
    ensures Finish(Move(ClearOutbound(f), e, drawn), false) == Move(HandleDecline(f, sid), e, drawn)
  {
  }

  // ----- handle_ready: acceptance is noted, then the staged payload is taken and sent -----

  function ReadyAround(f: Fields, sid: Sid, e: Event, drawn: Sid): Fields
    requires Enabled(f.(awaitingReady := true), e)
  {
    var moved := Move(f.(awaitingReady := true), e, drawn);
    moved.(waiting := false, thread := SendingPayload(moved.staged, sid))
  }

  predicate ReadyOrder(f: Fields, sid: Sid, e: Event, drawn: Sid, result: Fields)
  {
    || (Enabled(f, e) && result == HandleReady(Move(f, e, drawn), sid))
    || (Enabled(HandleReady(f, sid), e) && result == Move(HandleReady(f, sid), e, drawn))
  }

  /** A handled ready is atomic unless the sender's wait times out between its critical sections, which takes the
      staged payload away from it. */
  lemma ReadyIsAtomicIff(f: Fields, sid: Sid, e: Event, drawn: Sid)
    requires StationInv(f) && f.Listening() && f.OutboundIs(sid)
    requires Elsewhere(e) && Enabled(f.(awaitingReady := true), e)
    ensures ReadyOrder(f, sid, e, drawn, ReadyAround(f, sid, e, drawn)) <==> e != TimeoutWait
    ensures e == TimeoutWait ==> ReadyAround(f, sid, e, drawn).thread == SendingPayload([], sid)
  {
  }

  /** Between taking the payload and its thread's start the handler waits for the wait loop to leave. */
  function ReadyAroundJoin(f: Fields, sid: Sid, e: Event, drawn: Sid): Fields
    requires Enabled(f.(awaitingReady := true, waiting := false), e)
  {
    Move(f.(awaitingReady := true, waiting := false), e, drawn).(thread := SendingPayload(f.staged, sid))
  }

  /** There it is atomic for every move; the wait loop's own leaving is part of it. */
  lemma ReadyIsAtomicAtJoin(f: Fields, sid: Sid, e: Event, drawn: Sid)
    requires StationInv(f) && f.Listening() && f.OutboundIs(sid)
    requires Elsewhere(e) && Enabled(f.(awaitingReady := true, waiting := false), e)
    ensures e == LeaveWait ==> ReadyAroundJoin(f, sid, e, drawn) == HandleReady(f, sid)
    ensures e != LeaveWait ==> ReadyOrder(f, sid, e, drawn, ReadyAroundJoin(f, sid, e, drawn))
  {
  }

  /** A sender may be timing out when a ready arrives: one that has sent its offer and waits. */
  lemma TimeoutSlipIsReachable(data: seq<byte>)
    ensures var moves := [(StartSend(data), 0)] + [(SendOffer(true), 0)] + [(Arm, 0)];
      exists f :: Evolves(InitialFields(), moves, f) && f.Listening() && f.OutboundIs(0) && Enabled(f, TimeoutWait)
  {
    var start: (Event, Sid), offered: (Event, Sid), armed: (Event, Sid)
      := (StartSend(data), 0), (SendOffer(true), 0), (Arm, 0);
    var f1 := Move(InitialFields(), StartSend(data), 0);
    var f2 := Move(f1, SendOffer(true), 0);
    var f3 := Move(f2, Arm, 0);
    assert Evolves(f3, [], f3);
    assert [armed][1..] == [] && Evolves(f2, [armed], f3);
    assert ([offered] + [armed])[1..] == [armed] && Evolves(f1, [offered] + [armed], f3);
    assert ([start] + [offered] + [armed])[1..] == [offered] + [armed];
    assert Evolves(InitialFields(), [start] + [offered] + [armed], f3);
  }

  // ----- The wait loop's timeout: a look at the state, the offer is cleared, the transfer finished -----

  /** Moves of threads other than the one that waits. */
  predicate BesideTheWait(e: Event) {
    e.Hear? || e.PressAccept? || e.PressDecline? || e.StartSend? || e.SendAnnounce?
  }

  /** The payload thread that a ready starts has to wait for the one that times out. */
  function TimedOut(f: Fields): Fields {
    Finish(f, false).(thread := if f.thread.WaitingPartner? then Idle else f.thread)
  }

  predicate TimeoutOrder(f: Fields, e: Event, drawn: Sid, result: Fields)
    requires Enabled(f, TimeoutWait)
  {
    var after := Move(f, TimeoutWait, drawn);
    || (Enabled(after, e) && result == Move(after, e, drawn))
    || (Enabled(f, e) && Enabled(Move(f, e, drawn), TimeoutWait)
        && result == Move(Move(f, e, drawn), TimeoutWait, drawn))
  }

  /** Between the look that finds the time up and the clearing of the offer, a timeout is atomic unless the partner's
      ready is handled: its payload is then sent by a station that has given the transfer up. */
  lemma TimeoutIsAtomicIff(f: Fields, e: Event, drawn: Sid)
    requires StationInv(f) && Enabled(f, TimeoutWait) && Enabled(f, e) && BesideTheWait(e)
    ensures TimeoutOrder(f, e, drawn, TimedOut(Move(f, e, drawn)))
       <==> !(e.Hear? && e.frame.ReadyFrame? && f.OutboundIs(e.frame.sid))
  {
    if e.Hear? && e.frame.ReadyFrame? && !f.OutboundIs(e.frame.sid) {
      StrangersAreIgnored(f, e.frame.sid);
    }
  }

  /** Between clearing the offer and finishing it is atomic for every move. */
  lemma TimeoutIsAtomicOnceCleared(f: Fields, e: Event, drawn: Sid)
    requires StationInv(f) && Enabled(f, TimeoutWait) && Enabled(ClearOutbound(f), e) && BesideTheWait(e)
    ensures TimeoutOrder(f, e, drawn, TimedOut(Move(ClearOutbound(f), e, drawn)))
  {
    if e.Hear? && (e.frame.AcceptFrame? || e.frame.DeclineFrame? || e.frame.ReadyFrame?) {
      StrangersAreIgnored(ClearOutbound(f), e.frame.sid);
      StrangersAreIgnored(Move(f, TimeoutWait, drawn), e.frame.sid);
    }
  }

  // ----- send_to_peer: the busy check, then the station is made busy -----

  /** Frames that arrive meanwhile. */
  function SendAround(f: Fields, data: seq<byte>, e: Event, drawn: Sid): Fields
    requires Enabled(f, e)
  {
    Move(f, e, drawn).(busy := true, waiting := true, thread := SendingOffer(Offer(drawn, |data|), data))
  }

  predicate SendOrder(f: Fields, data: seq<byte>, e: Event, drawn: Sid, result: Fields)
    requires Enabled(f, StartSend(data)) && Enabled(f, e)
  {
    var after := Move(f, StartSend(data), drawn);
    || (Enabled(Move(f, e, drawn), StartSend(data)) && result == Move(Move(f, e, drawn), StartSend(data), drawn))
    || (e.Hear? && result == Handle(after, e.frame, e.named, e.open))
  }

  /** A send is atomic unless an open station takes an offer between its busy check and its becoming busy. */
  lemma SendIsAtomicIff(f: Fields, data: seq<byte>, e: Event, drawn: Sid)
    requires StationInv(f) && Enabled(f, StartSend(data)) && Enabled(f, e) && (e.Hear? || e.SendAnnounce?)
    ensures SendOrder(f, data, e, drawn, SendAround(f, data, e, drawn))
       <==> !(e.Hear? && e.frame.OfferFrame? && e.open && Goes(f, e.frame.offer, e.named))
  {
    if e.Hear? && (e.frame.AcceptFrame? || e.frame.DeclineFrame? || e.frame.ReadyFrame?) {
      StrangersAreIgnored(f, e.frame.sid);
    }
  }

  // ----- What handlers have in common -----

  /** A ready alone does what an accept and a ready do, so a lost accept changes nothing. */
  lemma ReadyImpliesAccept(f: Fields, sid: Sid)
    ensures HandleReady(HandleAccept(f, sid), sid) == HandleReady(f, sid)
  {
  }

  /** Repeated frames of one session change nothing: an offer that was handled, whatever became of it. */
  lemma RepeatedOfferIsIgnored(f: Fields, offer: Offer, named: bool, open: bool, again: bool)
    requires StationInv(f)
    ensures var once := HandleOffer(f, offer, named, open); HandleOffer(once, offer, named, open) == once
    ensures Goes(f, offer, named) ==>
      var once := HandleOffer(f, offer, named, open); HandleOffer(once, offer, named, again) == once
  {
  }

  /** Frames about other sessions than the outstanding one change nothing. */
  lemma StrangersAreIgnored(f: Fields, sid: Sid)
    requires !f.OutboundIs(sid)
    ensures HandleAccept(f, sid) == HandleDecline(f, sid) == HandleReady(f, sid) == f
  {
  }
}
