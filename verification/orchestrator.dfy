/**
 `TransferOrchestrator` itself: the object whose handlers and payload-thread bodies update its fields in place.
 The `modifies` clauses say which fields a handler may touch, the contracts when each may change; together they make
 the handlers the moves of the station model.
 */
module Orchestrator {
  import opened Prelude
  import opened Station
  import opened StationRules
  import opened HandlerAtomicity

  class TransferOrchestrator {
    var busy: bool
    var waitingForPartner: bool
    var outboundOffer: Option<Offer>
    var stagedPayload: seq<byte>
    var awaitingReady: bool
    var pendingOffer: Option<Offer>
    var acceptingInbound: Option<Sid>
    var lastCompletedInbound: Option<Sid>
    var payloadThread: Thread
    var joinQueue: seq<Job>

    ghost function State(): Fields
      reads this
    {
      Fields(busy, waitingForPartner, outboundOffer, stagedPayload, awaitingReady, pendingOffer,
             acceptingInbound, lastCompletedInbound, payloadThread, joinQueue)
    }

    constructor ()
      ensures State() == InitialFields() && StationInv(State())
    {
      busy, waitingForPartner, awaitingReady := false, false, false;
      outboundOffer, pendingOffer, acceptingInbound, lastCompletedInbound := None, None, None, None;
      stagedPayload := [];
      payloadThread := Idle;
      joinQueue := [];
    }

    method ClearOutboundSession()
      modifies this`outboundOffer, this`stagedPayload, this`awaitingReady
      ensures State() == ClearOutbound(old(State()))
    {
      outboundOffer := None;
      stagedPayload := [];
      awaitingReady := false;
    }

    /** Only a received inbound session becomes the last completed one. */
    method FinishTransfer(received: bool)
      modifies this`outboundOffer, this`stagedPayload, this`awaitingReady, this`busy, this`waitingForPartner
      modifies this`lastCompletedInbound
      ensures State() == Finish(old(State()), received)
      ensures !busy && !waitingForPartner && outboundOffer.None?
      ensures lastCompletedInbound ==
        if received && acceptingInbound.Some? then acceptingInbound else old(lastCompletedInbound)
    {
      ClearOutboundSession();
      busy := false;
      waitingForPartner := false;
      if received && acceptingInbound.Some? {
        lastCompletedInbound := acceptingInbound;
      }
    }

    method SendToPeer(data: seq<byte>, sid: Sid) returns (started: bool)
      requires StationInv(State()) && payloadThread.Idle? && joinQueue == []
      modifies this`busy, this`waitingForPartner, this`payloadThread
      ensures StationInv(State())
      ensures started <==> Enabled(old(State()), StartSend(data))
      ensures started <==> !old(busy) && acceptingInbound.None?
      ensures started ==> busy && waitingForPartner && payloadThread == SendingOffer(Offer(sid, |data|), data)
      ensures State() == if started then Move(old(State()), StartSend(data), sid) else old(State())
    {
      if busy || acceptingInbound.Some? {
        return false;
      }
      MoveKeeps(State(), StartSend(data), sid);
      busy := true;
      waitingForPartner := true;
      payloadThread := SendingOffer(Offer(sid, |data|), data);
      return true;
    }

    /** Also called from inside `handle_offer`, between two of its critical sections. */
    method AcceptPendingOffer()
      modifies this`pendingOffer, this`acceptingInbound, this`joinQueue
      ensures State() == AcceptPending(old(State()))
      ensures StationInv(old(State())) ==> StationInv(State())
      ensures
        if old(pendingOffer).Some?
           && Some(old(pendingOffer).value.sid) !in {old(acceptingInbound), lastCompletedInbound}
        then
          && acceptingInbound == Some(old(pendingOffer).value.sid) && pendingOffer.None?
          && joinQueue == old(joinQueue) + [AcceptJob(old(pendingOffer).value)]
        else acceptingInbound == old(acceptingInbound) && joinQueue == old(joinQueue)
    {
      if StationInv(State()) {
        AcceptPendingKeeps(State());
      }
      if pendingOffer.None? {
        return;
      }
      var offer := pendingOffer.value;
      if acceptingInbound == Some(offer.sid) {
        return;
      }
      pendingOffer := None;
      if lastCompletedInbound == Some(offer.sid) {
        return;
      }
      acceptingInbound := Some(offer.sid);
      joinQueue := joinQueue + [AcceptJob(offer)];
    }

    method DeclinePendingOffer()
      requires StationInv(State())
      modifies this`pendingOffer, this`joinQueue
      ensures StationInv(State()) && State() == DeclinePending(old(State()))
      ensures pendingOffer.None?
      ensures joinQueue
           == old(joinQueue) + if old(pendingOffer).Some? then [DeclineJob(old(pendingOffer).value)] else []
    {
      MoveKeeps(State(), PressDecline, 0);
      if pendingOffer.Some? {
        joinQueue := joinQueue + [DeclineJob(pendingOffer.value)];
        pendingOffer := None;
      }
    }

    /** `on_session_message`: dispatch to the handler of the frame's kind. */
    method OnSessionMessage(frame: Frame, named: bool, open: bool)
      requires StationInv(State()) && State().Listening()
      modifies this
      ensures StationInv(State()) && State() == Move(old(State()), Hear(frame, named, open), 0)
    {
      MoveKeeps(State(), Hear(frame, named, open), 0);
      match frame
      case OfferFrame(offer) => HandleOfferMessage(offer, named, open);
      case AcceptFrame(sid) => HandleAcceptMessage(sid);
      case DeclineFrame(sid) => HandleDeclineMessage(sid);
      case ReadyFrame(sid) => HandleReadyMessage(sid);
      case AnnounceFrame =>
      case PayloadFrame(_, _) =>
    }

    /** The first critical sections of `handle_offer`. */
    method OfferPasses(offer: Offer, named: bool) returns (goes: bool)
      ensures goes <==> Goes(State(), offer, named)
    {
      if !named {
        return false;
      }
      if acceptingInbound == Some(offer.sid) || lastCompletedInbound == Some(offer.sid) {
        return false;
      }
      if pendingOffer.Some? && pendingOffer.value.sid == offer.sid {
        return false;
      }
      goes := !(busy || acceptingInbound.Some?);
    }

    /** The last ones. */
    method SettleOffer(offer: Offer, open: bool)
      modifies this`pendingOffer, this`acceptingInbound, this`joinQueue
      ensures State() == Settle(old(State()), offer, open)
    {
      pendingOffer := Some(offer);
      if open {
        AcceptPendingOffer();
      }
    }

    /** Nothing but the pending offer, the session being accepted and the queue of the payload thread may change:
        an open station takes the offer at once, otherwise it replaces the pending one. */
    method HandleOfferMessage(offer: Offer, named: bool, open: bool)
      modifies this`pendingOffer, this`acceptingInbound, this`joinQueue
      ensures State() == HandleOffer(old(State()), offer, named, open)
      ensures pendingOffer == old(pendingOffer) || pendingOffer == if open then None else Some(offer)
      ensures pendingOffer == Some(offer) && old(pendingOffer) != Some(offer) ==> !open
      ensures acceptingInbound != old(acceptingInbound) ==> open && old(acceptingInbound).None?
      ensures named && !busy && old(acceptingInbound).None? && lastCompletedInbound != Some(offer.sid)
              && !(old(pendingOffer).Some? && old(pendingOffer).value.sid == offer.sid) ==>
        if open then acceptingInbound == Some(offer.sid) && joinQueue == old(joinQueue) + [AcceptJob(offer)]
        else pendingOffer == Some(offer)
      ensures !named || busy || old(acceptingInbound).Some? || lastCompletedInbound == Some(offer.sid)
              || (old(pendingOffer).Some? && old(pendingOffer).value.sid == offer.sid) ==>
        State() == old(State())
      ensures acceptingInbound == old(acceptingInbound) ==> joinQueue == old(joinQueue)
    {
      var goes := OfferPasses(offer, named);
      if goes {
        SettleOffer(offer, open);
      }
    }

    method HandleAcceptMessage(sid: Sid)
      modifies this`waitingForPartner, this`awaitingReady
      ensures State() == HandleAccept(old(State()), sid)
      ensures awaitingReady <==> old(awaitingReady) || (outboundOffer.Some? && outboundOffer.value.sid == sid)
      ensures waitingForPartner <==> old(waitingForPartner) || (outboundOffer.Some? && outboundOffer.value.sid == sid)
    {
      if outboundOffer.None? || outboundOffer.value.sid != sid {
        return;
      }
      waitingForPartner := true;
      awaitingReady := true;
    }

    /** Only the outstanding offer can be declined; then nothing of it is left and the station is free. */
    method HandleDeclineMessage(sid: Sid)
      modifies this`outboundOffer, this`stagedPayload, this`awaitingReady, this`busy, this`waitingForPartner
      modifies this`lastCompletedInbound
      ensures State() == HandleDecline(old(State()), sid)
      ensures lastCompletedInbound == old(lastCompletedInbound)
      ensures if old(outboundOffer).Some? && old(outboundOffer).value.sid == sid
        then outboundOffer.None? && stagedPayload == [] && !awaitingReady && !busy && !waitingForPartner
        else State() == old(State())
    {
      if outboundOffer.None? || outboundOffer.value.sid != sid {
        return;
      }
      ClearOutboundSession();
      FinishTransfer(false);
    }

    /** The payload thread changes hands only for the outstanding offer, and then to what is staged. */
    method HandleReadyMessage(sid: Sid)
      modifies this`awaitingReady, this`waitingForPartner, this`payloadThread
      ensures State() == HandleReady(old(State()), sid)
      ensures if outboundOffer.Some? && outboundOffer.value.sid == sid
        then awaitingReady && !waitingForPartner && payloadThread == SendingPayload(stagedPayload, sid)
        else State() == old(State())
    {
      if outboundOffer.None? || outboundOffer.value.sid != sid {
        return;
      }
      if !awaitingReady {
        awaitingReady := true;
      }
      StartOutboundPayload(sid);
    }

    method StartOutboundPayload(sid: Sid)
      modifies this`waitingForPartner, this`payloadThread
      ensures !waitingForPartner && payloadThread == SendingPayload(stagedPayload, sid)
    {
      waitingForPartner := false;
      payloadThread := SendingPayload(stagedPayload, sid);
    }

    /** The end of `run_inbound_payload` once a payload frame has been read, and the reset that follows it. */
    method RunInboundPayload(offer: Offer, data: seq<byte>, origin: Sid, good: bool) returns (kept: bool)
      requires StationInv(State()) && payloadThread == Receiving(offer)
      modifies this
      ensures kept <==> good && (offer.total == 0 || |data| == offer.total)
      ensures kept <==> Saves(old(State()), ReceivePayload(PayloadFrame(data, origin), good)).Some?
      ensures if kept then lastCompletedInbound == Some(offer.sid) != old(lastCompletedInbound)
              else lastCompletedInbound == old(lastCompletedInbound)
      ensures acceptingInbound.None? && payloadThread.Idle? && !busy
      ensures State() == Move(Move(old(State()), ReceivePayload(PayloadFrame(data, origin), good), 0), FinishInbound, 0)
      ensures StationInv(State())
    {
      MoveKeeps(State(), ReceivePayload(PayloadFrame(data, origin), good), 0);
      MoveKeeps(Move(State(), ReceivePayload(PayloadFrame(data, origin), good), 0), FinishInbound, 0);
      if !good {
        FinishTransfer(false);
        kept := false;
      } else if offer.total > 0 && |data| != offer.total {
        FinishTransfer(false);
        kept := false;
      } else {
        FinishTransfer(true);
        kept := true;
      }
      acceptingInbound := None;
      payloadThread := Idle;
    }
  }
}
