/**
 One transfer station: the fields of `TransferOrchestrator` that decide the handshake, every
 message handler and every move of its payload thread as a function on those fields.
 */
module Station {
  import opened Prelude

  /** Session ids are only ever compared for equality; a counter stands for "fresh". */
  type Sid = nat

  datatype Offer = Offer(sid: Sid, total: nat)

  /** Payload frames carry no session id on the wire: `origin` is history and no handler reads it. */
  datatype Frame =
    | OfferFrame(offer: Offer)
    | AcceptFrame(sid: Sid)
    | DeclineFrame(sid: Sid)
    | ReadyFrame(sid: Sid)
    | AnnounceFrame
    | PayloadFrame(data: seq<byte>, origin: Sid)

  /** What a UI call leaves for the payload thread once it has been joined. */
  datatype Job = AcceptJob(offer: Offer) | DeclineJob(offer: Offer)

  /** Where the payload thread is.  `SendingPayload.origin` is history. */
  datatype Thread =
    | Idle
    | SendingOffer(offer: Offer, data: seq<byte>)
    | OfferSent(offer: Offer, data: seq<byte>)
    | WaitingPartner(offer: Offer, retransmitted: bool)
    | SendingPayload(data: seq<byte>, origin: Sid)
    | AcceptDelay(offer: Offer)
    | ReadyGap(offer: Offer)
    | Receiving(offer: Offer)
    | Cleanup
    | Declining(offer: Offer)

  datatype Fields = Fields(
    busy: bool,
    waiting: bool,
    outbound: Option<Offer>,
    staged: seq<byte>,
    awaitingReady: bool,
    pending: Option<Offer>,
    accepting: Option<Sid>,
    lastCompleted: Option<Sid>,
    thread: Thread,
    queued: seq<Job>)
  {
    predicate IsBusy() {
      busy || accepting.Some?
    }

    predicate OutboundIs(sid: Sid) {
      outbound.Some? && outbound.value.sid == sid
    }

    /** The session listener hears frames unless a pause guard is alive. */
    predicate Listening() {
      thread.Idle? || thread.OfferSent? || thread.WaitingPartner? || thread.Cleanup?
    }
  }

  function InitialFields(): Fields {
    Fields(false, false, None, [], false, None, None, None, Idle, [])
  }

  function ClearOutbound(f: Fields): Fields {
    f.(outbound := None, staged := [], awaitingReady := false)
  }

  /** `finish_transfer`; `received` is the kind `TransferDoneKind::Received`. */
  function Finish(f: Fields, received: bool): Fields {
    ClearOutbound(f).(
      busy := false,
      waiting := false,
      lastCompleted := if received && f.accepting.Some? then f.accepting else f.lastCompleted)
  }

  /** `accept_pending_offer`: the inbound thread starts once the payload thread has been joined. */
  function AcceptPending(f: Fields): Fields {
    if f.pending.None? then f
    else
      var offer := f.pending.value;
      if f.accepting == Some(offer.sid) then f
      else if f.lastCompleted == Some(offer.sid) then f.(pending := None)
      else f.(pending := None, accepting := Some(offer.sid), queued := f.queued + [AcceptJob(offer)])
  }

  function DeclinePending(f: Fields): Fields {
    if f.pending.None? then f
    else f.(pending := None, queued := f.queued + [DeclineJob(f.pending.value)])
  }

  /** `named`: the offer is addressed to this station; `open`: the station accepts without asking. */
  function HandleOffer(f: Fields, offer: Offer, named: bool, open: bool): Fields {
    if !named then f
    else if f.accepting == Some(offer.sid) || f.lastCompleted == Some(offer.sid) then f
    else if f.pending.Some? && f.pending.value.sid == offer.sid then f
    else if f.IsBusy() then f
    else if open then AcceptPending(f.(pending := Some(offer)))
    else f.(pending := Some(offer))
  }

  function HandleAccept(f: Fields, sid: Sid): Fields {
    if !f.OutboundIs(sid) then f else f.(waiting := true, awaitingReady := true)
  }

  function HandleDecline(f: Fields, sid: Sid): Fields {
    if !f.OutboundIs(sid) then f else Finish(ClearOutbound(f), false)
  }

  /** A ready implies acceptance; the staged payload is taken as it is now. */
  function HandleReady(f: Fields, sid: Sid): Fields {
    if !f.OutboundIs(sid) then f
    else f.(awaitingReady := true, waiting := false, thread := SendingPayload(f.staged, sid))
  }

  function Handle(f: Fields, frame: Frame, named: bool, open: bool): Fields {
    match frame
    case OfferFrame(offer) => HandleOffer(f, offer, named, open)
    case AcceptFrame(sid) => HandleAccept(f, sid)
    case DeclineFrame(sid) => HandleDecline(f, sid)
    case ReadyFrame(sid) => HandleReady(f, sid)
    case AnnounceFrame => f
    case PayloadFrame(_, _) => f
  }

  /** The first thing a queued job does when its thread starts. */
  function StartJob(f: Fields, job: Job): Fields {
    match job
    case AcceptJob(offer) =>
      if f.lastCompleted == Some(offer.sid) then f.(accepting := None)
      else f.(thread := AcceptDelay(offer))
    case DeclineJob(offer) => f.(thread := Declining(offer))
  }

  /** Every move a station can make.  `ok` is what the transport reports about a send; whether the
      frame reaches the fabric is a separate matter. */
  datatype Event =
    | StartSend(data: seq<byte>)
    | SendOffer(ok: bool)
    | Arm
    | Retransmit(ok: bool)
    | TimeoutWait
    | LeaveWait
    | SendPayload(ok: bool)
    | Hear(frame: Frame, named: bool, open: bool)
    | PressAccept
    | PressDecline
    | StartQueued
    | SendAccept(ok: bool)
    | SendReady(ok: bool)
    | ReceivePayload(frame: Frame, good: bool)
    | SkipStray(frame: Frame)
    | ReceiveTimeout
    | FinishInbound
    | SendDecline(ok: bool)
    | SendAnnounce(ok: bool)

  predicate Enabled(f: Fields, e: Event) {
    match e
    case StartSend(_) => !f.IsBusy() && f.thread.Idle? && f.queued == []
    case SendOffer(_) => f.thread.SendingOffer?
    case Arm => f.thread.OfferSent?
    case Retransmit(_) => f.thread.WaitingPartner? && !f.thread.retransmitted
    case TimeoutWait => f.thread.WaitingPartner? && f.waiting && f.outbound.Some?
    case LeaveWait => f.thread.WaitingPartner? && (!f.waiting || f.outbound.None?)
    case SendPayload(_) => f.thread.SendingPayload?
    case Hear(_, _, _) => f.Listening()
    case PressAccept => true
    case PressDecline => true
    case StartQueued => f.thread.Idle? && f.queued != []
    case SendAccept(_) => f.thread.AcceptDelay?
    case SendReady(_) => f.thread.ReadyGap?
    case ReceivePayload(frame, _) => f.thread.Receiving? && frame.PayloadFrame?
    case SkipStray(frame) => f.thread.Receiving? && !frame.PayloadFrame?
    case ReceiveTimeout => f.thread.Receiving?
    case FinishInbound => f.thread.Cleanup?
    case SendDecline(_) => f.thread.Declining?
    case SendAnnounce(_) => f.Listening() && f.outbound.None?
  }

  /** An inbound payload is kept when it arrived whole and has the size the offer announced. */
  predicate Keeps(offer: Offer, data: seq<byte>, good: bool) {
    good && (offer.total > 0 ==> |data| == offer.total)
  }

  /** `drawn` is the session id a new send draws. */
  function Move(f: Fields, e: Event, drawn: Sid): Fields
    requires Enabled(f, e)
  {
    match e
    case StartSend(data) =>
      f.(busy := true, waiting := true, thread := SendingOffer(Offer(drawn, |data|), data))
    case SendOffer(ok) =>
      if ok then f.(thread := OfferSent(f.thread.offer, f.thread.data))
      else Finish(f, false).(thread := Idle)
    case Arm =>
      f.(staged := f.thread.data, outbound := Some(f.thread.offer), awaitingReady := false, waiting := true,
         thread := WaitingPartner(f.thread.offer, false))
    case Retransmit(_) => f.(thread := WaitingPartner(f.thread.offer, true))
    case TimeoutWait => Finish(f, false).(thread := Idle)
    case LeaveWait => f.(thread := Idle)
    case SendPayload(_) => Finish(f, false).(thread := Idle)
    case Hear(frame, named, open) => Handle(f, frame, named, open)
    case PressAccept => AcceptPending(f)
    case PressDecline => DeclinePending(f)
    case StartQueued => StartJob(f.(queued := f.queued[1..]), f.queued[0])
    case SendAccept(ok) =>
      if ok then f.(thread := ReadyGap(f.thread.offer))
      else Finish(f.(accepting := None), false).(thread := Idle)
    case SendReady(ok) =>
      if ok then f.(busy := true, thread := Receiving(f.thread.offer))
      else Finish(f, false).(thread := Cleanup)
    case ReceivePayload(frame, good) =>
      Finish(f, Keeps(f.thread.offer, frame.data, good)).(thread := Cleanup)
    case SkipStray(_) => f
    case ReceiveTimeout => Finish(f, false).(thread := Cleanup)
    case FinishInbound => f.(accepting := None, thread := Idle)
    case SendDecline(_) => f.(thread := Idle)
    case SendAnnounce(_) => f
  }

  /** The frame a move hands to the transport. */
  function Sends(f: Fields, e: Event): Option<Frame>
    requires Enabled(f, e)
  {
    match e
    case SendOffer(_) => Some(OfferFrame(f.thread.offer))
    case Retransmit(_) => Some(OfferFrame(f.thread.offer))
    case SendPayload(_) => Some(PayloadFrame(f.thread.data, f.thread.origin))
    case SendAccept(_) => Some(AcceptFrame(f.thread.offer.sid))
    case SendReady(_) => Some(ReadyFrame(f.thread.offer.sid))
    case SendDecline(_) => Some(DeclineFrame(f.thread.offer.sid))
    case SendAnnounce(_) => Some(AnnounceFrame)
    case _ => None
  }

  /** The frame a move takes from the fabric. */
  function Takes(e: Event): Option<Frame> {
    match e
    case Hear(frame, _, _) => Some(frame)
    case ReceivePayload(frame, _) => Some(frame)
    case SkipStray(frame) => Some(frame)
    case _ => None
  }

  /** The session and bytes a move saves to the receive folder. */
  function Saves(f: Fields, e: Event): Option<(Sid, seq<byte>)>
    requires Enabled(f, e)
  {
    if e.ReceivePayload? && Keeps(f.thread.offer, e.frame.data, e.good)
    then Some((f.thread.offer.sid, e.frame.data))
    else None
  }
}
