/**
 The counting chain of the handshake: for every session, payloads sent <= readys heard <=
 readys sent <= accepts sent <= offers heard <= offers sent <= 2, in every run.
 */
module HandshakeCounts {
  import opened Prelude
  import opened Station
  import opened StationRules
  import opened Handshake

  /** What has happened to one session; sends are counted when the transport is asked. */
  datatype Tally = Tally(
    offersSent: nat,
    offersHeard: nat,
    acceptsSent: nat,
    readysSent: nat,
    readysHeard: nat,
    payloadsSent: nat)

  function Bump(t: Tally, f: Fields, e: Event, s: Sid): Tally
    requires Enabled(f, e)
  {
    match e
    case SendOffer(_) => if f.thread.offer.sid == s then t.(offersSent := t.offersSent + 1) else t
    case Retransmit(_) => if f.thread.offer.sid == s then t.(offersSent := t.offersSent + 1) else t
    case SendAccept(_) => if f.thread.offer.sid == s then t.(acceptsSent := t.acceptsSent + 1) else t
    case SendReady(_) => if f.thread.offer.sid == s then t.(readysSent := t.readysSent + 1) else t
    case SendPayload(_) => if f.thread.origin == s then t.(payloadsSent := t.payloadsSent + 1) else t
    case Hear(frame, _, _) =>
      if IsOffer(frame, s) then t.(offersHeard := t.offersHeard + 1)
      else if IsReady(frame, s) then t.(readysHeard := t.readysHeard + 1)
      else t
    case _ => t
  }

  predicate IsOffer(frame: Frame, s: Sid) {
    frame.OfferFrame? && frame.offer.sid == s
  }

  predicate IsReady(frame: Frame, s: Sid) {
    frame.ReadyFrame? && frame.sid == s
  }

  ghost function TallyAlong(w: World, steps: seq<Step>, t: Tally, s: Sid): Tally
    decreases |steps|
  {
    if steps == [] || !w.Shaped() || !CanStep(w, steps[0]) then t
    else TallyAlong(Next(w, steps[0]), steps[1..], StepTally(w, steps[0], t, s), s)
  }

  function StepTally(w: World, step: Step, t: Tally, s: Sid): Tally
    requires w.Shaped() && CanStep(w, step)
  {
    if step.Act? then Bump(t, w.stations[step.who], step.event, s) else t
  }

  function OffersIn(ch: seq<Frame>, s: Sid): nat {
    if ch == [] then 0 else (if IsOffer(ch[0], s) then 1 else 0) + OffersIn(ch[1..], s)
  }

  function ReadysIn(ch: seq<Frame>, s: Sid): nat {
    if ch == [] then 0 else (if IsReady(ch[0], s) then 1 else 0) + ReadysIn(ch[1..], s)
  }

  lemma {:induction false} CountAppend(ch: seq<Frame>, frame: Frame, s: Sid)
    ensures OffersIn(ch + [frame], s) == OffersIn(ch, s) + OffersIn([frame], s)
    ensures ReadysIn(ch + [frame], s) == ReadysIn(ch, s) + ReadysIn([frame], s)
  {
    if ch == [] {
      assert ch + [frame] == [frame];
    } else {
      assert (ch + [frame])[1..] == ch[1..] + [frame];
      CountAppend(ch[1..], frame, s);
    }
  }

  lemma {:induction false} CountLoss(ch: seq<Frame>, k: nat, s: Sid)
    requires k < |ch|
    ensures OffersIn(ch[..k] + ch[k + 1..], s) <= OffersIn(ch, s)
    ensures ReadysIn(ch[..k] + ch[k + 1..], s) <= ReadysIn(ch, s)
  {
    if k == 0 {
      assert ch[..0] + ch[1..] == ch[1..];
    } else {
      assert (ch[..k] + ch[k + 1..])[1..] == ch[1..][..k - 1] + ch[1..][k..];
      CountLoss(ch[1..], k - 1, s);
    }
  }

  // ----- What one station may still do for the session -----

  /** Offers its thread may still send. */
  function OffersOwed(f: Fields, s: Sid): nat {
    match f.thread
    case SendingOffer(offer, _) => if offer.sid == s then 2 else 0
    case OfferSent(offer, _) => if offer.sid == s then 1 else 0
    case WaitingPartner(offer, again) => if offer.sid == s && !again then 1 else 0
    case _ => 0
  }

  /** Accepts it may still send for offers already heard. */
  function AcceptsOwed(f: Fields, s: Sid): nat {
    (if f.pending.Some? && f.pending.value.sid == s then 1 else 0)
    + (if f.accepting == Some(s) && !f.thread.ReadyGap? && !f.thread.Receiving? && !f.thread.Cleanup? then 1 else 0)
  }

  function ReadysOwed(f: Fields, s: Sid): nat {
    if f.thread.ReadyGap? && f.thread.offer.sid == s then 1 else 0
  }

  function PayloadsOwed(f: Fields, s: Sid): nat {
    if f.thread.SendingPayload? && f.thread.origin == s then 1 else 0
  }

  /** Whether it may yet send the session's payload, now or after a ready. */
  function PayloadChance(f: Fields, s: Sid): nat {
    match f.thread
    case SendingOffer(offer, _) => if offer.sid == s then 1 else 0
    case OfferSent(offer, _) => if offer.sid == s then 1 else 0
    case WaitingPartner(_, _) => if f.OutboundIs(s) then 1 else 0
    case SendingPayload(_, origin) => if origin == s then 1 else 0
    case _ => 0
  }

  ghost predicate Chain(w: World, t: Tally, s: Sid)
    requires w.Shaped()
  {
    var f, g := w.stations[0], w.stations[1];
    && t.offersSent + OffersOwed(f, s) + OffersOwed(g, s) <= 2
    && (w.NextSid() <= s ==> t.offersSent == t.payloadsSent == 0)
    && t.offersHeard + OffersIn(w.channels[0], s) + OffersIn(w.channels[1], s) <= t.offersSent
    && t.acceptsSent + AcceptsOwed(f, s) + AcceptsOwed(g, s) <= t.offersHeard
    && t.readysSent + ReadysOwed(f, s) + ReadysOwed(g, s) <= t.acceptsSent
    && t.readysHeard + ReadysIn(w.channels[0], s) + ReadysIn(w.channels[1], s) <= t.readysSent
    && t.payloadsSent + PayloadsOwed(f, s) + PayloadsOwed(g, s) <= t.readysHeard
    && t.payloadsSent + PayloadChance(f, s) + PayloadChance(g, s) <= 1
  }

  /** The sending account: offers and the one payload. */
  ghost predicate SenderSettles(f: Fields, g: Fields, t: Tally, u: Tally, s: Sid) {
    && OffersOwed(g, s) + u.offersSent <= OffersOwed(f, s) + t.offersSent
    && PayloadsOwed(g, s) + u.payloadsSent + t.readysHeard <= PayloadsOwed(f, s) + t.payloadsSent + u.readysHeard
    && PayloadChance(g, s) + u.payloadsSent <= PayloadChance(f, s) + t.payloadsSent
  }

  /** The receiving account: accepts and readys. */
  ghost predicate ReceiverSettles(f: Fields, g: Fields, t: Tally, u: Tally, s: Sid) {
    && AcceptsOwed(g, s) + u.acceptsSent + t.offersHeard <= AcceptsOwed(f, s) + t.acceptsSent + u.offersHeard
    && ReadysOwed(g, s) + u.readysSent + t.acceptsSent <= ReadysOwed(f, s) + t.readysSent + u.acceptsSent
  }

  lemma HearingSettlesSender(f: Fields, e: Event, drawn: Sid, t: Tally, s: Sid)
    requires OutboundPlace(f) && Enabled(f, e) && (e.Hear? || e.PressAccept? || e.PressDecline?)
    ensures SenderSettles(f, Move(f, e, drawn), t, Bump(t, f, e, s), s)
  {
  }

  lemma WorkSettlesSender(f: Fields, e: Event, drawn: Sid, t: Tally, s: Sid)
    requires OutboundPlace(f) && Enabled(f, e) && !e.Hear? && !e.PressAccept? && !e.PressDecline?
    requires e.StartSend? ==> drawn != s
    ensures SenderSettles(f, Move(f, e, drawn), t, Bump(t, f, e, s), s)
  {
    hide Handle, AcceptPending, DeclinePending, Keeps;
  }

  lemma HearingSettlesReceiver(f: Fields, e: Event, drawn: Sid, t: Tally, s: Sid)
    requires StationInv(f) && Enabled(f, e) && (e.Hear? || e.PressAccept? || e.PressDecline?)
    ensures ReceiverSettles(f, Move(f, e, drawn), t, Bump(t, f, e, s), s)
  {
  }

  lemma WorkSettlesReceiver(f: Fields, e: Event, drawn: Sid, t: Tally, s: Sid)
    requires StationInv(f) && Enabled(f, e) && !e.Hear? && !e.PressAccept? && !e.PressDecline?
    ensures ReceiverSettles(f, Move(f, e, drawn), t, Bump(t, f, e, s), s)
  {
    hide Handle, AcceptPending, DeclinePending, Keeps, NoRepeat, OutboundPlace;
  }

  /** A new session starts with a clean account. */
  lemma StartSettles(f: Fields, e: Event, drawn: Sid)
    requires StationInv(f) && Enabled(f, e) && e.StartSend?
    ensures var g := Move(f, e, drawn);
      OffersOwed(g, drawn) == 2 && PayloadChance(g, drawn) == 1 && PayloadsOwed(g, drawn) == 0
  {
  }

  /** The frames a move takes and sends are accounted for. */
  lemma FramesSettle(w: World, who: Who, e: Event, delivered: bool, t: Tally, s: Sid)
    requires w.Shaped() && CanStep(w, Act(who, e, delivered))
    ensures var n, u := Next(w, Act(who, e, delivered)), Bump(t, w.stations[who], e, s);
      && u.offersHeard + OffersIn(n.channels[0], s) + OffersIn(n.channels[1], s) + t.offersSent
         <= t.offersHeard + OffersIn(w.channels[0], s) + OffersIn(w.channels[1], s) + u.offersSent
      && u.readysHeard + ReadysIn(n.channels[0], s) + ReadysIn(n.channels[1], s) + t.readysSent
         <= t.readysHeard + ReadysIn(w.channels[0], s) + ReadysIn(w.channels[1], s) + u.readysSent
  {
    hide Move, Remember;
    var f := w.stations[who];
    if Sends(f, e).Some? {
      CountAppend(w.channels[who], Sends(f, e).value, s);
    }
  }

  lemma MoveKeepsChain(w: World, who: Who, e: Event, delivered: bool, t: Tally, s: Sid)
    requires w.Shaped() && CanStep(w, Act(who, e, delivered)) && Chain(w, t, s)
    requires StationInv(w.stations[who]) && (e.StartSend? ==> w.NextSid() != s)
    requires w.NextSid() <= s ==> OffersOwed(w.stations[who], s) == PayloadChance(w.stations[who], s) == 0
    ensures Chain(Next(w, Act(who, e, delivered)), Bump(t, w.stations[who], e, s), s)
  {
    hide Move, Bump, Remember, OffersIn, ReadysIn, StationInv;
    hide OffersOwed, AcceptsOwed, ReadysOwed, PayloadsOwed, PayloadChance;
    FramesSettle(w, who, e, delivered, t, s);
    SenderPlace(w.stations[who]);
    if e.Hear? || e.PressAccept? || e.PressDecline? {
      HearingSettlesSender(w.stations[who], e, w.NextSid(), t, s);
      HearingSettlesReceiver(w.stations[who], e, w.NextSid(), t, s);
    } else {
      WorkSettlesSender(w.stations[who], e, w.NextSid(), t, s);
      WorkSettlesReceiver(w.stations[who], e, w.NextSid(), t, s);
    }
  }

  lemma SenderPlace(f: Fields)
    requires StationInv(f)
    ensures OutboundPlace(f)
  {
  }

  lemma StartKeepsChain(w: World, who: Who, e: Event, delivered: bool, t: Tally)
    requires Inv(w) && CanStep(w, Act(who, e, delivered)) && e.StartSend? && Chain(w, t, w.NextSid())
    ensures Chain(Next(w, Act(who, e, delivered)), t, w.NextSid())
  {
    StartSettles(w.stations[who], e, w.NextSid());
    WorkSettlesReceiver(w.stations[who], e, w.NextSid(), t, w.NextSid());
    FreshSidUnknown(w, Peer(who), w.NextSid());
  }

  lemma StepKeepsChain(w: World, step: Step, t: Tally, s: Sid)
    requires Inv(w) && CanStep(w, step) && Chain(w, t, s)
    ensures Chain(Next(w, step), StepTally(w, step, t, s), s)
  {
    match step
    case Lose(who, index) => CountLoss(w.channels[who], index, s);
    case Act(who, e, delivered) =>
      if e.StartSend? && w.NextSid() == s {
        StartKeepsChain(w, who, e, delivered, t);
      } else {
        if w.NextSid() <= s {
          FreshSidUnknown(w, who, s);
        }
        MoveKeepsChain(w, who, e, delivered, t, s);
      }
  }

  /** No thread knows a session id that has not been drawn yet. */
  lemma FreshSidUnknown(w: World, who: Who, s: Sid)
    requires Inv(w) && w.NextSid() <= s
    ensures OffersOwed(w.stations[who], s) == PayloadChance(w.stations[who], s) == 0
  {
    assert Direction(w, who);
  }

  lemma {:induction false} LeadsKeepsChain(w: World, steps: seq<Step>, v: World, t: Tally, s: Sid)
    requires Inv(w) && Leads(w, steps, v) && Chain(w, t, s)
    ensures v.Shaped() && Chain(v, TallyAlong(w, steps, t, s), s)
    decreases |steps|
  {
    if steps != [] {
      StepKeepsInv(w, steps[0]);
      StepKeepsChain(w, steps[0], t, s);
      LeadsKeepsChain(Next(w, steps[0]), steps[1..], v, StepTally(w, steps[0], t, s), s);
    }
  }

  /** For every run and every session: the chain holds, and the payload goes out at most once, never
      without an earlier ready, accept and offer of the same session. */
  lemma CountingChain(steps: seq<Step>, w: World, s: Sid)
    requires Leads(Start(), steps, w)
    ensures var t := TallyAlong(Start(), steps, Tally(0, 0, 0, 0, 0, 0), s);
      && t.payloadsSent <= t.readysHeard <= t.readysSent <= t.acceptsSent <= t.offersHeard <= t.offersSent <= 2
      && t.payloadsSent <= 1
  {
    StartInv();
    LeadsKeepsChain(Start(), steps, w, Tally(0, 0, 0, 0, 0, 0), s);
  }
}
