/**
 Two stations joined by two FIFO channels that may lose any frame: whatever the interleaving of
 timeouts, retransmits, late accepts and losses, a session that finishes as received has
 saved exactly the bytes staged for it, although payload frames carry no session id.
 */
module Handshake {
  import opened Prelude
  import opened Station
  import opened StationRules

  type Who = i: int | 0 <= i < 2

  function Peer(i: Who): Who {
    1 - i
  }

  /** What a station has done so far, for the argument only: the newest session it has started, the newest
      whose offer it has heard, the newest it has announced readiness for, and what it has saved. */
  datatype Past = Past(started: int, heard: int, ready: int, saved: seq<(Sid, seq<byte>)>)

  /** `channels[i]` holds the frames under way from station `i` to its peer; `content` records
      the bytes staged for every session. */
  datatype World = World(
    stations: seq<Fields>,
    channels: seq<seq<Frame>>,
    past: seq<Past>,
    content: seq<seq<byte>>)
  {
    predicate Shaped() {
      |stations| == 2 && |channels| == 2 && |past| == 2
    }

    /** The next fresh session id. */
    function NextSid(): Sid {
      |content|
    }
  }

  function Start(): World {
    World([InitialFields(), InitialFields()], [[], []], [Past(-1, -1, -1, []), Past(-1, -1, -1, [])], [])
  }

  /** One move of one station, whose frame (if it sends one) reaches the fabric or not; or the loss of a frame. */
  datatype Step = Act(who: Who, event: Event, delivered: bool) | Lose(who: Who, index: nat)

  predicate CanStep(w: World, step: Step)
    requires w.Shaped()
  {
    match step
    case Lose(who, index) => index < |w.channels[who]|
    case Act(who, event, _) =>
      && Enabled(w.stations[who], event)
      && (Takes(event).Some? ==>
            w.channels[Peer(who)] != [] && w.channels[Peer(who)][0] == Takes(event).value)
  }

  function Remember(p: Past, f: Fields, e: Event, drawn: Sid): Past
    requires Enabled(f, e)
  {
    match e
    case StartSend(_) => p.(started := drawn)
    case Hear(frame, _, _) => if frame.OfferFrame? then p.(heard := frame.offer.sid) else p
    case SendReady(_) => p.(ready := f.thread.offer.sid)
    case ReceivePayload(_, _) => if Saves(f, e).Some? then p.(saved := p.saved + [Saves(f, e).value]) else p
    case _ => p
  }

  function Received(w: World, who: Who, e: Event): seq<seq<Frame>>
    requires w.Shaped() && CanStep(w, Act(who, e, true))
  {
    if Takes(e).Some? then w.channels[Peer(who) := w.channels[Peer(who)][1..]] else w.channels
  }

  function Next(w: World, step: Step): (r: World)
    requires w.Shaped() && CanStep(w, step)
    ensures r.Shaped()
  {
    match step
    case Lose(who, index) =>
      w.(channels := w.channels[who := w.channels[who][..index] + w.channels[who][index + 1..]])
    case Act(who, e, delivered) =>
      var f := w.stations[who];
      var taken := Received(w, who, e);
      var sent := Sends(f, e);
      World(
        w.stations[who := Move(f, e, w.NextSid())],
        if sent.Some? && delivered then taken[who := taken[who] + [sent.value]] else taken,
        w.past[who := Remember(w.past[who], f, e, w.NextSid())],
        if e.StartSend? then w.content + [e.data] else w.content)
  }

  // ----- The inductive invariant, one direction at a time -----

  /** The session a sender's frame belongs to; replies belong to the other direction. */
  predicate FromSender(frame: Frame) {
    frame.OfferFrame? || frame.PayloadFrame?
  }

  function SessionOf(frame: Frame): Sid
    requires FromSender(frame)
  {
    if frame.OfferFrame? then frame.offer.sid else frame.origin
  }

  /** Sender frames are in session order, between the newest offer heard and the newest session started. */
  ghost predicate InOrder(ch: seq<Frame>, heard: int, started: int) {
    && (forall i :: 0 <= i < |ch| && FromSender(ch[i]) ==> heard <= SessionOf(ch[i]) <= started)
    && (forall i, j :: 0 <= i < j < |ch| && FromSender(ch[i]) && FromSender(ch[j]) ==>
          SessionOf(ch[i]) <= SessionOf(ch[j]))
  }

  /** A payload under way is the one staged for its session, for which the receiver has been ready. */
  ghost predicate PayloadsMatch(ch: seq<Frame>, ready: int, content: seq<seq<byte>>) {
    forall i :: 0 <= i < |ch| && ch[i].PayloadFrame? ==>
      ch[i].origin < |content| && ch[i].data == content[ch[i].origin] && ch[i].origin <= ready
  }

  ghost predicate ReadysBacked(ch: seq<Frame>, ready: int) {
    forall i :: 0 <= i < |ch| && ch[i].ReadyFrame? ==> ch[i].sid <= ready
  }

  /** The sending half: offer and payload always concern the newest session started. */
  ghost predicate SenderHalf(f: Fields, started: int, ready: int, content: seq<seq<byte>>) {
    && started < |content|
    && (f.outbound.Some? ==> f.outbound.value.sid == started && f.staged == content[started])
    && (match f.thread
        case SendingOffer(offer, data) => offer.sid == started && data == content[started]
        case OfferSent(offer, data) => offer.sid == started && data == content[started]
        case WaitingPartner(offer, _) => offer.sid == started
        case SendingPayload(data, origin) => origin == started && origin <= ready && data == content[origin]
        case _ => true)
  }

  ghost predicate Between(p: Past, offer: Offer) {
    p.ready <= offer.sid <= p.heard
  }

  /** The receiving half: sessions are accepted in the order their offers were heard. */
  ghost predicate ReceiverHalf(f: Fields, p: Past) {
    && -1 <= p.ready <= p.heard
    && (f.pending.Some? ==> Between(p, f.pending.value))
    && (forall i :: 0 <= i < |f.queued| && f.queued[i].AcceptJob? ==> Between(p, f.queued[i].offer))
    && (IsInbound(f.thread) ==> Between(p, f.thread.offer))
    && (f.thread.Receiving? ==> f.thread.offer.sid == p.ready)
  }

  ghost predicate SavedMatches(saved: seq<(Sid, seq<byte>)>, content: seq<seq<byte>>) {
    forall i :: 0 <= i < |saved| ==> saved[i].0 < |content| && saved[i].1 == content[saved[i].0]
  }

  /** Everything about the sessions station `x` sends and its peer receives. */
  ghost predicate Direction(w: World, x: Who)
    requires w.Shaped()
  {
    var r := Peer(x);
    && InOrder(w.channels[x], w.past[r].heard, w.past[x].started)
    && w.past[r].heard <= w.past[x].started
    && PayloadsMatch(w.channels[x], w.past[r].ready, w.content)
    && ReadysBacked(w.channels[r], w.past[r].ready)
    && SenderHalf(w.stations[x], w.past[x].started, w.past[r].ready, w.content)
    && ReceiverHalf(w.stations[r], w.past[r])
    && SavedMatches(w.past[r].saved, w.content)
  }

  ghost predicate Inv(w: World) {
    w.Shaped() && StationInv(w.stations[0]) && StationInv(w.stations[1]) && Direction(w, 0) && Direction(w, 1)
  }

  lemma StartInv()
    ensures Inv(Start())
  {
  }

  lemma LoseDirection(w: World, who: Who, index: nat, x: Who)
    requires w.Shaped() && CanStep(w, Lose(who, index)) && Direction(w, x)
    ensures Direction(Next(w, Lose(who, index)), x)
  {
  }

  // ----- One move, seen from the station that makes it -----

  lemma SenderHalfMove(f: Fields, e: Event, p: Past, ready: int, content: seq<seq<byte>>)
    requires StationInv(f) && Enabled(f, e) && SenderHalf(f, p.started, ready, content)
    requires e.Hear? && e.frame.ReadyFrame? ==> e.frame.sid <= ready
    ensures SenderHalf(Move(f, e, |content|), Remember(p, f, e, |content|).started, ready,
                       if e.StartSend? then content + [e.data] else content)
  {
    hide OneInbound, NoRepeat, Keeps;
  }

  /** Listening and the user: what is heard, accepted or declined. */
  lemma ReceiverDecides(f: Fields, e: Event, p: Past, drawn: Sid)
    requires StationInv(f) && Enabled(f, e) && ReceiverHalf(f, p)
    requires e.Hear? || e.PressAccept? || e.PressDecline?
    requires e.Hear? && e.frame.OfferFrame? ==> p.heard <= e.frame.offer.sid
    ensures ReceiverHalf(Move(f, e, drawn), Remember(p, f, e, drawn))
  {
  }

  /** The payload thread takes the next job. */
  lemma ReceiverStarts(f: Fields, p: Past, drawn: Sid)
    requires StationInv(f) && Enabled(f, StartQueued) && ReceiverHalf(f, p)
    ensures ReceiverHalf(Move(f, StartQueued, drawn), Remember(p, f, StartQueued, drawn))
  {
    hide NoRepeat, OutboundPlace, Handle, AcceptPending, DeclinePending;
  }

  /** The payload thread at work. */
  lemma ReceiverWorks(f: Fields, e: Event, p: Past, drawn: Sid)
    requires StationInv(f) && Enabled(f, e) && ReceiverHalf(f, p)
    requires !e.Hear? && !e.PressAccept? && !e.PressDecline? && !e.StartQueued?
    ensures ReceiverHalf(Move(f, e, drawn), Remember(p, f, e, drawn))
  {
    hide NoRepeat, OutboundPlace, Keeps, Handle, AcceptPending, DeclinePending;
  }

  /** What a moving station sends fits the order of its own channel. */
  lemma SenderFrameFits(f: Fields, e: Event, started: int, ready: int, content: seq<seq<byte>>)
    requires Enabled(f, e) && SenderHalf(f, started, ready, content)
    ensures Sends(f, e).Some? && FromSender(Sends(f, e).value) ==> SessionOf(Sends(f, e).value) == started
    ensures Sends(f, e).Some? && Sends(f, e).value.PayloadFrame? ==>
      Sends(f, e).value.data == content[started] && started <= ready
  {
  }

  lemma AppendInOrder(ch: seq<Frame>, frame: Frame, heard: int, started: int)
    requires InOrder(ch, heard, started) && heard <= started
    requires FromSender(frame) ==> SessionOf(frame) == started
    ensures InOrder(ch + [frame], heard, started)
  {
  }

  lemma TakeInOrder(ch: seq<Frame>, heard: int, started: int)
    requires ch != [] && InOrder(ch, heard, started)
    ensures InOrder(ch[1..], heard, started)
    ensures ch[0].OfferFrame? ==> InOrder(ch[1..], ch[0].offer.sid, started)
  {
  }

  /** A move of the sending station. */
  lemma SenderMoves(w: World, x: Who, e: Event, delivered: bool)
    requires w.Shaped() && CanStep(w, Act(x, e, delivered)) && Direction(w, x) && StationInv(w.stations[x])
    ensures Direction(Next(w, Act(x, e, delivered)), x)
  {
    hide Move, StationInv;
    var r := Peer(x);
    var f := w.stations[x];
    var n := Next(w, Act(x, e, delivered));
    SenderHalfMove(f, e, w.past[x], w.past[r].ready, w.content);
    SenderFrameFits(f, e, w.past[x].started, w.past[r].ready, w.content);
    if Sends(f, e).Some? {
      AppendInOrder(w.channels[x], Sends(f, e).value, w.past[r].heard, w.past[x].started);
    }
    assert n.stations[r] == w.stations[r] && n.past[r] == w.past[r];
    assert n.channels[r] == w.channels[r] || (w.channels[r] != [] && n.channels[r] == w.channels[r][1..]);
  }

  /** The replies of a moving receiver stay backed by its own readiness. */
  lemma RepliesBacked(f: Fields, e: Event, p: Past, drawn: Sid, ch: seq<Frame>, delivered: bool)
    requires Enabled(f, e) && ReceiverHalf(f, p) && ReadysBacked(ch, p.ready)
    ensures var now := Remember(p, f, e, drawn).ready;
      && p.ready <= now
      && ReadysBacked(if Sends(f, e).Some? && delivered then ch + [Sends(f, e).value] else ch, now)
  {
  }

  /** What a moving receiver saves is what was staged. */
  lemma SavesTheStaged(f: Fields, e: Event, p: Past, drawn: Sid, ch: seq<Frame>, started: int, content: seq<seq<byte>>)
    requires Enabled(f, e) && ReceiverHalf(f, p) && SavedMatches(p.saved, content)
    requires InOrder(ch, p.heard, started) && PayloadsMatch(ch, p.ready, content)
    requires Takes(e).Some? ==> ch != [] && ch[0] == Takes(e).value
    ensures SavedMatches(Remember(p, f, e, drawn).saved, content)
    ensures SavedMatches(Remember(p, f, e, drawn).saved, if e.StartSend? then content + [e.data] else content)
  {
    if e.ReceivePayload? {
      assert p.heard <= ch[0].origin <= p.ready <= f.thread.offer.sid <= p.heard;
    }
  }

  /** A move of the receiving station. */
  lemma ReceiverMoves(w: World, x: Who, e: Event, delivered: bool)
    requires w.Shaped() && CanStep(w, Act(Peer(x), e, delivered)) && Direction(w, x) && StationInv(w.stations[Peer(x)])
    ensures Direction(Next(w, Act(Peer(x), e, delivered)), x)
  {
    hide Move, StationInv;
    var r := Peer(x);
    var f := w.stations[r];
    var n := Next(w, Act(r, e, delivered));
    if e.Hear? || e.PressAccept? || e.PressDecline? {
      ReceiverDecides(f, e, w.past[r], w.NextSid());
    } else if e.StartQueued? {
      ReceiverStarts(f, w.past[r], w.NextSid());
    } else {
      ReceiverWorks(f, e, w.past[r], w.NextSid());
    }
    if Takes(e).Some? {
      TakeInOrder(w.channels[x], w.past[r].heard, w.past[x].started);
    }
    RepliesBacked(f, e, w.past[r], w.NextSid(), w.channels[r], delivered);
    SavesTheStaged(f, e, w.past[r], w.NextSid(), w.channels[x], w.past[x].started, w.content);
    assert n.stations[x] == w.stations[x] && n.past[x].started == w.past[x].started;
  }

  lemma StepKeepsInv(w: World, step: Step)
    requires Inv(w) && CanStep(w, step)
    ensures Inv(Next(w, step))
  {
    match step
    case Lose(who, index) =>
      LoseDirection(w, who, index, 0);
      LoseDirection(w, who, index, 1);
    case Act(who, e, delivered) =>
      MoveKeeps(w.stations[who], e, w.NextSid());
      SenderMoves(w, who, e, delivered);
      assert who == Peer(Peer(who));
      ReceiverMoves(w, Peer(who), e, delivered);
  }

  ghost predicate Leads(w: World, steps: seq<Step>, v: World)
    decreases |steps|
  {
    if steps == [] then w == v
    else w.Shaped() && CanStep(w, steps[0]) && Leads(Next(w, steps[0]), steps[1..], v)
  }

  lemma {:induction false} LeadsKeepsInv(w: World, steps: seq<Step>, v: World)
    requires Inv(w) && Leads(w, steps, v)
    ensures Inv(v)
    decreases |steps|
  {
    if steps != [] {
      StepKeepsInv(w, steps[0]);
      LeadsKeepsInv(Next(w, steps[0]), steps[1..], v);
    }
  }

  /** In every run, a session that finishes as received has saved exactly the bytes staged for it. */
  lemma SavedIsWhatWasStaged(steps: seq<Step>, w: World, who: Who, i: nat)
    requires Leads(Start(), steps, w) && w.Shaped() && i < |w.past[who].saved|
    ensures var (sid, data) := w.past[who].saved[i]; sid < |w.content| && data == w.content[sid]
  {
    StartInv();
    LeadsKeepsInv(Start(), steps, w);
    assert who == Peer(Peer(who));
    assert SavedMatches(w.past[who].saved, w.content);
  }

  /** A receiver waiting for a payload can only find its own session's at the head of the channel. */
  lemma AwaitedPayloadIsTheRightOne(steps: seq<Step>, w: World, x: Who)
    requires Leads(Start(), steps, w) && w.Shaped()
    requires w.stations[Peer(x)].thread.Receiving?
    ensures forall k :: 0 <= k < |w.channels[x]| && w.channels[x][k].PayloadFrame? ==>
      w.channels[x][k].origin == w.stations[Peer(x)].thread.offer.sid
  {
    StartInv();
    LeadsKeepsInv(Start(), steps, w);
    assert Direction(w, x);
  }
}
