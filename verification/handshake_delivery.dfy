/** The protocol is not vacuous: for every payload there is a run that delivers it, also when the accept is lost. */
module HandshakeDelivery {
  import opened Prelude
  import opened Station
  import opened Handshake
  import opened HandlerAtomicity

  /** A point of the run: where both payload threads are and what is under way. */
  ghost predicate Stage(w: World, data: seq<byte>, sender: Thread, receiver: Thread, out: seq<Frame>, back: seq<Frame>)
  {
    && w.Shaped()
    && w.content == [data] && w.channels[0] == out && w.channels[1] == back && w.past[1].saved == []
    && w.stations[0].thread == sender && w.stations[1].thread == receiver
    && w.stations[1].accepting == (if receiver.Idle? then None else Some(0))
    && (receiver.Idle? ==> w.stations[1] == InitialFields())
    && (sender.WaitingPartner? ==> w.stations[0].OutboundIs(0) && w.stations[0].staged == data)
  }

  /** From `w` there is a way to a world in which session 0 has been received. */
  ghost predicate CanDeliver(w: World, data: seq<byte>) {
    exists steps: seq<Step>, v: World :: Leads(w, steps, v) && Delivered(v, data)
  }

  ghost predicate Delivered(v: World, data: seq<byte>) {
    v.Shaped() && v.past[1].saved == [(0, data)] && v.stations[1].lastCompleted == Some(0)
  }

  lemma StepFirst(w: World, step: Step, data: seq<byte>)
    requires w.Shaped() && CanStep(w, step) && CanDeliver(Next(w, step), data)
    ensures CanDeliver(w, data)
  {
    var steps: seq<Step>, v: World :| Leads(Next(w, step), steps, v) && Delivered(v, data);
    assert ([step] + steps)[1..] == steps;
    assert Leads(w, [step] + steps, v);
  }

  lemma PayloadUnderWay(w: World, data: seq<byte>)
    requires Stage(w, data, Idle, Receiving(Offer(0, |data|)), [PayloadFrame(data, 0)], [])
    ensures CanDeliver(w, data)
  {
    var step := Act(1, ReceivePayload(PayloadFrame(data, 0), true), true);
    assert Leads(Next(w, step), [], Next(w, step)) && Delivered(Next(w, step), data);
    StepFirst(w, step, data);
  }

  lemma PayloadSending(w: World, data: seq<byte>)
    requires Stage(w, data, SendingPayload(data, 0), Receiving(Offer(0, |data|)), [], [])
    ensures CanDeliver(w, data)
  {
    PayloadUnderWay(Next(w, Act(0, SendPayload(true), true)), data);
    StepFirst(w, Act(0, SendPayload(true), true), data);
  }

  lemma ReadyUnderWay(w: World, data: seq<byte>)
    requires Stage(w, data, WaitingPartner(Offer(0, |data|), false), Receiving(Offer(0, |data|)), [], [ReadyFrame(0)])
    ensures CanDeliver(w, data)
  {
    var step := Act(0, Hear(ReadyFrame(0), true, true), true);
    PayloadSending(Next(w, step), data);
    StepFirst(w, step, data);
  }

  lemma AcceptSettled(w: World, data: seq<byte>)
    requires Stage(w, data, WaitingPartner(Offer(0, |data|), false), ReadyGap(Offer(0, |data|)), [], [])
    ensures CanDeliver(w, data)
  {
    ReadyUnderWay(Next(w, Act(1, SendReady(true), true)), data);
    StepFirst(w, Act(1, SendReady(true), true), data);
  }

  lemma AcceptUnderWay(w: World, data: seq<byte>)
    requires Stage(w, data, WaitingPartner(Offer(0, |data|), false), ReadyGap(Offer(0, |data|)), [], [AcceptFrame(0)])
    ensures CanDeliver(w, data)
  {
    var step := Act(0, Hear(AcceptFrame(0), true, true), true);
    AcceptSettled(Next(w, step), data);
    StepFirst(w, step, data);
  }

  /** The accept may get lost: the ready that follows implies acceptance. */
  lemma Accepting(w: World, data: seq<byte>, acceptArrives: bool)
    requires Stage(w, data, WaitingPartner(Offer(0, |data|), false), AcceptDelay(Offer(0, |data|)), [], [])
    ensures CanStep(w, Act(1, SendAccept(true), acceptArrives))
    ensures CanDeliver(Next(w, Act(1, SendAccept(true), acceptArrives)), data)
    ensures CanDeliver(w, data)
  {
    var next := Next(w, Act(1, SendAccept(true), acceptArrives));
    if acceptArrives {
      AcceptUnderWay(next, data);
    } else {
      AcceptSettled(next, data);
    }
    StepFirst(w, Act(1, SendAccept(true), acceptArrives), data);
  }

  /** Hearing the offer in open mode queues the inbound thread, which then starts. */
  lemma OfferUnderWay(w: World, data: seq<byte>)
    requires Stage(w, data, WaitingPartner(Offer(0, |data|), false), Idle, [OfferFrame(Offer(0, |data|))], [])
    ensures CanDeliver(w, data)
  {
    var hear := Act(1, Hear(OfferFrame(Offer(0, |data|)), true, true), true);
    var heard := Next(w, hear);
    assert heard.stations[1].queued == [AcceptJob(Offer(0, |data|))];
    Accepting(Next(heard, Act(1, StartQueued, true)), data, true);
    StepFirst(heard, Act(1, StartQueued, true), data);
    StepFirst(w, hear, data);
  }

  /** Every payload can be delivered: from the start, sending `data` may end with `data` saved. */
  lemma EveryPayloadCanBeDelivered(data: seq<byte>)
    ensures CanDeliver(Next(Start(), Act(0, StartSend(data), true)), data)
  {
    var w0 := Next(Start(), Act(0, StartSend(data), true));
    var w1 := Next(w0, Act(0, SendOffer(true), true));
    assert w1.channels[0] == [OfferFrame(Offer(0, |data|))];
    OfferUnderWay(Next(w1, Act(0, Arm, true)), data);
    StepFirst(w1, Act(0, Arm, true), data);
    StepFirst(w0, Act(0, SendOffer(true), true), data);
  }

  /** An accept and a ready are under way to a waiting sender. */
  ghost predicate BothUnderWay(w: World, sid: Sid) {
    && w.Shaped() && w.stations[0].thread.WaitingPartner? && w.stations[0].OutboundIs(sid)
    && |w.channels[1]| >= 2 && w.channels[1][0] == AcceptFrame(sid) && w.channels[1][1] == ReadyFrame(sid)
  }

  /** The first station hears the frame. */
  function HearIt(frame: Frame): Step {
    Act(0, Hear(frame, true, true), true)
  }

  /** Losing the accept changes nothing: hearing both frames, or losing the first and hearing the second, leads to the
      very same world. */
  lemma LostAcceptIsMadeUpFor(w: World, sid: Sid)
    requires BothUnderWay(w, sid)
    ensures exists v: World ::
      && Leads(w, [HearIt(AcceptFrame(sid))] + [HearIt(ReadyFrame(sid))], v)
      && Leads(w, [Lose(1, 0)] + [HearIt(ReadyFrame(sid))], v)
  {
    var accept, ready := HearIt(AcceptFrame(sid)), HearIt(ReadyFrame(sid));
    var heard, lost := Next(w, accept), Next(w, Lose(1, 0));
    SameChannels(w, sid);
    ReadyImpliesAccept(w.stations[0], sid);
    var v := Next(heard, ready);
    SameEnd(w, heard, lost, sid);
    assert v == Next(lost, ready);
    assert Leads(v, [], v) && [ready][1..] == [];
    assert Leads(heard, [ready], v) && Leads(lost, [ready], v);
    assert ([accept] + [ready])[1..] == [ready] && ([Lose(1, 0)] + [ready])[1..] == [ready];
    assert Leads(w, [accept] + [ready], v) && Leads(w, [Lose(1, 0)] + [ready], v);
  }

  lemma SameChannels(w: World, sid: Sid)
    requires BothUnderWay(w, sid)
    ensures Next(w, HearIt(AcceptFrame(sid))).channels == Next(w, Lose(1, 0)).channels
  {
    assert w.channels[1][..0] + w.channels[1][1..] == w.channels[1][1..];
  }

  lemma SameEnd(w: World, heard: World, lost: World, sid: Sid)
    requires BothUnderWay(w, sid)
    requires heard == Next(w, HearIt(AcceptFrame(sid))) && lost == Next(w, Lose(1, 0))
    requires heard.channels == lost.channels
    requires HandleReady(HandleAccept(w.stations[0], sid), sid) == HandleReady(w.stations[0], sid)
    ensures CanStep(heard, HearIt(ReadyFrame(sid))) && CanStep(lost, HearIt(ReadyFrame(sid)))
    ensures Next(heard, HearIt(ReadyFrame(sid))) == Next(lost, HearIt(ReadyFrame(sid)))
  {
    assert heard.stations == w.stations[0 := HandleAccept(w.stations[0], sid)] && lost.stations == w.stations;
    assert heard.past == w.past && heard.content == w.content;
  }
}
