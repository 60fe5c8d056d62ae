/**
 What the whole history of one station says about its present: which offers it works on, how its decisions are
 answered, when it counts an offer of its own as accepted, and what it sends and saves.
 */
module StationHistory {
  import opened Prelude
  import opened Station
  import opened StationRules

  // ----- Saved payloads have the size that was announced -----

  /** The offer was heard, addressed to this station. */
  predicate HeardOf(past: seq<(Event, Sid)>, offer: Offer) {
    exists i :: 0 <= i < |past| && past[i].0.Hear? && past[i].0.frame == OfferFrame(offer) && past[i].0.named
  }

  predicate WorksOn(thread: Thread) {
    IsInbound(thread) || thread.Declining?
  }

  /** The offer is pending, queued for the payload thread or in its hands. */
  predicate Holds(f: Fields, offer: Offer) {
    || f.pending == Some(offer)
    || AcceptJob(offer) in f.queued || DeclineJob(offer) in f.queued
    || (WorksOn(f.thread) && f.thread.offer == offer)
  }

  /** Every offer the station has in hand was heard. */
  ghost predicate FromHeard(f: Fields, past: seq<(Event, Sid)>) {
    forall o: Offer :: Holds(f, o) ==> HeardOf(past, o)
  }

  lemma HearingAdds(f: Fields, frame: Frame, named: bool, open: bool, o: Offer)
    requires f.Listening() && Holds(Handle(f, frame, named, open), o)
    ensures Holds(f, o) || (named && frame == OfferFrame(o))
  {
  }

  /** Only hearing an offer puts a new one into the station's hands. */
  lemma MoveAdds(f: Fields, e: Event, drawn: Sid, o: Offer)
    requires Enabled(f, e) && Holds(Move(f, e, drawn), o)
    ensures Holds(f, o) || (e.Hear? && e.named && e.frame == OfferFrame(o))
  {
    match e
    case Hear(frame, named, open) => HearingAdds(f, frame, named, open, o);
    case StartQueued => StartingAdds(f, o);
    case PressAccept =>
    case PressDecline =>
    case _ => ThreadAdds(f, e, drawn);
  }

  lemma StartingAdds(f: Fields, o: Offer)
    requires f.thread.Idle? && f.queued != [] && Holds(StartJob(f.(queued := f.queued[1..]), f.queued[0]), o)
    ensures Holds(f, o)
  {
    assert f.queued == [f.queued[0]] + f.queued[1..];
  }

  predicate OfThread(e: Event) {
    !e.Hear? && !e.PressAccept? && !e.PressDecline? && !e.StartQueued?
  }

  /** What the payload thread does on its own concerns no offer but its own. */
  lemma ThreadAdds(f: Fields, e: Event, drawn: Sid)
    requires Enabled(f, e) && OfThread(e)
    ensures var next := Move(f, e, drawn);
      && next.pending == f.pending && next.queued == f.queued
      && (WorksOn(next.thread) ==> WorksOn(f.thread) && next.thread.offer == f.thread.offer)
  {
    KeepsItsOffer(f, e, drawn);
    hide WorksOn;
  }

  lemma KeepsItsOffer(f: Fields, e: Event, drawn: Sid)
    requires Enabled(f, e) && OfThread(e)
    ensures var next := Move(f, e, drawn);
      WorksOn(next.thread) ==> WorksOn(f.thread) && next.thread.offer == f.thread.offer
  {
  }

  lemma HeardStays(past: seq<(Event, Sid)>, move: (Event, Sid))
    ensures forall o :: HeardOf(past, o) ==> HeardOf(past + [move], o)
  {
    forall o | HeardOf(past, o) ensures HeardOf(past + [move], o) {
      var i :| 0 <= i < |past| && past[i].0.Hear? && past[i].0.frame == OfferFrame(o) && past[i].0.named;
      assert (past + [move])[i] == past[i];
    }
  }

  lemma MoveKeepsHeard(f: Fields, past: seq<(Event, Sid)>, e: Event, drawn: Sid)
    requires FromHeard(f, past) && Enabled(f, e)
    ensures FromHeard(Move(f, e, drawn), past + [(e, drawn)])
  {
    hide Move, Holds;
    HeardStays(past, (e, drawn));
    assert (past + [(e, drawn)])[|past|] == (e, drawn);
    forall o | Holds(Move(f, e, drawn), o) ensures HeardOf(past + [(e, drawn)], o) {
      MoveAdds(f, e, drawn, o);
    }
  }

  lemma {:induction false} HistoryIsHeard(f: Fields, past: seq<(Event, Sid)>, moves: seq<(Event, Sid)>, g: Fields)
    requires FromHeard(f, past) && Evolves(f, moves, g)
    ensures FromHeard(g, past + moves)
    decreases |moves|
  {
    hide Move, FromHeard;
    if moves == [] {
      assert past + moves == past;
    } else {
      var (e, drawn) := moves[0];
      MoveKeepsHeard(f, past, e, drawn);
      assert (past + [(e, drawn)]) + moves[1..] == past + moves;
      HistoryIsHeard(Move(f, e, drawn), past + [(e, drawn)], moves[1..], g);
    }
  }

  /** In every history: a payload that arrives is saved, under the session of an offer that was heard before, if and
      only if it arrived whole and has the size this offer announced; an announced zero stands for no size. */
  lemma SavedIffAsAnnounced(moves: seq<(Event, Sid)>, g: Fields, frame: Frame, good: bool) returns (offer: Offer)
    requires Evolves(InitialFields(), moves, g) && Enabled(g, ReceivePayload(frame, good))
    ensures HeardOf(moves, offer)
    ensures Saves(g, ReceivePayload(frame, good))
         == if good && (offer.total == 0 || |frame.data| == offer.total) then Some((offer.sid, frame.data)) else None
  {
    HistoryIsHeard(InitialFields(), [], moves, g);
    assert [] + moves == moves;
    offer := g.thread.offer;
  }

  // ----- What is sent is what was given -----

  /** A send was started with this data and drew this session id. */
  predicate Given(past: seq<(Event, Sid)>, sid: Sid, data: seq<byte>) {
    (StartSend(data), sid) in past
  }

  /** The offer bears the id of such a send and the size of its data. */
  predicate Began(past: seq<(Event, Sid)>, offer: Offer, data: seq<byte>) {
    Given(past, offer.sid, data) && offer.total == |data|
  }

  ghost predicate FromGiven(f: Fields, past: seq<(Event, Sid)>) {
    && (f.outbound.Some? ==> Began(past, f.outbound.value, f.staged))
    && match f.thread
       case SendingOffer(offer, data) => Began(past, offer, data)
       case OfferSent(offer, data) => Began(past, offer, data)
       case WaitingPartner(offer, _) =>
         && (f.outbound.Some? ==> f.outbound.value == offer)
         && exists data: seq<byte> :: Began(past, offer, data)
       case SendingPayload(data, origin) => Given(past, origin, data)
       case _ => true
  }

  lemma GivenStays(f: Fields, past: seq<(Event, Sid)>, move: (Event, Sid))
    requires FromGiven(f, past)
    ensures FromGiven(f, past + [move])
  {
    if f.thread.WaitingPartner? {
      var data: seq<byte> :| Began(past, f.thread.offer, data);
      assert Began(past + [move], f.thread.offer, data);
    }
  }

  lemma HearingKeepsGiven(f: Fields, past: seq<(Event, Sid)>, frame: Frame, named: bool, open: bool)
    requires FromGiven(f, past)
    ensures FromGiven(Handle(f, frame, named, open), past)
  {
    hide Given;
  }

  lemma ThreadKeepsGiven(f: Fields, past: seq<(Event, Sid)>, e: Event, drawn: Sid)
    requires FromGiven(f, past) && Enabled(f, e) && !e.Hear?
    requires e.StartSend? ==> Given(past, drawn, e.data)
    ensures FromGiven(Move(f, e, drawn), past)
  {
    hide Given;
    if e.Arm? {
      assert Began(past, f.thread.offer, f.thread.data);
    }
  }

  lemma MoveKeepsGiven(f: Fields, past: seq<(Event, Sid)>, e: Event, drawn: Sid)
    requires FromGiven(f, past) && Enabled(f, e)
    ensures FromGiven(Move(f, e, drawn), past + [(e, drawn)])
  {
    hide FromGiven;
    GivenStays(f, past, (e, drawn));
    assert (past + [(e, drawn)])[|past|] == (e, drawn);
    if e.Hear? {
      HearingKeepsGiven(f, past + [(e, drawn)], e.frame, e.named, e.open);
    } else {
      ThreadKeepsGiven(f, past + [(e, drawn)], e, drawn);
    }
  }

  lemma {:induction false} HistoryIsGiven(f: Fields, past: seq<(Event, Sid)>, moves: seq<(Event, Sid)>, g: Fields)
    requires FromGiven(f, past) && Evolves(f, moves, g)
    ensures FromGiven(g, past + moves)
    decreases |moves|
  {
    hide Move, FromGiven;
    if moves == [] {
      assert past + moves == past;
    } else {
      var (e, drawn) := moves[0];
      MoveKeepsGiven(f, past, e, drawn);
      assert (past + [(e, drawn)]) + moves[1..] == past + moves;
      HistoryIsGiven(Move(f, e, drawn), past + [(e, drawn)], moves[1..], g);
    }
  }

  /** In every history an offer that goes out announces the size of the data that was given for its session, what goes
      out again is the outstanding offer, and a payload that goes out is that data. */
  lemma SendsWhatWasGiven(moves: seq<(Event, Sid)>, g: Fields, e: Event)
    requires Evolves(InitialFields(), moves, g) && Enabled(g, e)
    ensures (e.SendOffer? || e.Retransmit? <==> Sends(g, e).Some? && Sends(g, e).value.OfferFrame?)
    ensures (e.SendPayload? <==> Sends(g, e).Some? && Sends(g, e).value.PayloadFrame?)
    ensures e.SendAnnounce? <==> Sends(g, e) == Some(AnnounceFrame)
    ensures e.SendOffer? || e.Retransmit? ==>
      var sent := Sends(g, e).value;
      exists data: seq<byte> :: Began(moves, sent.offer, data)
    ensures e.Retransmit? && g.outbound.Some? ==> Sends(g, e).value.offer == g.outbound.value
    ensures e.SendPayload? ==> Given(moves, Sends(g, e).value.origin, Sends(g, e).value.data)
  {
    HistoryIsGiven(InitialFields(), [], moves, g);
    assert [] + moves == moves;
  }

  // ----- Every decision is answered -----

  datatype Answer = Accepts(sid: Sid) | Declines(sid: Sid)

  /** What the station decides at an event: the user presses a button while an offer is pending, or a new one
      arrives at an idle open station.  The session completed last is not accepted again. */
  function DecisionOf(f: Fields, e: Event): seq<Answer> {
    match e
    case PressAccept =>
      if f.pending.Some? && f.lastCompleted != Some(f.pending.value.sid) then [Accepts(f.pending.value.sid)] else []
    case PressDecline => if f.pending.Some? then [Declines(f.pending.value.sid)] else []
    case Hear(OfferFrame(offer), true, true) =>
      if !f.busy && f.accepting.None? && f.lastCompleted != Some(offer.sid)
         && !(f.pending.Some? && f.pending.value.sid == offer.sid)
      then [Accepts(offer.sid)] else []
    case _ => []
  }

  /** The answer frame that a move hands to the transport. */
  function AnswerOf(f: Fields, e: Event): seq<Answer>
    requires Enabled(f, e)
  {
    match Sends(f, e)
    case Some(AcceptFrame(sid)) => [Accepts(sid)]
    case Some(DeclineFrame(sid)) => [Declines(sid)]
    case _ => []
  }

  function Decisions(f: Fields, moves: seq<(Event, Sid)>): seq<Answer>
    decreases |moves|
  {
    if moves == [] || !Enabled(f, moves[0].0) then []
    else DecisionOf(f, moves[0].0) + Decisions(Move(f, moves[0].0, moves[0].1), moves[1..])
  }

  function Answers(f: Fields, moves: seq<(Event, Sid)>): seq<Answer>
    decreases |moves|
  {
    if moves == [] || !Enabled(f, moves[0].0) then []
    else AnswerOf(f, moves[0].0) + Answers(Move(f, moves[0].0, moves[0].1), moves[1..])
  }

  function Queued(jobs: seq<Job>): seq<Answer> {
    seq(|jobs|, i requires 0 <= i < |jobs| =>
      if jobs[i].AcceptJob? then Accepts(jobs[i].offer.sid) else Declines(jobs[i].offer.sid))
  }

  /** The answers a station still owes: the one its payload thread is about to send, then those queued. */
  function Owed(f: Fields): seq<Answer> {
    OwedByThread(f.thread) + Queued(f.queued)
  }

  function OwedByThread(thread: Thread): seq<Answer> {
    match thread
    case AcceptDelay(offer) => [Accepts(offer.sid)]
    case Declining(offer) => [Declines(offer.sid)]
    case _ => []
  }

  lemma ThreadOwes(f: Fields, e: Event, drawn: Sid)
    requires Enabled(f, e) && OfThread(e)
    ensures DecisionOf(f, e) == []
    ensures OwedByThread(f.thread) == AnswerOf(f, e) + OwedByThread(Move(f, e, drawn).thread)
  {
  }

  lemma QueuedSnoc(jobs: seq<Job>, job: Job)
    ensures Queued(jobs + [job]) == Queued(jobs) + Queued([job])
  {
  }

  lemma AcceptingOwes(f: Fields)
    requires StationInv(f)
    ensures Owed(AcceptPending(f)) == Owed(f) + DecisionOf(f, PressAccept)
  {
    if f.pending.Some? {
      assert Queued([AcceptJob(f.pending.value)]) == [Accepts(f.pending.value.sid)];
      hide Queued;
      QueuedSnoc(f.queued, AcceptJob(f.pending.value));
    }
  }

  lemma DecliningOwes(f: Fields)
    ensures Owed(DeclinePending(f)) == Owed(f) + DecisionOf(f, PressDecline)
  {
    if f.pending.Some? {
      QueuedSnoc(f.queued, DeclineJob(f.pending.value));
    }
  }

  lemma HearingOwes(f: Fields, frame: Frame, named: bool, open: bool)
    requires StationInv(f) && f.Listening()
    ensures Owed(Handle(f, frame, named, open)) == Owed(f) + DecisionOf(f, Hear(frame, named, open))
  {
    if frame.OfferFrame? && open && !f.IsBusy() {
      var kept := f.(pending := Some(frame.offer));
      AcceptingOwes(kept);
      hide Queued, AcceptPending;
    }
  }

  lemma StartingOwes(f: Fields)
    requires StationInv(f) && f.thread.Idle? && f.queued != []
    ensures Owed(StartJob(f.(queued := f.queued[1..]), f.queued[0])) == Owed(f)
  {
    assert Queued(f.queued) == Queued(f.queued[..1]) + Queued(f.queued[1..]);
  }

  lemma MoveKeepsOwed(f: Fields, e: Event, drawn: Sid)
    requires StationInv(f) && Enabled(f, e)
    ensures Owed(f) + DecisionOf(f, e) == AnswerOf(f, e) + Owed(Move(f, e, drawn))
  {
    hide Queued, DecisionOf, OwedByThread;
    match e
    case Hear(frame, named, open) => HearingOwes(f, frame, named, open);
    case PressAccept => AcceptingOwes(f);
    case PressDecline => DecliningOwes(f);
    case StartQueued => NothingDecided(f);
    case _ =>
      ThreadAdds(f, e, drawn);
      ThreadOwes(f, e, drawn);
      hide Move, AnswerOf;
  }

  lemma NothingDecided(f: Fields)
    requires StationInv(f) && Enabled(f, StartQueued)
    ensures DecisionOf(f, StartQueued) == [] && Owed(Move(f, StartQueued, 0)) == Owed(f)
    ensures forall drawn: Sid :: Move(f, StartQueued, drawn) == Move(f, StartQueued, 0)
  {
    StartingOwes(f);
  }

  lemma {:induction false} OwedAlong(f: Fields, moves: seq<(Event, Sid)>, g: Fields)
    requires StationInv(f) && Evolves(f, moves, g)
    ensures Owed(f) + Decisions(f, moves) == Answers(f, moves) + Owed(g)
    decreases |moves|
  {
    if moves != [] {
      var (e, drawn) := moves[0];
      var next := Move(f, e, drawn);
      MoveKeeps(f, e, drawn);
      MoveKeepsOwed(f, e, drawn);
      OwedAlong(next, moves[1..], g);
      hide *;
      Regrouped(Owed(f), DecisionOf(f, e), AnswerOf(f, e), Owed(next), Decisions(next, moves[1..]),
                Answers(next, moves[1..]), Owed(g));
    }
  }

  lemma Regrouped(a: seq<Answer>, d: seq<Answer>, n: seq<Answer>, b: seq<Answer>, ds: seq<Answer>, ns: seq<Answer>,
                  c: seq<Answer>)
    requires a + d == n + b && b + ds == ns + c
    ensures a + (d + ds) == (n + ns) + c
  {
    calc {
      a + (d + ds);
      (a + d) + ds;
      n + (b + ds);
      (n + ns) + c;
    }
  }

  /** In every history the accepts and declines a station has sent are its decisions, in order and each once, except
      for the latest ones, which its payload thread still has in hand. */
  lemma DecisionsAreAnswered(moves: seq<(Event, Sid)>, g: Fields)
    requires Evolves(InitialFields(), moves, g)
    ensures Decisions(InitialFields(), moves) == Answers(InitialFields(), moves) + Owed(g)
  {
    OwedAlong(InitialFields(), moves, g);
  }

  // ----- When an offer counts as accepted -----

  function NotedAfter(f: Fields, e: Event, noted: bool): bool {
    match e
    case Arm => false
    case Hear(AcceptFrame(sid), _, _) => noted || f.OutboundIs(sid)
    case Hear(ReadyFrame(sid), _, _) => noted || f.OutboundIs(sid)
    case _ => noted
  }

  /** Whether the partner's accept or ready has been heard since the offer now outstanding was armed. */
  function Noted(f: Fields, moves: seq<(Event, Sid)>, noted: bool): bool
    decreases |moves|
  {
    if moves == [] || !Enabled(f, moves[0].0) then noted
    else
      Noted(Move(f, moves[0].0, moves[0].1), moves[1..], NotedAfter(f, moves[0].0, noted))
  }

  lemma MoveNotes(f: Fields, e: Event, drawn: Sid, noted: bool)
    requires StationInv(f) && Enabled(f, e) && (f.outbound.Some? ==> f.awaitingReady == noted)
    ensures var next := Move(f, e, drawn); next.outbound.Some? ==> next.awaitingReady == NotedAfter(f, e, noted)
  {
    if e.Hear? {
      HearingNotes(f, e.frame, e.named, e.open);
    } else if !e.Arm? {
      OthersNote(f, e, drawn);
    }
  }

  lemma HearingNotes(f: Fields, frame: Frame, named: bool, open: bool)
    ensures var next := Handle(f, frame, named, open);
      next.outbound.Some? ==>
        && f.outbound == next.outbound
        && next.awaitingReady == NotedAfter(f, Hear(frame, named, open), f.awaitingReady)
  {
  }

  lemma OthersNote(f: Fields, e: Event, drawn: Sid)
    requires Enabled(f, e) && !e.Hear? && !e.Arm?
    ensures var next := Move(f, e, drawn);
      next.outbound.Some? ==> f.outbound == next.outbound && next.awaitingReady == f.awaitingReady
  {
  }

  lemma {:induction false} NotedAlong(f: Fields, moves: seq<(Event, Sid)>, g: Fields, noted: bool)
    requires StationInv(f) && Evolves(f, moves, g) && (f.outbound.Some? ==> f.awaitingReady == noted)
    ensures g.outbound.Some? ==> g.awaitingReady == Noted(f, moves, noted)
    decreases |moves|
  {
    if moves != [] {
      var (e, drawn) := moves[0];
      MoveKeeps(f, e, drawn);
      MoveNotes(f, e, drawn, noted);
      hide Move, NotedAfter;
      NotedAlong(Move(f, e, drawn), moves[1..], g, NotedAfter(f, e, noted));
    }
  }

  /** While an offer is outstanding, the wait loop sees it as accepted if and only if the partner's accept, or its
      ready, has been heard since the offer was sent. */
  lemma AcceptedIffHeard(moves: seq<(Event, Sid)>, g: Fields)
    requires Evolves(InitialFields(), moves, g) && g.outbound.Some?
    ensures g.awaitingReady <==> Noted(InitialFields(), moves, false)
  {
    NotedAlong(InitialFields(), moves, g, false);
  }

  // ----- What a frame does to the transfer it belongs to -----

  /** A receiver reads away whatever is not a payload without noticing; the first payload ends its receive. */
  lemma ReceiverTakesThePayload(f: Fields, e: Event, drawn: Sid)
    requires f.thread.Receiving? && Enabled(f, e) && Takes(e).Some?
    ensures var next := Move(f, e, drawn);
      if Takes(e).value.PayloadFrame? then next.thread.Cleanup? && !next.busy && next.accepting == f.accepting
      else next == f
  {
  }

  /** A transfer goes on only behind a frame that the transport took: behind a failed one it is given up, and the
      station is as free as before. */
  lemma FailedFrameEndsTheTransfer(f: Fields, e: Event, drawn: Sid)
    requires StationInv(f) && Enabled(f, e) && (e.SendOffer? || e.SendAccept? || e.SendReady?)
    ensures var next := Move(f, e, drawn);
      && (e.ok ==> next.thread.OfferSent? || next.thread.ReadyGap? || (next.thread.Receiving? && next.busy))
      && (e.ok ==> next.thread.offer == f.thread.offer && next.accepting == f.accepting)
      && (!e.ok ==> next.thread == (if e.SendReady? then Cleanup else Idle))
      && (!e.ok ==> !next.busy && next.outbound.None? && next.lastCompleted == f.lastCompleted)
      && (!e.ok && e.SendAccept? ==> next.accepting.None?)
  {
  }

  // ----- The payload thread comes to rest, and is deaf only while it uses the link -----

  /** Moves in which the payload thread has the link to itself. */
  predicate OnTheLink(e: Event) {
    || e.SendOffer? || e.SendPayload? || e.SendAccept? || e.SendReady? || e.SendDecline?
    || e.ReceivePayload? || e.SkipStray? || e.ReceiveTimeout?
  }

  /** A station hears nothing exactly while its payload thread is at work on the link. */
  lemma DeafOnlyOnTheLink(f: Fields)
    ensures f.Listening() <==> forall e: Event :: OnTheLink(e) ==> !Enabled(f, e)
  {
    assert Enabled(f, SendOffer(true)) <==> f.thread.SendingOffer?;
    assert Enabled(f, SendPayload(true)) <==> f.thread.SendingPayload?;
    assert Enabled(f, SendAccept(true)) <==> f.thread.AcceptDelay?;
    assert Enabled(f, SendReady(true)) <==> f.thread.ReadyGap?;
    assert Enabled(f, SendDecline(true)) <==> f.thread.Declining?;
    assert Enabled(f, ReceiveTimeout) <==> f.thread.Receiving?;
  }

  /** How many moves the payload thread has left at most. */
  function MovesLeft(thread: Thread): nat {
    match thread
    case Idle => 0
    case SendingOffer(_, _) => 4
    case OfferSent(_, _) => 3
    case WaitingPartner(_, retransmitted) => if retransmitted then 1 else 2
    case AcceptDelay(_) => 4
    case ReadyGap(_) => 3
    case Receiving(_) => 2
    case _ => 1
  }

  /** A move with which a thread at work goes on; strays and announces come in between. */
  predicate GoesOn(e: Event) {
    OfThread(e) && !e.SkipStray? && !e.SendAnnounce?
  }

  /** However such a move turns out, it brings the thread nearer to rest. */
  lemma GoingOnIsProgress(f: Fields, e: Event, drawn: Sid)
    requires !f.thread.Idle? && GoesOn(e) && Enabled(f, e)
    ensures MovesLeft(Move(f, e, drawn).thread) < MovesLeft(f.thread)
  {
  }

  /** A thread that is not idle can go on. */
  lemma ThreadCanMove(f: Fields) returns (e: Event)
    requires !f.thread.Idle?
    ensures GoesOn(e) && Enabled(f, e)
  {
    match f.thread
    case SendingOffer(_, _) => e := SendOffer(true);
    case OfferSent(_, _) => e := Arm;
    case WaitingPartner(_, _) => e := if f.waiting && f.outbound.Some? then TimeoutWait else LeaveWait;
    case SendingPayload(_, _) => e := SendPayload(true);
    case AcceptDelay(_) => e := SendAccept(true);
    case ReadyGap(_) => e := SendReady(true);
    case Receiving(_) => e := ReceiveTimeout;
    case Cleanup => e := FinishInbound;
    case Declining(_) => e := SendDecline(true);
  }

  /** From every state of the invariant the payload thread comes to rest within its moves; an inbound session is then
      released, and no offer of the station's own is left. */
  lemma {:induction false} ThreadComesToRest(f: Fields) returns (moves: seq<(Event, Sid)>, g: Fields)
    requires StationInv(f)
    ensures Evolves(f, moves, g) && g.thread.Idle? && |moves| <= MovesLeft(f.thread) && g.outbound.None?
    ensures forall i :: 0 <= i < |moves| ==> GoesOn(moves[i].0)
    ensures IsInbound(f.thread) || f.thread.Cleanup? ==> g.accepting.None?
    decreases MovesLeft(f.thread)
  {
    if f.thread.Idle? {
      moves, g := [], f;
    } else {
      var e := ThreadCanMove(f);
      var next := Move(f, e, 0);
      MoveKeeps(f, e, 0);
      GoingOnIsProgress(f, e, 0);
      if IsInbound(f.thread) || f.thread.Cleanup? {
        InboundGoesOn(f, e);
      }
      var rest, end := ThreadComesToRest(next);
      hide Move, StationInv, OfThread;
      moves, g := [(e, 0)] + rest, end;
      assert moves[0] == (e, 0) && moves[1..] == rest;
    }
  }

  /** An inbound thread stays one, up to its cleanup, or releases its session. */
  lemma InboundGoesOn(f: Fields, e: Event)
    requires GoesOn(e) && Enabled(f, e) && (IsInbound(f.thread) || f.thread.Cleanup?)
    ensures var next := Move(f, e, 0);
      IsInbound(next.thread) || next.thread.Cleanup? || (next.thread.Idle? && next.accepting.None?)
  {
  }

  // ----- An idle station is free -----

  /** A busy station has its payload thread at work on a transfer, and a session being accepted is with the thread or
      queued for it. */
  ghost predicate AtWork(f: Fields) {
    && (f.busy ==>
          || f.thread.SendingOffer? || f.thread.OfferSent? || f.thread.SendingPayload? || f.thread.Receiving?
          || (f.thread.WaitingPartner? && f.outbound.Some?))
    && (f.accepting.Some? ==> IsInbound(f.thread) || f.thread.Cleanup? || !NoAcceptJob(f.queued))
  }

  lemma AcceptingIsAtWork(f: Fields)
    requires AtWork(f) && StationInv(f)
    ensures AtWork(AcceptPending(f))
  {
    var next := AcceptPending(f);
    if |next.queued| > |f.queued| {
      assert next.queued[|f.queued|].AcceptJob?;
    }
  }

  lemma DecliningIsAtWork(f: Fields)
    requires AtWork(f)
    ensures AtWork(DeclinePending(f))
  {
    if !NoAcceptJob(f.queued) {
      var i :| 0 <= i < |f.queued| && f.queued[i].AcceptJob?;
      assert DeclinePending(f).queued[i] == f.queued[i];
    }
  }

  lemma HearingIsAtWork(f: Fields, frame: Frame, named: bool, open: bool)
    requires AtWork(f) && StationInv(f) && f.Listening()
    ensures AtWork(Handle(f, frame, named, open))
  {
    if frame.OfferFrame? && !f.IsBusy() {
      AcceptingIsAtWork(f.(pending := Some(frame.offer)));
    }
  }

  lemma StartingIsAtWork(f: Fields)
    requires AtWork(f) && StationInv(f) && f.thread.Idle? && f.queued != []
    ensures AtWork(StartJob(f.(queued := f.queued[1..]), f.queued[0]))
  {
    if f.queued[0].DeclineJob? && !NoAcceptJob(f.queued) {
      var i :| 0 <= i < |f.queued| && f.queued[i].AcceptJob?;
      assert f.queued[1..][i - 1] == f.queued[i];
    }
  }

  lemma GoingOnIsAtWork(f: Fields, e: Event, drawn: Sid)
    requires AtWork(f) && StationInv(f) && OfThread(e) && Enabled(f, e)
    ensures AtWork(Move(f, e, drawn))
  {
    hide NoAcceptJob;
  }

  lemma {:induction false} HistoryIsAtWork(f: Fields, moves: seq<(Event, Sid)>, g: Fields)
    requires AtWork(f) && StationInv(f) && Evolves(f, moves, g)
    ensures AtWork(g)
    decreases |moves|
  {
    if moves != [] {
      var (e, drawn) := moves[0];
      MoveKeeps(f, e, drawn);
      match e {
        case Hear(frame, named, open) => HearingIsAtWork(f, frame, named, open);
        case PressAccept => AcceptingIsAtWork(f);
        case PressDecline => DecliningIsAtWork(f);
        case StartQueued => StartingIsAtWork(f);
        case _ => GoingOnIsAtWork(f, e, drawn);
      }
      hide AtWork, StationInv;
      HistoryIsAtWork(Move(f, e, drawn), moves[1..], g);
    }
  }

  /** In every history: a station whose payload thread is idle and has nothing queued is free to send, whatever became
      of its transfers. */
  lemma IdleStationIsFree(moves: seq<(Event, Sid)>, g: Fields, data: seq<byte>)
    requires Evolves(InitialFields(), moves, g) && g.thread.Idle? && g.queued == []
    ensures Enabled(g, StartSend(data))
  {
    HistoryIsAtWork(InitialFields(), moves, g);
  }
}
