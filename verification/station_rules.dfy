/**
 What one station keeps true under arbitrary incoming frames, arbitrary user input and any
 transport failures: it works on one inbound session at a time and never completes the same session
 twice in succession.
 */
module StationRules {
  import opened Prelude
  import opened Station

  predicate IsInbound(thread: Thread) {
    thread.AcceptDelay? || thread.ReadyGap? || thread.Receiving?
  }

  /** No accepted session is waiting in the queue. */
  ghost predicate NoAcceptJob(queued: seq<Job>) {
    forall i :: 0 <= i < |queued| ==> queued[i].DeclineJob?
  }

  /** Every accepted session in the queue is `sid`, and there is at most one. */
  ghost predicate OnlyAccepts(queued: seq<Job>, sid: Sid) {
    && (forall i :: 0 <= i < |queued| && queued[i].AcceptJob? ==> queued[i].offer.sid == sid)
    && (forall i, j :: 0 <= i < j < |queued| ==> queued[i].DeclineJob? || queued[j].DeclineJob?)
  }

  /** The accepted session, if any, is in exactly one place: the queue, the inbound thread or its cleanup.
      Nothing is pending meanwhile. */
  ghost predicate OneInbound(f: Fields) {
    && (f.accepting.None? ==> NoAcceptJob(f.queued) && !IsInbound(f.thread) && !f.thread.Cleanup?)
    && (f.accepting.Some? ==>
          && f.pending.None?
          && OnlyAccepts(f.queued, f.accepting.value)
          && (IsInbound(f.thread) || f.thread.Cleanup? ==> NoAcceptJob(f.queued))
          && (IsInbound(f.thread) ==> f.thread.offer.sid == f.accepting.value))
  }

  /** The session being accepted is not the one completed last. */
  ghost predicate NoRepeat(f: Fields) {
    f.accepting.Some? && !f.thread.Cleanup? ==> f.lastCompleted != f.accepting
  }

  /** An outstanding offer belongs to a live wait loop or to the payload being sent. */
  ghost predicate OutboundPlace(f: Fields) {
    && (f.outbound.Some? ==> f.busy && ((f.thread.WaitingPartner? && f.waiting) || f.thread.SendingPayload?))
    && (f.thread.SendingOffer? || f.thread.OfferSent? ==> f.busy && f.outbound.None?)
  }

  ghost predicate StationInv(f: Fields) {
    OneInbound(f) && NoRepeat(f) && OutboundPlace(f)
  }

  lemma AcceptPendingKeeps(f: Fields)
    requires StationInv(f)
    ensures StationInv(AcceptPending(f))
  {
  }

  lemma HandleKeeps(f: Fields, frame: Frame, named: bool, open: bool)
    requires StationInv(f) && f.Listening()
    ensures StationInv(Handle(f, frame, named, open))
  {
    if frame.OfferFrame? && !f.IsBusy() {
      AcceptPendingKeeps(f.(pending := Some(frame.offer)));
    }
  }

  lemma StartQueuedKeeps(f: Fields)
    requires StationInv(f) && f.thread.Idle? && f.queued != []
    ensures StationInv(StartJob(f.(queued := f.queued[1..]), f.queued[0]))
  {
  }

  lemma MoveKeeps(f: Fields, e: Event, drawn: Sid)
    requires StationInv(f) && Enabled(f, e)
    ensures StationInv(Move(f, e, drawn))
  {
    match e
    case Hear(frame, named, open) => HandleKeeps(f, frame, named, open);
    case PressAccept => AcceptPendingKeeps(f);
    case StartQueued => StartQueuedKeeps(f);
    case _ =>
  }

  /** `moves` is a history of moves, each with the session id it would have drawn. */
  ghost predicate Evolves(f: Fields, moves: seq<(Event, Sid)>, g: Fields)
    decreases |moves|
  {
    if moves == [] then f == g
    else Enabled(f, moves[0].0) && Evolves(Move(f, moves[0].0, moves[0].1), moves[1..], g)
  }

  /** The session ids saved along a history, in order. */
  ghost function SavedIds(f: Fields, moves: seq<(Event, Sid)>): seq<Sid>
    decreases |moves|
  {
    if moves == [] || !Enabled(f, moves[0].0) then []
    else
      (if Saves(f, moves[0].0).Some? then [Saves(f, moves[0].0).value.0] else [])
      + SavedIds(Move(f, moves[0].0, moves[0].1), moves[1..])
  }

  lemma {:induction false} EvolvesKeepsInv(f: Fields, moves: seq<(Event, Sid)>, g: Fields)
    requires StationInv(f) && Evolves(f, moves, g)
    ensures StationInv(g)
    decreases |moves|
  {
    if moves != [] {
      MoveKeeps(f, moves[0].0, moves[0].1);
      EvolvesKeepsInv(Move(f, moves[0].0, moves[0].1), moves[1..], g);
    }
  }

  /** Only a saved session changes which one was completed last, and it was another before. */
  lemma MoveSaves(f: Fields, e: Event, drawn: Sid)
    requires StationInv(f) && Enabled(f, e)
    ensures var saved := Saves(f, e);
      if saved.None? then Move(f, e, drawn).lastCompleted == f.lastCompleted
      else Move(f, e, drawn).lastCompleted == Some(saved.value.0) != f.lastCompleted
  {
  }

  /** The first session saved from here on is not the one completed last. */
  lemma {:induction false} NextSavedIsNew(f: Fields, moves: seq<(Event, Sid)>)
    requires StationInv(f)
    ensures var ids := SavedIds(f, moves);
      && (ids != [] ==> f.lastCompleted != Some(ids[0]))
      && forall i :: 0 <= i < |ids| - 1 ==> ids[i] != ids[i + 1]
    decreases |moves|
  {
    hide Move, Saves, Enabled, StationInv;
    if moves != [] && Enabled(f, moves[0].0) {
      MoveKeeps(f, moves[0].0, moves[0].1);
      MoveSaves(f, moves[0].0, moves[0].1);
      NextSavedIsNew(Move(f, moves[0].0, moves[0].1), moves[1..]);
    }
  }

  /** Whatever frames arrive, and whenever the user presses accept: the same session is never completed
      twice in succession, nothing is pending while a session is accepted, and the session
      being accepted is never queued for a restart. */
  lemma OneSessionAtATime(moves: seq<(Event, Sid)>, g: Fields)
    requires Evolves(InitialFields(), moves, g)
    ensures var ids := SavedIds(InitialFields(), moves); forall i :: 0 <= i < |ids| - 1 ==> ids[i] != ids[i + 1]
    ensures g.accepting.Some? ==> g.pending.None?
    ensures IsInbound(g.thread) ==> g.accepting == Some(g.thread.offer.sid) && NoAcceptJob(g.queued)
    ensures forall i, j :: 0 <= i < j < |g.queued| ==> !(g.queued[i].AcceptJob? && g.queued[j].AcceptJob?)
  {
    EvolvesKeepsInv(InitialFields(), moves, g);
    NextSavedIsNew(InitialFields(), moves);
  }
}
