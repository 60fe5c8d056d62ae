/**
 Listening on a `FabricLink`: generation-numbered polling chains, restarted by every mode change
 and suspended while something is being sent.  Polling chains and sends are coroutines; each method is
 one synchronous segment, and a send may throw at every await.
 */
module ListenLoop {
  import opened Prelude

  datatype Mode = Off | Always | Handshake

  /** A chain awaits its poll job (enqueued, reading from the device, or settled), sleeps between polls, or has
      left its loop with `finally` still to run. */
  datatype Chain = Enqueued | Reading | Answered | Sleeping | Done

  /** A send: its job has not begun, it prepares the bus, it transfers (`left` more transfers to go), or it is
      over; `finally` has run exactly when it is over after having begun. */
  datatype Send = NotBegun(transfers: nat) | Preparing(transfers: nat) | Transferring(left: nat) | Over(threw: bool)
  {
    predicate InTry() {
      Preparing? || Transferring?
    }
  }

  /** History of one send: the transfers it was called with, those it has made, and whether it threw. */
  datatype Record = Record(called: nat, made: nat, threw: bool)

  /** A send makes its transfers one by one: it is over without having thrown only once it has made them all, and
      one that has begun, has not thrown and has transfers left is still in its `try`. */
  predicate Accounted(s: Send, r: Record) {
    match s
    case NotBegun(transfers) => r == Record(transfers, 0, false)
    case Preparing(transfers) => r == Record(transfers, 0, false)
    case Transferring(left) => !r.threw && r.made > 0 && r.made + left == r.called
    case Over(threw) => r.threw == threw && r.made <= r.called && (!threw ==> r.made == r.called)
  }

  /** What the `try` block goes on to after an await that did not throw: the next transfer, if one is left. */
  function Onward(s: Send): Send
    requires s.InTry()
  {
    match s
    case Preparing(transfers) => if transfers == 0 then Over(false) else Transferring(transfers - 1)
    case Transferring(left) => if left == 0 then Over(false) else Transferring(left - 1)
  }

  /** The record of a send after an await: a send that transfers now has just begun a transfer. */
  ghost function Recorded(r: Record, next: Send): Record {
    if next.Transferring? then r.(made := r.made + 1) else r.(threw := r.threw || next == Over(true))
  }

  /** The record stays true of the send: without a rejection the `try` ends exactly when every transfer is made. */
  lemma RecordedKeeps(s: Send, r: Record, throws: bool)
    requires s.InTry() && Accounted(s, r)
    ensures var next := if throws then Over(true) else Onward(s);
      && Accounted(next, Recorded(r, next))
      && (!throws ==> (next == Over(false) <==> r.made == r.called))
      && (next.InTry() ==> next == Transferring(r.called - r.made - 1) && Recorded(r, next) == r.(made := r.made + 1))
      && next != Over(!throws) && !next.NotBegun?
  {
  }

  datatype Segment =
    | ModeSet(mode: Mode)
    | Watchdog
    | SendCalled(id: nat, transfers: nat)
    | SendBegins(id: nat, connected: bool)
    | SendResumes(id: nat, throws: bool)
    | PollRuns(generation: nat)
    | PollReturns(generation: nat)
    | PollSettles(generation: nat)
    | SleepEnds(generation: nat)
    | FinallyRuns(generation: nat)

  /** The sends between their `beginOutboundTransfer` and their `finally`. */
  function InTry(sends: map<nat, Send>): set<nat> {
    set id | id in sends && sends[id].InTry()
  }

  lemma EnterTry(sends: map<nat, Send>, id: nat, s: Send)
    requires s.InTry() && (id in sends ==> !sends[id].InTry())
    ensures |InTry(sends[id := s])| == |InTry(sends)| + 1
  {
    assert InTry(sends[id := s]) == InTry(sends) + {id};
  }

  lemma StayInTry(sends: map<nat, Send>, id: nat, s: Send)
    requires id in sends && s.InTry() == sends[id].InTry()
    ensures InTry(sends[id := s]) == InTry(sends)
  {
  }

  lemma LeaveTry(sends: map<nat, Send>, id: nat, s: Send)
    requires id in sends && sends[id].InTry() && !s.InTry()
    ensures |InTry(sends)| == |InTry(sends[id := s])| + 1
  {
    assert InTry(sends) == InTry(sends[id := s]) + {id};
  }

  /** Generations never go back: once a newer chain has polled, no older one polls again. */
  ghost predicate InOrder(log: seq<nat>) {
    forall i, j :: 0 <= i < j < |log| ==> log[i] <= log[j]
  }

  /** At most one poll has started since, of the generation that is now current. */
  ghost predicate PollsGrow(before: seq<nat>, now: seq<nat>, current: nat) {
    now == before || now == before + [current]
  }

  class ListenController {
    var listenMode: Mode
    var listenGeneration: nat
    var listenChainRunning: bool
    var listenSuspendedForSend: nat

    /** The polling coroutines that exist, by generation, and the sends that have been called. */
    var chains: map<nat, Chain>
    var sends: map<nat, Send>

    /** History: the generation of each poll in the order in which they start, and of each read from the device. */
    ghost var polls: seq<nat>
    ghost var fetched: seq<nat>
    ghost var records: map<nat, Record>

    /** A chain of the current generation that has not left its loop. */
    ghost predicate CurrentChainAlive()
      reads this
    {
      listenGeneration in chains && !chains[listenGeneration].Done?
    }

    ghost predicate ChainsOk()
      reads this
    {
      && (forall g :: g in chains ==> g <= listenGeneration)
      && (listenGeneration in chains ==> !chains[listenGeneration].Done?)
      && (listenChainRunning <==> CurrentChainAlive())
      && (listenMode == Off ==> !listenChainRunning)
    }

    ghost predicate LogsOk()
      reads this
    {
      && InOrder(polls) && InOrder(fetched)
      && (forall i :: 0 <= i < |polls| ==> polls[i] <= listenGeneration)
      && (forall i :: 0 <= i < |fetched| ==> fetched[i] <= listenGeneration)
    }

    /** Every send that has been called has made its transfers as far as it has got. */
    ghost predicate SendsAccounted()
      reads this`sends, this`records
    {
      records.Keys == sends.Keys && forall id :: id in sends ==> Accounted(sends[id], records[id])
    }

    ghost predicate Valid()
      reads this
    {
      && ChainsOk() && LogsOk() && SendsAccounted()
      && listenSuspendedForSend == |InTry(sends)|
      && (listenMode != Off && InTry(sends) == {} ==> listenChainRunning)
    }

    constructor ()
      ensures Valid() && listenMode == Off && sends == map[] && chains == map[] && polls == [] && fetched == []
    {
      listenMode, listenGeneration, listenChainRunning, listenSuspendedForSend := Off, 0, false, 0;
      chains, sends := map[], map[];
      polls, fetched, records := [], [], map[];
      new;
      assert InTry(sends) == {};
    }

    /** A chain enqueues its next poll. */
    ghost method StartsPoll(generation: nat)
      requires InOrder(polls) && forall i :: 0 <= i < |polls| ==> polls[i] <= generation
      modifies this`polls
      ensures polls == old(polls) + [generation] && InOrder(polls)
    {
      polls := polls + [generation];
    }

    method StopListenLoop()
      requires forall g :: g in chains ==> g <= listenGeneration
      modifies this`listenGeneration, this`listenChainRunning
      ensures listenGeneration == old(listenGeneration) + 1 && !listenChainRunning
    {
      listenGeneration := listenGeneration + 1;
      listenChainRunning := false;
    }

    /** The new chain runs up to its first poll at once; the loop guard holds as listening is on. */
    method StartListenLoop()
      requires (forall g :: g in chains ==> g <= listenGeneration) && LogsOk()
      requires listenMode != Off
      modifies this`listenGeneration, this`listenChainRunning, this`chains, this`polls
      ensures listenGeneration == old(listenGeneration) + 2 && listenChainRunning && LogsOk()
      ensures chains == old(chains)[listenGeneration := Enqueued] && polls == old(polls) + [listenGeneration]
    {
      StopListenLoop();
      listenGeneration := listenGeneration + 1;
      listenChainRunning := true;
      chains := chains[listenGeneration := Enqueued];
      StartsPoll(listenGeneration);
    }

    method SetListenMode(mode: Mode)
      requires Valid()
      modifies this`listenMode, this`listenGeneration, this`listenChainRunning, this`chains, this`polls
      ensures Valid() && listenMode == mode
      ensures old(listenGeneration) <= listenGeneration && PollsGrow(old(polls), polls, listenGeneration)
      ensures mode != Off ==> CurrentChainAlive()
      ensures mode == Off && old(listenMode) != Off ==> listenGeneration !in chains
      ensures old(listenChainRunning) && mode != Off && old(listenMode) != Off ==>
        listenGeneration == old(listenGeneration) && polls == old(polls)
    {
      var prev := listenMode;
      if mode == listenMode {
        if mode != Off && !listenChainRunning {
          StartListenLoop();
        }
        return;
      }
      listenMode := mode;
      if mode == Off {
        StopListenLoop();
      } else if prev == Off || !listenChainRunning {
        StartListenLoop();
      }
    }

    method EnsureListening()
      requires Valid()
      modifies this`listenGeneration, this`listenChainRunning, this`chains, this`polls
      ensures Valid() && (listenMode != Off ==> CurrentChainAlive())
      ensures old(listenGeneration) <= listenGeneration && PollsGrow(old(polls), polls, listenGeneration)
      ensures old(listenChainRunning) ==> listenGeneration == old(listenGeneration) && chains == old(chains)
    {
      if listenMode != Off && !listenChainRunning {
        StartListenLoop();
      }
    }

    /** Whatever polls at this moment becomes a chain of an older generation. */
    method BeginOutboundTransfer()
      requires forall g :: g in chains ==> g <= listenGeneration
      modifies this`listenSuspendedForSend, this`listenGeneration, this`listenChainRunning
      ensures listenSuspendedForSend == old(listenSuspendedForSend) + 1
      ensures listenGeneration == old(listenGeneration) + 1 && listenGeneration !in chains && !listenChainRunning
    {
      listenSuspendedForSend := listenSuspendedForSend + 1;
      StopListenLoop();
    }

    method EndOutboundTransfer()
      requires ChainsOk() && LogsOk()
      modifies this`listenSuspendedForSend, this`listenGeneration, this`listenChainRunning, this`chains, this`polls
      ensures ChainsOk() && LogsOk()
      ensures old(listenGeneration) <= listenGeneration && PollsGrow(old(polls), polls, listenGeneration)
      ensures listenSuspendedForSend == Max(0, old(listenSuspendedForSend) - 1)
      ensures listenMode != Off ==> CurrentChainAlive()
      ensures listenMode == Off ==> chains == old(chains) && listenGeneration == old(listenGeneration)
    {
      listenSuspendedForSend := Max(0, listenSuspendedForSend - 1);
      if listenMode != Off {
        StartListenLoop();
      }
    }

    /** `sendSessionMessage` (two transfers) or `sendPayload` (one and one per chunk): a job for the device. */
    method CallSend(id: nat, transfers: nat)
      requires Valid() && id !in sends
      modifies this`sends, this`records
      ensures Valid() && sends == old(sends)[id := NotBegun(transfers)]
      ensures records == old(records)[id := Record(transfers, 0, false)]
    {
      records := records[id := Record(transfers, 0, false)];
      assert InTry(sends[id := NotBegun(transfers)]) == InTry(sends);
      sends := sends[id := NotBegun(transfers)];
    }

    /** The job begins: without a device it throws before the `try`; otherwise it runs up to its first await. */
    method BeginSend(id: nat, connected: bool)
      requires Valid() && id in sends && sends[id].NotBegun?
      modifies this`sends, this`listenSuspendedForSend, this`listenGeneration, this`listenChainRunning, this`records
      ensures Valid() && chains == old(chains)
      ensures records == if connected then old(records) else old(records)[id := old(records)[id].(threw := true)]
      ensures sends == old(sends)[id := if connected then Preparing(old(sends)[id].transfers) else Over(true)]
      ensures listenGeneration == old(listenGeneration) + if connected then 1 else 0
      ensures connected ==> listenGeneration !in chains && listenSuspendedForSend > 0
    {
      if !connected {
        StayInTry(sends, id, Over(true));
        records := records[id := records[id].(threw := true)];
        sends := sends[id := Over(true)];
        return;
      }
      var s := Preparing(sends[id].transfers);
      EnterTry(sends, id, s);
      BeginOutboundTransfer();
      sends := sends[id := s];
    }

    /** The send goes on to `next`, or leaves its `try`, whose `finally` restarts listening. */
    method GoOn(id: nat, next: Send)
      requires Valid() && id in sends && sends[id].InTry()
      requires Accounted(next, Recorded(records[id], next)) && !next.NotBegun?
      modifies this`sends, this`listenSuspendedForSend, this`listenGeneration, this`listenChainRunning, this`chains
      modifies this`polls, this`records
      ensures Valid() && sends == old(sends)[id := next]
      ensures records == old(records)[id := Recorded(old(records)[id], next)]
      ensures next.Over? && listenMode != Off ==> CurrentChainAlive()
      ensures old(listenGeneration) <= listenGeneration && PollsGrow(old(polls), polls, listenGeneration)
      ensures next.Over? ==> listenSuspendedForSend == old(listenSuspendedForSend) - 1
      ensures !next.Over? ==> listenSuspendedForSend == old(listenSuspendedForSend) && chains == old(chains)
    {
      hide Accounted, Recorded, InOrder;
      if next.InTry() {
        StayInTry(sends, id, next);
      } else {
        LeaveTry(sends, id, next);
        EndOutboundTransfer();
      }
      records := records[id := Recorded(records[id], next)];
      sends := sends[id := next];
    }

    /** An await inside the `try` settles: on a rejection, or when the block is done, `finally` runs.  Without a
        rejection the send leaves its `try` exactly when it has made the transfers it was called with. */
    method ResumeSend(id: nat, throws: bool)
      requires Valid() && id in sends && sends[id].InTry()
      modifies this`sends, this`listenSuspendedForSend, this`listenGeneration, this`listenChainRunning, this`chains
      modifies this`polls, this`records
      ensures Valid()
      ensures id in sends && sends == old(sends)[id := sends[id]] && records == old(records)[id := records[id]]
      ensures throws ==> sends[id] == Over(true) && records[id] == old(records)[id].(threw := true)
      ensures !throws ==> (sends[id] == Over(false) <==> old(records)[id].made == old(records)[id].called)
      ensures !throws && !sends[id].Over? ==>
        && sends[id] == Transferring(records[id].called - records[id].made)
        && records[id] == old(records)[id].(made := old(records)[id].made + 1)
      ensures sends[id].Over? && listenMode != Off ==> CurrentChainAlive()
      ensures old(listenGeneration) <= listenGeneration && PollsGrow(old(polls), polls, listenGeneration)
      ensures sends[id].Over? ==> listenSuspendedForSend == old(listenSuspendedForSend) - 1
      ensures !sends[id].Over? ==> listenSuspendedForSend == old(listenSuspendedForSend) && chains == old(chains)
    {
      RecordedKeeps(sends[id], records[id], throws);
      hide Accounted, Onward, Recorded, ChainsOk, LogsOk;
      GoOn(id, if throws then Over(true) else Onward(sends[id]));
    }

    /** The body of a poll job: it reads from the device unless the chain is outdated or a send is in progress. */
    method PollBody(generation: nat) returns (goesOn: bool)
      requires Valid() && generation in chains && chains[generation].Enqueued?
      modifies this`chains, this`fetched
      ensures Valid() && chains == old(chains)[generation := if goesOn then Reading else Answered]
      ensures goesOn <==> generation == listenGeneration && listenMode != Off && InTry(sends) == {}
      ensures fetched == if goesOn then old(fetched) + [generation] else old(fetched)
    {
      goesOn := true;
      if generation != listenGeneration || listenMode == Off {
        goesOn := false;
      } else if listenSuspendedForSend > 0 {
        goesOn := false;
      }
      if goesOn {
        fetched := fetched + [generation];
      }
      chains := chains[generation := if goesOn then Reading else Answered];
    }

    /** The job settles: after its read, or at once when another listen job is queued. */
    method PollAnswers(generation: nat)
      requires Valid() && generation in chains && (chains[generation].Enqueued? || chains[generation].Reading?)
      modifies this`chains
      ensures Valid() && chains == old(chains)[generation := Answered]
    {
      chains := chains[generation := Answered];
    }

    /** A chain hears that its poll has settled: it leaves if it is outdated, otherwise it sleeps. */
    method AfterPoll(generation: nat)
      requires Valid() && generation in chains && chains[generation].Answered?
      modifies this`chains
      ensures Valid()
      ensures chains == old(chains)[generation := if generation == listenGeneration then Sleeping else Done]
    {
      chains := chains[generation := if generation != listenGeneration then Done else Sleeping];
    }

    /** The loop guard after the sleep. */
    method AfterSleep(generation: nat)
      requires Valid() && generation in chains && chains[generation].Sleeping?
      modifies this`chains, this`polls
      ensures Valid()
      ensures chains == old(chains)[generation := if generation == listenGeneration then Enqueued else Done]
      ensures polls == if generation == listenGeneration then old(polls) + [generation] else old(polls)
    {
      if generation == listenGeneration && listenMode != Off {
        chains := chains[generation := Enqueued];
        StartsPoll(generation);
      } else {
        chains := chains[generation := Done];
      }
    }

    /** The `finally` of a chain that has ended never touches the flag of a newer one. */
    method ChainFinally(generation: nat)
      requires Valid() && generation in chains && chains[generation].Done?
      modifies this`chains, this`listenChainRunning
      ensures Valid() && chains == old(chains) - {generation} && listenChainRunning == old(listenChainRunning)
    {
      listenChainRunning := listenChainRunning && listenGeneration != generation;
      chains := chains - {generation};
    }

    method RunSegment(s: Segment)
      requires Valid()
      modifies this
      ensures Valid() && old(polls) <= polls && old(fetched) <= fetched
      ensures old(listenGeneration) <= listenGeneration
      ensures PollsGrow(old(polls), polls, listenGeneration)
      ensures fetched == old(fetched) || (fetched == old(fetched) + [listenGeneration] && InTry(sends) == {})
    {
      match s
      case ModeSet(mode) => SetListenMode(mode);
      case Watchdog => EnsureListening();
      case SendCalled(id, transfers) => if id !in sends { CallSend(id, transfers); }
      case SendBegins(id, connected) => if id in sends && sends[id].NotBegun? { BeginSend(id, connected); }
      case SendResumes(id, throws) => if id in sends && sends[id].InTry() { ResumeSend(id, throws); }
      case PollRuns(g) => if g in chains && chains[g].Enqueued? { var _ := PollBody(g); }
      case PollReturns(g) => if g in chains && (chains[g].Enqueued? || chains[g].Reading?) { PollAnswers(g); }
      case PollSettles(g) => if g in chains && chains[g].Answered? { AfterPoll(g); }
      case SleepEnds(g) => if g in chains && chains[g].Sleeping? { AfterSleep(g); }
      case FinallyRuns(g) => if g in chains && chains[g].Done? { ChainFinally(g); }
    }

    /** Every interleaving of mode changes, watchdog ticks, chains and sends that may throw at every await: whenever
        no send is in its `try` and listening is on, a chain of the current generation is alive; the suspension
        counter is the number of sends in their `try`; polls and reads come in the order of their generations; and a
        send is over, without having thrown, exactly when it has made all its transfers and left its `try`. */
    method Interleave(segments: seq<Segment>)
      requires Valid()
      modifies this
      ensures Valid()
      ensures listenMode != Off && InTry(sends) == {} ==> CurrentChainAlive()
      ensures listenSuspendedForSend == |InTry(sends)|
      ensures InOrder(polls) && InOrder(fetched) && old(polls) <= polls
      ensures records.Keys == sends.Keys
      ensures forall id :: id in sends && sends[id] == Over(false) ==> records[id].made == records[id].called
      ensures forall id :: id in sends && !sends[id].NotBegun? && records[id].made < records[id].called ==>
        records[id].threw || sends[id].InTry()
      ensures forall i :: |old(polls)| <= i < |polls| ==> old(listenGeneration) <= polls[i] <= listenGeneration
    {
      for k := 0 to |segments|
        invariant Valid() && old(polls) <= polls && old(listenGeneration) <= listenGeneration
        invariant forall i :: |old(polls)| <= i < |polls| ==> old(listenGeneration) <= polls[i]
      {
        RunSegment(segments[k]);
      }
    }
  }
}
