/**
 Sender to disk: what either sender submits is what the streaming receiver may assume of the cable, so a
 successful receive saves the sent file, as far as the final flush of its stream does.
 */
module EndToEnd {
  import opened Prelude
  import opened ReceivePipeline
  import opened ReceiveRuns
  import Safety = ReceiveSafety
  import Header = FrameHeader
  import Sender = SendQueue
  import Wait = HeaderWait
  import Stream = PayloadStream
  import Delivery = PayloadDelivery

  /** One move of the receiver when the cable hands it `sent`, transfer by transfer; a failed transfer may
      hold anything. */
  predicate Offered(c: Config, s: State, e: Event, sent: seq<seq<byte>>)
    requires |s.slots| == POOL
  {
    && Possible(c, s, e)
    && (e.Callback? && e.status == Completed ==> s.Completions() < |sent| && e.data == sent[s.Completions()])
  }

  ghost predicate Relays(c: Config, s: State, events: seq<Event>, t: State, sent: seq<seq<byte>>)
    decreases |events|
  {
    if events == [] then s == t
    else Shaped(c, s) && Offered(c, s, events[0], sent) && Relays(c, Apply(c, s, events[0]), events[1..], t, sent)
  }

  /** Transfer `i` holds what the receiver's slot `i` wants. */
  predicate Supplies(c: Config, sent: seq<seq<byte>>) {
    forall i :: 0 <= i < |sent| ==> Delivers(c, i, Completed, sent[i])
  }

  lemma {:induction false} RelayedRunsAreRuns(c: Config, s: State, events: seq<Event>, t: State, sent: seq<seq<byte>>)
    requires Supplies(c, sent) && Relays(c, s, events, t, sent)
    ensures Leads(c, s, events, t)
    decreases |events|
  {
    if events != [] {
      RelayedRunsAreRuns(c, Apply(c, s, events[0]), events[1..], t, sent);
    }
  }

  // ----- The senders supply the chunks -----

  /** Chunk `i` of a payload is chunk `i - 1` of the payload without its first chunk. */
  lemma ChunkOfRest(c: Config, i: nat)
    requires i > 0 && |c.payload| > CHUNK
    ensures Chunk(c, i) == Chunk(Config(c.payload[CHUNK..], c.depth), i - 1)
  {
    var rest := c.payload[CHUNK..];
    if i * CHUNK < |c.payload| {
      var n := Want(c, i);
      assert c.payload[i * CHUNK..i * CHUNK + n] == rest[(i - 1) * CHUNK..(i - 1) * CHUNK + n];
    }
  }

  lemma {:induction false} PlainChunksAre(c: Config, i: nat)
    requires i < |Delivery.PlainChunks(c.payload)|
    ensures Delivery.PlainChunks(c.payload)[i] == Chunk(c, i)
    decreases i
  {
    var n := Min(|c.payload|, CHUNK);
    if i > 0 {
      var rest := Config(c.payload[n..], c.depth);
      assert Delivery.PlainChunks(c.payload)[i] == Delivery.PlainChunks(rest.payload)[i - 1];
      PlainChunksAre(rest, i - 1);
      ChunkOfRest(c, i);
    }
  }

  lemma PlainChunksSupply(c: Config)
    ensures Supplies(c, Delivery.PlainChunks(c.payload))
  {
    var sent := Delivery.PlainChunks(c.payload);
    forall i | 0 <= i < |sent| ensures Delivers(c, i, Completed, sent[i]) {
      PlainChunksAre(c, i);
      assert sent[i][..Want(c, i)] == sent[i];
    }
  }

  lemma {:induction false} PaddedChunksAre(payload: seq<byte>)
    ensures var plain, padded := Delivery.PlainChunks(payload), Stream.PaddedChunks(payload);
      && |padded| == |plain|
      && forall i :: 0 <= i < |plain| ==> |plain[i]| <= CHUNK && padded[i] == Stream.Fitted(plain[i], CHUNK)
  {
    if payload != [] {
      PaddedChunksAre(payload[Min(|payload|, CHUNK)..]);
    }
  }

  lemma PaddedChunksSupply(c: Config)
    ensures Supplies(c, Stream.PaddedChunks(c.payload))
  {
    PaddedChunksAre(c.payload);
    var plain, sent := Delivery.PlainChunks(c.payload), Stream.PaddedChunks(c.payload);
    forall i | 0 <= i < |sent| ensures Delivers(c, i, Completed, sent[i]) {
      PlainChunksAre(c, i);
      assert sent[i][..Want(c, i)] == plain[i];
    }
  }

  /** The buffers a send engine submitted for a whole file are the file's chunks. */
  lemma {:induction false} SubmittedAreTheChunks(file: seq<byte>, submitted: seq<seq<byte>>)
    requires Flatten(submitted) == file && Sender.FullReads(submitted, true)
    ensures submitted == Delivery.PlainChunks(file)
    decreases |submitted|
  {
    if submitted != [] {
      var rest := Flatten(submitted[1..]);
      FirstIsTheChunk(file, submitted);
      SubmittedAreTheChunks(rest, submitted[1..]);
    }
  }

  lemma FirstIsTheChunk(file: seq<byte>, submitted: seq<seq<byte>>)
    requires submitted != [] && Flatten(submitted) == file && Sender.FullReads(submitted, true)
    ensures var n := Min(|file|, CHUNK);
      file != [] && submitted[0] == file[..n] && Flatten(submitted[1..]) == file[n..]
  {
    var rest := submitted[1..];
    assert file == submitted[0] + Flatten(rest);
    if |submitted| == 1 {
      assert rest == [];
    }
  }

  /** Behind a full first chunk the others supply the rest. */
  lemma SuppliesRest(file: seq<byte>, sent: seq<seq<byte>>, depth: nat)
    requires sent != [] && |sent[0]| == CHUNK && sent[0] <= file
    ensures Supplies(Config(file, depth), sent) <==> Supplies(Config(file[CHUNK..], depth), sent[1..])
  {
    var c, rest := Config(file, depth), Config(file[CHUNK..], depth);
    assert Delivers(c, 0, Completed, sent[0]);
    forall i | 1 <= i < |sent|
      ensures Delivers(c, i, Completed, sent[i]) <==> Delivers(rest, i - 1, Completed, sent[1..][i - 1])
    {
      WantOfRest(c, i);
    }
    assert forall i :: 0 <= i < |sent| - 1 ==> sent[1..][i] == sent[i + 1];
  }

  lemma WantOfRest(c: Config, i: nat)
    requires i > 0 && |c.payload| >= CHUNK
    ensures Want(c, i) == Want(Config(c.payload[CHUNK..], c.depth), i - 1)
    ensures Chunk(c, i) == Chunk(Config(c.payload[CHUNK..], c.depth), i - 1)
  {
    if |c.payload| > CHUNK {
      ChunkOfRest(c, i);
    } else {
      assert Chunk(c, i) == [] == Chunk(Config(c.payload[CHUNK..], c.depth), i - 1);
    }
  }

  /** Reads that fill their buffers are not only enough: the engine's transfers are what the receiver may assume
      exactly when no read away from the end of the file was short. */
  lemma {:induction false} SupplyIffFullReads(file: seq<byte>, sent: seq<seq<byte>>, depth: nat)
    requires Flatten(sent) == file && forall i :: 0 <= i < |sent| ==> 0 < |sent[i]| <= CHUNK
    ensures Supplies(Config(file, depth), sent) <==> Sender.FullReads(sent, true)
    decreases |sent|
  {
    if sent != [] {
      var later := Flatten(sent[1..]);
      assert file == sent[0] + later;
      assert forall i :: 0 <= i < |sent| - 1 ==> sent[1..][i] == sent[i + 1];
      if |sent[0]| == CHUNK {
        assert file[CHUNK..] == later;
        SuppliesRest(file, sent, depth);
        SupplyIffFullReads(later, sent[1..], depth);
        FullReadsRest(sent);
      } else {
        ShortFirst(file, sent, depth);
      }
    }
  }

  lemma FullReadsRest(sent: seq<seq<byte>>)
    requires sent != [] && |sent[0]| == CHUNK
    ensures Sender.FullReads(sent, true) <==> Sender.FullReads(sent[1..], true)
  {
    var rest := sent[1..];
    assert forall i :: 0 <= i < |rest| ==> rest[i] == sent[i + 1];
    if Sender.FullReads(rest, true) {
      forall i | 1 <= i < |sent| ensures 0 < |sent[i]| <= CHUNK && (|sent[i]| == CHUNK || i == |sent| - 1) {
        assert sent[i] == rest[i - 1];
      }
    }
  }

  lemma ShortFirst(file: seq<byte>, sent: seq<seq<byte>>, depth: nat)
    requires sent != [] && file == sent[0] + Flatten(sent[1..]) && 0 < |sent[0]| < CHUNK
    requires forall i :: 0 <= i < |sent| ==> 0 < |sent[i]| <= CHUNK
    ensures Supplies(Config(file, depth), sent) <==> Sender.FullReads(sent, true)
  {
    var c := Config(file, depth);
    if |sent| == 1 {
      assert sent[1..] == [] && file == sent[0];
      assert sent[0][..Want(c, 0)] == Chunk(c, 0);
    } else {
      assert sent[1..][0] == sent[1];
      assert |file| >= |sent[0]| + |sent[1]|;
      assert Want(c, 0) > |sent[0]|;
      assert !Delivers(c, 0, Completed, sent[0]);
    }
  }

  // ----- End to end -----

  /** C++ to C++: the send engine submitted the whole file from full reads, the cable relays its transfers in
      order, and the receiver, under any interleaving, reports success: its stream took the sent file, which is saved
      as far as the final flush keeps it. */
  lemma SentFileIsSaved(file: seq<byte>, submitted: seq<seq<byte>>, depth: nat, events: seq<Event>, t: State)
    requires Flatten(submitted) == file && Sender.FullReads(submitted, true)
    requires var c := Config(file, depth); c.Valid() && Relays(c, Init(c), events, t, submitted) && t.ResultOk(c)
    ensures SavedButForTheFlush(t, events, file)
  {
    var c := Config(file, depth);
    SubmittedAreTheChunks(file, submitted);
    PlainChunksSupply(c);
    RelayedRunsAreRuns(c, Init(c), events, t, submitted);
    OkMeansFileIsPayload(c, events, t);
  }

  /** What the C++ sender puts on the cable: the header, then the transfers its engine submitted. */
  function OnCable(size: nat, name: seq<byte>, submitted: seq<seq<byte>>): seq<Stream.Transfer>
    requires size < Header.WORD64 && |name| <= Header.NAME_MAX
  {
    [Stream.Arrived(Header.HeaderBytes(size, Header.PayloadFrame, name))] + Delivery.Arrivals(submitted)
  }

  /** From the send engine through the header to the disk: once `Send` has reported success and every read away from
      the end of the file was full, a receiver behind any stray session frames of at most 256 KiB finds the header,
      learns the file's size, has the engine's transfers before it, and, if it reports success on them under any
      interleaving, has saved the engine's file as far as the final flush kept it. */
  lemma SendEngineToDisk(e: Sender.SendEngine, name: seq<byte>, strays: seq<seq<byte>>, passes: nat,
                         depth: nat, events: seq<Event>, t: State)
    requires e.Valid() && Flatten(e.submitted) == e.file && !e.shortRead
    requires |e.file| < Header.WORD64 && |name| <= Header.NAME_MAX
    requires Wait.Sized(strays) && |strays| < passes && forall i :: 0 <= i < |strays| ==> |strays[i]| <= Wait.MAX_STRAY
    ensures Wait.AwaitHeader(Wait.PAYLOAD, Wait.StrayWires(strays) + OnCable(|e.file|, name, e.submitted), passes)
         == Wait.FoundHeader(|e.file|, Delivery.Arrivals(e.submitted))
    ensures var c := Config(e.file, depth);
      c.Valid() && Relays(c, Init(c), events, t, e.submitted) && t.ResultOk(c) ==>
        SavedButForTheFlush(t, events, e.file)
  {
    Wait.HeaderFoundIffStraysAreSmall(strays, |e.file|, name, Delivery.Arrivals(e.submitted), passes);
    assert e.file[..e.bytesRead] == e.file;
    var c := Config(e.file, depth);
    if c.Valid() && Relays(c, Init(c), events, t, e.submitted) && t.ResultOk(c) {
      SentFileIsSaved(e.file, e.submitted, depth, events, t);
    }
  }

  /** TypeScript to C++: the zero padding behind the last chunk never reaches the file. */
  lemma SentPayloadIsSaved(payload: seq<byte>, depth: nat, events: seq<Event>, t: State)
    requires var c := Config(payload, depth);
      c.Valid() && Relays(c, Init(c), events, t, Stream.PaddedChunks(payload)) && t.ResultOk(c)
    ensures SavedButForTheFlush(t, events, payload)
  {
    var c := Config(payload, depth);
    PaddedChunksSupply(c);
    RelayedRunsAreRuns(c, Init(c), events, t, Stream.PaddedChunks(payload));
    OkMeansFileIsPayload(c, events, t);
  }

  // ----- Success is possible -----

  lemma {:induction false} PlainChunksCount(payload: seq<byte>, depth: nat)
    ensures |Delivery.PlainChunks(payload)| == Chunks(Config(payload, depth))
    decreases |payload|
  {
    if payload != [] {
      var n := Min(|payload|, CHUNK);
      PlainChunksCount(payload[n..], depth);
      assert |payload[n..]| == |payload| - n;
    }
  }

  /** The move of a receiver that gets on without failures, with what the cable brings. */
  lemma NextRelayed(c: Config, s: State, sent: seq<seq<byte>>) returns (e: Event)
    requires Safety.Inv(c, s) && s.main != Returned && Supplies(c, sent) && |sent| >= Chunks(c)
    ensures CanHappen(c, s, e) && Offered(c, s, e, sent) && (e.Close? ==> e.kept == |s.file|)
  {
    e := SomeActorCanMove(c, s);
    if e.Callback? {
      assert s.Completions() < |sent| && Delivers(c, s.Completions(), Completed, sent[s.Completions()]);
      e := Callback(Completed, sent[s.Completions()]);
    }
  }

  lemma SavedSoFar(c: Config, s: State, e: Event)
    requires Shaped(c, s) && Enabled(c, s, e) && s.main != Returned && (e.Close? ==> e.kept == |s.file|)
    ensures var next := Apply(c, s, e); next.main == Returned ==> next.saved == next.file
  {
    ClosingStep(c, s, e);
    assert s.file[..|s.file|] == s.file;
  }

  /** From every healthy state a run goes on to success. */
  lemma {:induction false} GoesOnToSuccess(c: Config, s: State, sent: seq<seq<byte>>)
    returns (events: seq<Event>, t: State)
    requires Safety.Inv(c, s) && Healthy(s) && Supplies(c, sent) && |sent| >= Chunks(c)
    requires s.main == Returned ==> s.saved == s.file
    ensures Relays(c, s, events, t, sent) && Smooth(events) && t.main == Returned && t.saved == t.file
    decreases Measure(c, s)
  {
    hide Apply, Possible, Delivers, Measure, Safety.Inv, Healthy, Supplies;
    if s.main == Returned {
      events, t := [], s;
    } else {
      var e := NextRelayed(c, s, sent);
      var next := Apply(c, s, e);
      Safety.StepKeepsInv(c, s, e);
      HealthyStep(c, s, e);
      EveryStepIsProgress(c, s, e);
      SavedSoFar(c, s, e);
      var rest, end := GoesOnToSuccess(c, next, sent);
      events, t := [e] + rest, end;
      assert events[0] == e && events[1..] == rest;
    }
  }

  /** For every file and every depth some run of the receiver, on what either sender puts on the cable, succeeds and
      saves the file whole: what the theorems above assume can be met. */
  lemma EveryFileCanBeSaved(file: seq<byte>, depth: nat, padded: bool) returns (events: seq<Event>, t: State)
    requires Config(file, depth).Valid()
    ensures
      var c := Config(file, depth);
      var sent := if padded then Stream.PaddedChunks(file) else Delivery.PlainChunks(file);
      Relays(c, Init(c), events, t, sent) && t.ResultOk(c) && t.saved == file
  {
    var c := Config(file, depth);
    var sent := if padded then Stream.PaddedChunks(file) else Delivery.PlainChunks(file);
    PlainChunksSupply(c);
    PaddedChunksSupply(c);
    PlainChunksCount(file, depth);
    PaddedChunksAre(file);
    Safety.InitInv(c);
    events, t := GoesOnToSuccess(c, Init(c), sent);
    RelayedRunsAreRuns(c, Init(c), events, t, sent);
    OkIffNothingFailed(c, events, t);
    OkMeansFileIsPayload(c, events, t);
  }
}
