/**
 Whole runs of the receive pipeline: what a returned result means, why the three actors
 cannot block each other, and why every run ends.
 */
module ReceiveRuns {
  import opened Prelude
  import opened ReceivePipeline
  import opened ReceiveSafety

  /** `events` leads from `s` to `t`, in this order of interleaving. */
  ghost predicate Leads(c: Config, s: State, events: seq<Event>, t: State)
    decreases |events|
  {
    if events == [] then s == t
    else Shaped(c, s) && Enabled(c, s, events[0]) && Leads(c, Apply(c, s, events[0]), events[1..], t)
  }

  /** A failure the engine can see: a refused submission, a failed transfer, a failed write to the stream. */
  predicate Fails(e: Event) {
    e.SubmitFails? || e.WriteFails? || (e.Callback? && e.status == Failed)
  }

  predicate Smooth(events: seq<Event>) {
    forall i :: 0 <= i < |events| ==> !Fails(events[i])
  }

  lemma {:induction false} LeadsKeepsInv(c: Config, s: State, events: seq<Event>, t: State)
    requires Inv(c, s) && Leads(c, s, events, t)
    ensures Inv(c, t)
    decreases |events|
  {
    if events != [] {
      StepKeepsInv(c, s, events[0]);
      LeadsKeepsInv(c, Apply(c, s, events[0]), events[1..], t);
    }
  }

  /** No failure so far, as far as the pipeline can tell. */
  ghost predicate Healthy(s: State) {
    s.Clean() && forall i :: 0 <= i < |s.history| ==> s.history[i].status == Completed
  }

  lemma HealthyStep(c: Config, s: State, e: Event)
    requires Inv(c, s) && Enabled(c, s, e) && Healthy(s) && !Fails(e)
    ensures Healthy(Apply(c, s, e))
  {
    if e.Consume? {
      InspectedSlotIsCurrent(c, s);
    }
  }

  lemma {:induction false} SmoothRunStaysHealthy(c: Config, s: State, events: seq<Event>, t: State)
    requires Inv(c, s) && Leads(c, s, events, t) && Healthy(s) && Smooth(events)
    ensures Healthy(t)
    decreases |events|
  {
    if events != [] {
      HealthyStep(c, s, events[0]);
      StepKeepsInv(c, s, events[0]);
      assert Smooth(events[1..]);
      SmoothRunStaysHealthy(c, Apply(c, s, events[0]), events[1..], t);
    }
  }

  /** A failure never goes away: it stays visible as an error or in the history. */
  lemma {:induction false} FailureIsRemembered(c: Config, s: State, events: seq<Event>, t: State)
    requires Inv(c, s) && Leads(c, s, events, t)
    requires !Healthy(s) || !Smooth(events)
    ensures !Healthy(t)
    decreases |events|
  {
    if events != [] {
      StepKeepsInv(c, s, events[0]);
      if !Healthy(s) || Fails(events[0]) {
        UnhealthyStep(c, s, events[0]);
      } else {
        TailFails(events);
      }
      FailureIsRemembered(c, Apply(c, s, events[0]), events[1..], t);
    }
  }

  lemma TailFails(events: seq<Event>)
    requires events != [] && !Smooth(events) && !Fails(events[0])
    ensures !Smooth(events[1..])
  {
    var i :| 0 <= i < |events| && Fails(events[i]);
    assert events[1..][i - 1] == events[i];
  }

  lemma UnhealthyStep(c: Config, s: State, e: Event)
    requires Inv(c, s) && Enabled(c, s, e) && (!Healthy(s) || Fails(e))
    ensures !Healthy(Apply(c, s, e))
  {
    var t := Apply(c, s, e);
    if e.Callback? && e.status == Failed {
      assert t.history[|s.history|].status == Failed;
    } else if s.Clean() && !Healthy(s) {
      var i :| 0 <= i < |s.history| && s.history[i].status != Completed;
      assert t.history[i] == s.history[i];
    }
  }

  /** What the writer has given the stream is a prefix of the payload, chunk by chunk. */
  lemma {:induction false} ChunksMakeThePayload(c: Config, d: seq<seq<byte>>, k: nat)
    requires k <= |d| && forall i :: 0 <= i < k ==> d[i] == Chunk(c, i)
    ensures Flatten(d[..k]) == c.payload[..Min(k * CHUNK, |c.payload|)]
  {
    if k > 0 {
      ChunksMakeThePayload(c, d, k - 1);
      FlattenSplit(d, k - 1);
      hide Flatten;
      OneMoreChunk(c, k - 1);
    }
  }

  lemma OneMoreChunk(c: Config, k: nat)
    ensures c.payload[..Min(k * CHUNK, |c.payload|)] + Chunk(c, k) == c.payload[..Min((k + 1) * CHUNK, |c.payload|)]
  {
  }

  // ----- The file, in every run -----

  /** A failed write leaves the chunks before it and the beginning of its own. */
  ghost predicate Torn(s: State) {
    && s.writer == Stopped && s.writeIdx < |s.history|
    && exists partial: nat :: EndsWithin(s, partial)
  }

  ghost predicate EndsWithin(s: State, partial: nat)
    requires s.writeIdx < |s.history|
  {
    && partial <= |s.history[s.writeIdx].data|
    && s.file == Flatten(Data(s.history[..s.writeIdx])) + s.history[s.writeIdx].data[..partial]
  }

  /** Transfers that completed brought their chunk, as far as the writer has come. */
  ghost predicate TrueChunks(c: Config, h: seq<Outcome>, n: nat) {
    forall i :: 0 <= i < n && i < |h| && h[i].status == Completed ==> h[i].data == Chunk(c, i)
  }

  ghost predicate DiskInv(c: Config, s: State) {
    s.writeError ==> Torn(s) && TrueChunks(c, s.history, s.writeIdx + 1)
  }

  lemma FailedWriteTears(c: Config, s: State, partial: nat)
    requires Inv(c, s) && Enabled(c, s, WriteFails(partial))
    ensures DiskInv(c, Apply(c, s, WriteFails(partial)))
  {
    hide Data, Flatten;
    var t := Apply(c, s, WriteFails(partial));
    assert Holds(c, SlotFor(s.slots, s.writeIdx), s.history[s.writeIdx], s.writeIdx);
    assert SlotFor(s.slots, s.writeIdx).buf[..partial] == s.history[s.writeIdx].data[..partial];
    assert EndsWithin(t, partial);
  }

  /** After a disk error nothing touches the file any more, while transfers may still complete. */
  lemma TornStays(c: Config, s: State, e: Event)
    requires Shaped(c, s) && s.writeError && DiskInv(c, s) && Enabled(c, s, e)
    ensures DiskInv(c, Apply(c, s, e))
  {
    hide Data, Flatten, Delivers;
    var t := Apply(c, s, e);
    var partial: nat :| EndsWithin(s, partial);
    assert t.history[..s.writeIdx] == s.history[..s.writeIdx];
    assert EndsWithin(t, partial);
  }

  lemma StepKeepsDisk(c: Config, s: State, e: Event)
    requires Inv(c, s) && DiskInv(c, s) && Enabled(c, s, e)
    ensures DiskInv(c, Apply(c, s, e))
  {
    if s.writeError {
      TornStays(c, s, e);
    } else if e.WriteFails? {
      FailedWriteTears(c, s, e.partial);
    }
  }

  lemma {:induction false} LeadsKeepsDisk(c: Config, s: State, events: seq<Event>, t: State)
    requires Inv(c, s) && DiskInv(c, s) && Leads(c, s, events, t)
    ensures Inv(c, t) && DiskInv(c, t)
    decreases |events|
  {
    hide Inv, DiskInv, Apply;
    if events != [] {
      StepKeepsInv(c, s, events[0]);
      StepKeepsDisk(c, s, events[0]);
      LeadsKeepsDisk(c, Apply(c, s, events[0]), events[1..], t);
    }
  }

  /** In every run, failures of any kind included, the file is the in-order concatenation of what was delivered
      for the chunks written so far; a failed write adds the beginning of the next one. */
  lemma FileIsWhatWasDelivered(c: Config, events: seq<Event>, t: State)
    requires c.Valid() && Leads(c, Init(c), events, t)
    ensures !t.writeError ==> Written(t) <= |t.history| && t.file == Flatten(Data(t.history[..Written(t)]))
    ensures t.writeError ==> Torn(t)
  {
    InitInv(c);
    LeadsKeepsDisk(c, Init(c), events, t);
  }

  /** The transfers whose data have reached the file, the one of a failed write included. */
  function Touched(s: State): nat {
    if s.writeError then s.writeIdx + 1 else Written(s)
  }

  /** So as long as those transfers completed, the file is a prefix of the payload, however the others and the
      disk fail; without a disk error it is exactly the chunks written. */
  lemma DiskIsAPrefix(c: Config, events: seq<Event>, t: State)
    requires c.Valid() && Leads(c, Init(c), events, t)
    requires forall i :: 0 <= i < Touched(t) && i < |t.history| ==> t.history[i].status == Completed
    ensures t.file <= c.payload
    ensures !t.writeError ==> t.file == c.payload[..Min(Written(t) * CHUNK, |c.payload|)]
  {
    InitInv(c);
    LeadsKeepsDisk(c, Init(c), events, t);
    if !t.writeError {
      WrittenAreTrue(c, t);
    }
    FilePrefix(c, t);
  }

  lemma WrittenAreTrue(c: Config, s: State)
    requires Inv(c, s) && !s.writeError
    ensures OnDisk(s) && TrueChunks(c, s.history, Written(s))
  {
  }

  lemma FilePrefix(c: Config, t: State)
    requires if t.writeError then DiskInv(c, t) else OnDisk(t) && TrueChunks(c, t.history, Written(t))
    requires forall i :: 0 <= i < Touched(t) && i < |t.history| ==> t.history[i].status == Completed
    ensures t.file <= c.payload
    ensures !t.writeError ==> t.file == c.payload[..Min(Written(t) * CHUNK, |c.payload|)]
  {
    if t.writeError {
      var partial: nat :| EndsWithin(t, partial);
      PrefixWithTear(c, t, partial);
    } else {
      WrittenPrefix(c, t.history, Written(t));
    }
  }

  lemma WrittenPrefix(c: Config, h: seq<Outcome>, n: nat)
    requires n <= |h| && TrueChunks(c, h, n) && forall i :: 0 <= i < n ==> h[i].status == Completed
    ensures Flatten(Data(h[..n])) == c.payload[..Min(n * CHUNK, |c.payload|)]
  {
    var d := Data(h[..n]);
    ChunksMakeThePayload(c, d, n);
    assert d[..n] == d;
  }

  lemma PrefixWithTear(c: Config, t: State, partial: nat)
    requires t.writeIdx < |t.history| && EndsWithin(t, partial) && TrueChunks(c, t.history, t.writeIdx + 1)
    requires forall i :: 0 <= i <= t.writeIdx ==> t.history[i].status == Completed
    ensures t.file <= c.payload
  {
    var n := t.writeIdx;
    WrittenPrefix(c, t.history, n);
    var tear := t.history[n].data[..partial];
    assert t.history[n].data == Chunk(c, n);
    if n * CHUNK < |c.payload| {
      assert tear == c.payload[n * CHUNK..n * CHUNK + partial];
      assert c.payload[..n * CHUNK] + tear == c.payload[..n * CHUNK + partial];
    } else {
      assert tear == [];
    }
  }

  lemma OkMeansAllConsumed(c: Config, t: State)
    requires Inv(c, t) && t.ResultOk(c)
    ensures t.nextComplete == t.submitCount == |t.history| == t.writeIdx == Chunks(c)
    ensures Healthy(t)
  {
  }

  predicate Over(s: State) {
    s.main == Returned && s.writer == Stopped
  }

  lemma ClosingStep(c: Config, s: State, e: Event)
    requires Shaped(c, s) && Enabled(c, s, e)
    ensures s.main == Returned ==> !Over(s) && Apply(c, s, e).main == Returned && !e.Close?
    ensures s.main != Returned ==> (e.Close? <==> Apply(c, s, e).main == Returned)
    ensures e.Close? ==> e.kept <= |s.file| && Apply(c, s, e) == s.(saved := s.file[..e.kept], main := Returned)
    ensures e.Close? ==> Over(Apply(c, s, e))
  {
  }

  /** A run closes its file once, as its last move, and keeps of what the stream took as much as the disk does. */
  lemma {:induction false} ClosedOnce(c: Config, s: State, events: seq<Event>, t: State)
    requires Leads(c, s, events, t) && t.main == Returned && s.main != Returned
    ensures events != [] && t.saved <= t.file && events[|events| - 1] == Close(|t.saved|)
    ensures forall i :: 0 <= i < |events| - 1 ==> !events[i].Close?
    decreases |events|
  {
    hide Apply, Possible, Delivers;
    var next := Apply(c, s, events[0]);
    ClosingStep(c, s, events[0]);
    if next.main != Returned {
      ClosedOnce(c, next, events[1..], t);
      assert events[1..][|events| - 2] == events[|events| - 1];
      assert forall i :: 1 <= i < |events| - 1 ==> events[i] == events[1..][i - 1];
    } else {
      NothingAfter(c, next, events[1..], t);
    }
  }

  lemma NothingAfter(c: Config, s: State, events: seq<Event>, t: State)
    requires Leads(c, s, events, t) && Over(s)
    ensures events == [] && t == s
  {
    hide Apply;
    if events != [] {
      ClosingStep(c, s, events[0]);
    }
  }

  /** The stream took exactly `data`, and the closed file holds all of it just when the final flush kept all. */
  predicate SavedButForTheFlush(t: State, events: seq<Event>, data: seq<byte>) {
    t.file == data && t.saved <= data && (t.saved == data <==> Close(|data|) in events)
  }

  /** For every interleaving: a successful result means that the stream took the payload, the whole payload and
      nothing else, and that the closed file is what the final flush, whose result nobody checks, kept of it. */
  lemma OkMeansFileIsPayload(c: Config, events: seq<Event>, t: State)
    requires c.Valid() && Leads(c, Init(c), events, t) && t.ResultOk(c)
    ensures SavedButForTheFlush(t, events, c.payload)
  {
    StreamTookThePayload(c, events, t);
    ClosedOnce(c, Init(c), events, t);
    if Close(|c.payload|) in events {
      var i :| 0 <= i < |events| && events[i] == Close(|c.payload|);
      assert i == |events| - 1;
      assert t.saved == c.payload[..|t.saved|];
    } else {
      assert events[|events| - 1] == Close(|t.saved|);
    }
  }

  lemma StreamTookThePayload(c: Config, events: seq<Event>, t: State)
    requires c.Valid() && Leads(c, Init(c), events, t) && t.ResultOk(c)
    ensures t.file == c.payload
  {
    InitInv(c);
    LeadsKeepsInv(c, Init(c), events, t);
    OkMeansAllConsumed(c, t);
    var d := Data(t.history[..Written(t)]);
    ChunksMakeThePayload(c, d, Written(t));
    assert d[..Written(t)] == d;
    assert c.payload[..|c.payload|] == c.payload;
  }

  /** A run that has returned succeeded exactly when no submission, transfer or write to the stream failed, whatever
      the final flush kept. */
  lemma OkIffNothingFailed(c: Config, events: seq<Event>, t: State)
    requires c.Valid() && Leads(c, Init(c), events, t) && t.main == Returned
    ensures t.ResultOk(c) <==> Smooth(events)
  {
    InitInv(c);
    LeadsKeepsInv(c, Init(c), events, t);
    if Smooth(events) {
      SmoothRunStaysHealthy(c, Init(c), events, t);
    } else {
      FailureIsRemembered(c, Init(c), events, t);
      if t.ResultOk(c) {
        OkMeansAllConsumed(c, t);
      }
    }
  }

  /** An event the threads or a working device produce by themselves; libusb only runs callbacks
      while the main thread is pumping events. */
  ghost predicate CanHappen(c: Config, s: State, e: Event) {
    Shaped(c, s) && Enabled(c, s, e) && !Fails(e) && (e.Callback? ==> s.main == Consuming)
  }

  /** While `try_submit` spins on a slot that is not free, the writer's own slot is ready. */
  lemma SpinningMeansWriterCanMove(c: Config, s: State)
    requires Inv(c, s) && s.main == Submitting && WantsSubmit(c, s) && !s.writeError
    requires s.At(s.submitCount).state != Free
    ensures CanHappen(c, s, WriteChunk) || CanHappen(c, s, FreeSlot)
  {
    assert s.submitCount == s.writeIdx + POOL;
    SlotReused(s.slots, s.writeIdx);
    assert Holds(c, SlotFor(s.slots, s.writeIdx), s.history[s.writeIdx], s.writeIdx);
  }

  /** No deadlock: until the main thread has returned, some actor can move, errors included. */
  lemma SomeActorCanMove(c: Config, s: State) returns (e: Event)
    requires Inv(c, s) && s.main != Returned
    ensures CanHappen(c, s, e) && (e.Close? ==> e.kept == |s.file|)
  {
    match s.main
    case Submitting =>
      if !WantsSubmit(c, s) {
        e := LeaveSubmit;
      } else if s.At(s.submitCount).state == Free {
        e := Submit;
      } else if s.writeError {
        e := SubmitSeesWriteError;
      } else {
        SpinningMeansWriterCanMove(c, s);
        e := if s.writer == Wrote then FreeSlot else WriteChunk;
      }
    case Consuming =>
      if s.writeError {
        e := ConsumeSeesWriteError;
      } else if s.At(s.nextComplete).state != InFlight {
        e := Consume;
      } else {
        e := AwaitedCompletion(c, s);
      }
    case Closing => e := RaiseAbort;
    case Draining => e := SetUsbDone;
    case Joining => e := WriterFinishes(c, s);
  }

  lemma AwaitedCompletion(c: Config, s: State) returns (e: Event)
    requires Inv(c, s) && s.main == Consuming && !s.writeError && s.At(s.nextComplete).state == InFlight
    ensures CanHappen(c, s, e)
  {
    var i := s.Completions();
    e := Callback(Completed, Chunk(c, i));
    SlotReused(s.slots, s.nextComplete);
    assert s.nextComplete == i;
    assert SlotFor(s.slots, i).state == InFlight;
  }

  lemma WriterFinishes(c: Config, s: State) returns (e: Event)
    requires Inv(c, s) && s.main == Joining
    ensures CanHappen(c, s, e) && (e.Close? ==> e.kept == |s.file|)
  {
    hide History, OnDisk, Delivers;
    if s.writer == Stopped {
      e := Close(|s.file|);
    } else if s.writer == Wrote {
      e := FreeSlot;
    } else if s.recvAborted || s.writeIdx >= s.submitCount {
      e := StopWriter;
    } else {
      e := WriteChunk;
      assert Holds(c, SlotFor(s.slots, s.writeIdx), s.history[s.writeIdx], s.writeIdx);
    }
  }

  /** Work left, counted in events. */
  function Measure(c: Config, s: State): (m: nat)
  {
    var n := Chunks(c);
    Max(0, n - s.submitCount) + 2 * Max(0, n - s.nextComplete) + Max(0, n - s.Completions())
    + 3 * Max(0, n - s.writeIdx)
    + (match s.main
       case Submitting => 5 case Consuming => 4 case Closing => 3
       case Draining => 2 case Joining => 1 case Returned => 0)
    + (match s.writer case Polling => 2 case Wrote => 1 case Stopped => 0)
  }

  lemma MainStepIsProgress(c: Config, s: State, e: Event)
    requires c.Valid() && Bookkeeping(c, s) && Control(c, s) && Enabled(c, s, e)
    requires e.Submit? || e.SubmitFails? || e.SubmitSeesWriteError? || e.LeaveSubmit? || e.Consume?
    requires e.Consume? ==> Current(c, s)
    requires Bookkeeping(c, Apply(c, s, e))
    ensures Measure(c, Apply(c, s, e)) < Measure(c, s)
  {
  }

  lemma OtherStepIsProgress(c: Config, s: State, e: Event)
    requires c.Valid() && Bookkeeping(c, s) && Enabled(c, s, e)
    requires !(e.Submit? || e.SubmitFails? || e.SubmitSeesWriteError? || e.LeaveSubmit? || e.Consume?)
    requires e.FreeSlot? ==> s.writeIdx < s.Completions()
    ensures Measure(c, Apply(c, s, e)) < Measure(c, s)
  {
  }

  lemma EveryStepIsProgress(c: Config, s: State, e: Event)
    requires Inv(c, s) && Enabled(c, s, e)
    ensures Measure(c, Apply(c, s, e)) < Measure(c, s)
  {
    if e.Consume? {
      InspectedSlotIsCurrent(c, s);
    }
    if e.Submit? || e.SubmitFails? || e.SubmitSeesWriteError? || e.LeaveSubmit? || e.Consume? {
      StepKeepsInv(c, s, e);
      MainStepIsProgress(c, s, e);
    } else {
      OtherStepIsProgress(c, s, e);
    }
  }

  lemma {:induction false} RunsAreBounded(c: Config, s: State, events: seq<Event>, t: State)
    requires Inv(c, s) && Leads(c, s, events, t)
    ensures |events| + Measure(c, t) <= Measure(c, s)
    decreases |events|
  {
    if events != [] {
      StepKeepsInv(c, s, events[0]);
      EveryStepIsProgress(c, s, events[0]);
      RunsAreBounded(c, Apply(c, s, events[0]), events[1..], t);
    }
  }

  /** Every run is finite, and one that no actor can extend has returned; without failures it
      has then saved the whole payload. */
  lemma EveryRunEnds(c: Config, events: seq<Event>, t: State)
    requires c.Valid() && Leads(c, Init(c), events, t)
    ensures |events| <= 7 * Chunks(c) + 7
    ensures (forall e :: !CanHappen(c, t, e)) ==> t.main == Returned
    ensures (forall e :: !CanHappen(c, t, e)) && Smooth(events) ==>
      t.ResultOk(c) && SavedButForTheFlush(t, events, c.payload)
  {
    InitInv(c);
    LeadsKeepsInv(c, Init(c), events, t);
    RunsAreBounded(c, Init(c), events, t);
    if t.main != Returned {
      var e := SomeActorCanMove(c, t);
    } else if Smooth(events) {
      OkIffNothingFailed(c, events, t);
      OkMeansFileIsPayload(c, events, t);
    }
  }

  // ----- A failed transfer, once seen, never reaches the file -----

  /** The engine has given up at transfer `i`, and the writer has not come to it. */
  ghost predicate GivenUpAt(s: State, i: nat) {
    && |s.slots| == POOL && s.error && Finishing(s)
    && s.At(i).state == Free && i < s.Completions() && Written(s) <= i
    && (s.writeError ==> s.writer == Stopped && s.writeIdx < i)
  }

  lemma StaysGivenUp(c: Config, s: State, i: nat, e: Event)
    requires Shaped(c, s) && Enabled(c, s, e) && GivenUpAt(s, i)
    ensures GivenUpAt(Apply(c, s, e), i)
  {
    hide Delivers, ZeroBuffer;
  }

  lemma {:induction false} RunStaysGivenUp(c: Config, s: State, i: nat, events: seq<Event>, t: State)
    requires Leads(c, s, events, t) && GivenUpAt(s, i)
    ensures GivenUpAt(t, i)
    decreases |events|
  {
    hide Apply, Possible, Delivers, GivenUpAt;
    if events != [] {
      StaysGivenUp(c, s, i, events[0]);
      RunStaysGivenUp(c, Apply(c, s, events[0]), i, events[1..], t);
    }
  }

  /** When the main thread looks at a transfer that failed, and the writer has not taken it yet, then in every run from
      there neither it nor anything behind it is written, not even in part. */
  lemma FailedTransferIsNeverWritten(c: Config, s: State, events: seq<Event>, t: State)
    requires Inv(c, s) && Enabled(c, s, Consume) && s.history[s.nextComplete].status == Failed
    requires Written(s) <= s.nextComplete && Leads(c, Apply(c, s, Consume), events, t)
    ensures t.error && Written(t) <= s.nextComplete && (t.writeError ==> t.writeIdx < s.nextComplete)
  {
    InspectedSlotIsCurrent(c, s);
    RunStaysGivenUp(c, Apply(c, s, Consume), s.nextComplete, events, t);
  }
}
