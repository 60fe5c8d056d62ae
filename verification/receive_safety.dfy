/**
 Safety of the receive pipeline: whatever the interleaving of submitter, USB callback and
 writer, what the output stream has taken is the in-order concatenation of the chunks
 written so far, and a successful result means that it equals the payload.
 */
module ReceiveSafety {
  import opened Prelude
  import opened ReceivePipeline

  /** What the main thread alone keeps true, errors included. */
  ghost predicate Bookkeeping(c: Config, s: State) {
    && Shaped(c, s)
    && s.submitCount <= Chunks(c)
    && s.bytesSubmitted == Min(s.submitCount * CHUNK, |c.payload|)
    && s.nextComplete <= s.Completions() <= s.submitCount
    && s.bytesReceived == Min(s.nextComplete * CHUNK, |c.payload|)
    && s.active == s.submitCount - s.nextComplete <= c.depth
  }

  ghost predicate Finishing(s: State) {
    s.main == Closing || s.main == Draining || s.main == Joining || s.main == Returned
  }

  /** What each program point knows. */
  ghost predicate Control(c: Config, s: State) {
    && (s.error ==> Finishing(s))
    && (s.main == Consuming ==> s.bytesReceived < |c.payload| && s.nextComplete < s.submitCount)
    && (Finishing(s) && s.Clean() ==> s.bytesReceived == |c.payload|)
    && (s.recvAborted ==> !s.Clean())
    && (s.error && Finishing(s) && s.main != Closing ==> s.recvAborted)
    && (s.usbDone <==> s.main == Joining || s.main == Returned)
    && (s.main == Returned ==> s.writer == Stopped)
    && (s.writeError ==> s.writer == Stopped)
    && (s.writer == Stopped && !s.writeError ==> s.recvAborted || (s.usbDone && s.writeIdx >= s.submitCount))
  }

  /** The ring from the writer's slot to the last slot submitted: completed slots hold their chunk,
      then come the slots in flight, then the free ones. */
  ghost predicate Ring(c: Config, s: State)
    requires Shaped(c, s)
  {
    && s.writeIdx <= s.Completions() <= s.submitCount <= s.writeIdx + POOL
    && (s.writer == Wrote ==> s.writeIdx < s.Completions())
    && Loaded(c, s.slots, s.history, s.writeIdx, s.error)
    && Pending(c, s.slots, s.Completions(), s.submitCount)
    && Vacant(s.slots, s.submitCount, s.writeIdx + POOL)
  }

  ghost predicate Loaded(c: Config, slots: seq<Slot>, h: seq<Outcome>, from: nat, error: bool)
    requires |slots| == POOL
  {
    forall i: nat {:trigger SlotFor(slots, i)} :: from <= i < |h| ==>
      || (error && SlotFor(slots, i).state == Free)
      || Holds(c, SlotFor(slots, i), h[i], i)
  }

  ghost predicate Holds(c: Config, slot: Slot, outcome: Outcome, i: nat) {
    && slot.state == Ready
    && slot.realBytes == Want(c, i) <= |slot.buf|
    && slot.buf[..Want(c, i)] == outcome.data
  }

  ghost predicate Pending(c: Config, slots: seq<Slot>, from: nat, to: nat)
    requires |slots| == POOL
  {
    forall i: nat {:trigger SlotFor(slots, i)} :: from <= i < to ==>
      && SlotFor(slots, i).state == InFlight && SlotFor(slots, i).realBytes == Want(c, i)
      && (Want(c, i) < CHUNK ==> SlotFor(slots, i).buf == ZeroBuffer())
  }

  ghost predicate Vacant(slots: seq<Slot>, from: nat, to: nat)
    requires |slots| == POOL
  {
    forall i: nat {:trigger SlotFor(slots, i)} :: from <= i < to ==> SlotFor(slots, i).state == Free
  }

  /** Completions the consumer has not looked at yet still carry their own result: their
      slot has not been resubmitted, even if the writer has freed it. */
  ghost predicate Unread(c: Config, slots: seq<Slot>, h: seq<Outcome>, from: nat)
    requires |slots| == POOL
  {
    forall i: nat {:trigger SlotFor(slots, i)} :: from <= i < |h| ==>
      && SlotFor(slots, i).status == h[i].status
      && (SlotFor(slots, i).status == Completed ==> SlotFor(slots, i).actual >= Want(c, i))
  }

  ghost predicate History(c: Config, s: State) {
    && (forall i :: 0 <= i < |s.history| ==> |s.history[i].data| == Want(c, i))
    && (forall i :: 0 <= i < |s.history| ==> (s.history[i].status == Completed ==> s.history[i].data == Chunk(c, i)))
    && (forall i :: 0 <= i < s.nextComplete && i < |s.history| ==> s.history[i].status == Completed)
  }

  function Written(s: State): nat {
    s.writeIdx + if s.writer == Wrote then 1 else 0
  }

  function Data(h: seq<Outcome>): (d: seq<seq<byte>>)
    ensures |d| == |h| && forall i :: 0 <= i < |h| ==> d[i] == h[i].data
  {
    seq(|h|, i requires 0 <= i < |h| => h[i].data)
  }

  ghost predicate OnDisk(s: State) {
    Written(s) <= |s.history| && s.file == Flatten(Data(s.history[..Written(s)]))
  }

  ghost predicate Inv(c: Config, s: State) {
    && c.Valid()
    && Bookkeeping(c, s)
    && Control(c, s)
    && (!s.writeError ==> History(c, s) && Ring(c, s) && Unread(c, s.slots, s.history, s.nextComplete) && OnDisk(s))
  }

  lemma InitInv(c: Config)
    requires c.Valid()
    ensures Inv(c, Init(c))
  {
    assert Init(c).history[..0] == [];
  }

  /** Two transfers less than a pool apart never share a slot. */
  lemma SlotsApart(i: nat, j: nat)
    requires i < j + POOL && j < i + 2 * POOL && j != i && j != i + POOL
    ensures i % POOL != j % POOL
  {
  }

  lemma SlotReused(slots: seq<Slot>, i: nat)
    requires |slots| == POOL
    ensures SlotFor(slots, i + POOL) == SlotFor(slots, i)
  {
    assert (i + POOL) % POOL == i % POOL;
  }

  /** A step that rewrites the slot of transfer `i` is invisible to the transfers `lo..hi` around it. */
  lemma Frame(was: seq<Slot>, now: seq<Slot>, i: nat, lo: nat, hi: nat)
    requires |was| == |now| == POOL
    requires now == was[i % POOL := now[i % POOL]]
    requires lo <= hi ==> (i < lo && hi <= i + POOL) || hi <= i < lo + POOL || (i + POOL < lo && hi <= i + 2 * POOL)
    ensures forall j: nat {:trigger SlotFor(now, j)} :: lo <= j < hi ==> SlotFor(now, j) == SlotFor(was, j)
  {
    forall j: nat | lo <= j < hi
      ensures SlotFor(now, j) == SlotFor(was, j)
    {
      SlotsApart(i, j);
    }
  }

  /** The slot the consumer is about to look at carries the result of the transfer it waits for. */
  ghost predicate Current(c: Config, s: State)
    requires Shaped(c, s)
  {
    && s.nextComplete < s.Completions()
    && s.At(s.nextComplete).status == s.history[s.nextComplete].status
    && (s.At(s.nextComplete).status == Completed ==>
          Min(s.At(s.nextComplete).actual, |c.payload| - s.bytesReceived) == Want(c, s.nextComplete))
  }

  /** That slot has not been resubmitted: at most 32 transfers are active and the pool has 34 slots. */
  lemma InspectedSlotIsCurrent(c: Config, s: State)
    requires Inv(c, s) && s.main == Consuming && s.Clean() && s.At(s.nextComplete).state != InFlight
    ensures Current(c, s)
    ensures forall k: nat :: s.nextComplete < k < s.submitCount ==> k % POOL != s.nextComplete % POOL
  {
    forall k: nat | s.nextComplete < k < s.submitCount
      ensures k % POOL != s.nextComplete % POOL
    {
      SlotsApart(s.nextComplete, k);
    }
  }

  lemma SubmitBookkeeping(c: Config, s: State, e: Event)
    requires c.Valid() && Bookkeeping(c, s) && Enabled(c, s, e) && e.Submit?
    ensures Bookkeeping(c, Apply(c, s, e))
  {
  }

  lemma ConsumeBookkeeping(c: Config, s: State, e: Event)
    requires c.Valid() && Bookkeeping(c, s) && Enabled(c, s, e) && e.Consume? && Current(c, s)
    ensures Bookkeeping(c, Apply(c, s, e))
  {
    hide ZeroBuffer, Delivers, Claim, Fill, Chunk;
  }

  lemma OtherBookkeeping(c: Config, s: State, e: Event)
    requires c.Valid() && Bookkeeping(c, s) && Enabled(c, s, e) && !e.Submit? && !e.Consume?
    ensures Bookkeeping(c, Apply(c, s, e))
  {
  }

  lemma ControlStep(c: Config, s: State, e: Event)
    requires c.Valid() && Bookkeeping(c, s) && Control(c, s) && Enabled(c, s, e)
    requires e.Consume? ==> Current(c, s)
    ensures Control(c, Apply(c, s, e))
  {
  }

  lemma HistoryStep(c: Config, s: State, e: Event)
    requires Shaped(c, s) && History(c, s) && Enabled(c, s, e)
    requires e.Consume? ==> Current(c, s)
    requires e.Callback? ==>
      s.nextComplete <= s.Completions() && s.At(s.Completions()).realBytes == Want(c, s.Completions())
    ensures History(c, Apply(c, s, e))
  {
    var t := Apply(c, s, e);
    if e.Callback? {
      assert t.history[..|s.history|] == s.history;
    }
  }

  lemma SubmitRing(c: Config, s: State, e: Event)
    requires Bookkeeping(c, s) && Ring(c, s) && Enabled(c, s, e) && (e.Submit? || e.SubmitFails?)
    requires Shaped(c, Apply(c, s, e))
    ensures Ring(c, Apply(c, s, e))
  {
    var now := Apply(c, s, e).slots;
    SlotReused(s.slots, s.writeIdx);
    Frame(s.slots, now, s.submitCount, s.writeIdx, s.submitCount);
    Frame(s.slots, now, s.submitCount, s.submitCount + 1, s.writeIdx + POOL);
  }

  lemma ConsumeRing(c: Config, s: State)
    requires Bookkeeping(c, s) && Ring(c, s) && Enabled(c, s, Consume) && Current(c, s)
    requires c.Valid() && Shaped(c, Apply(c, s, Consume))
    ensures Ring(c, Apply(c, s, Consume))
  {
    hide ZeroBuffer, Delivers;
    var now := Apply(c, s, Consume).slots;
    if s.nextComplete >= s.writeIdx {
      Frame(s.slots, now, s.nextComplete, s.writeIdx, s.nextComplete);
      Frame(s.slots, now, s.nextComplete, s.nextComplete + 1, s.writeIdx + POOL);
    } else {
      BehindWriter(c, s);
    }
  }

  /** A consumer that is behind the writer touches a slot that is vacant by now. */
  lemma BehindWriter(c: Config, s: State)
    requires Bookkeeping(c, s) && Ring(c, s) && Enabled(c, s, Consume) && Current(c, s)
    requires c.Valid() && Shaped(c, Apply(c, s, Consume)) && s.nextComplete < s.writeIdx
    ensures Ring(c, Apply(c, s, Consume))
  {
    hide ZeroBuffer, Delivers;
    var now := Apply(c, s, Consume).slots;
    var i := s.nextComplete + POOL;
    SlotReused(s.slots, s.nextComplete);
    SlotReused(now, s.nextComplete);
    Frame(s.slots, now, s.nextComplete, s.writeIdx, i);
    Frame(s.slots, now, s.nextComplete, i + 1, s.writeIdx + POOL);
  }

  lemma CallbackRing(c: Config, s: State, e: Event)
    requires Bookkeeping(c, s) && Ring(c, s) && Enabled(c, s, e) && e.Callback?
    requires Shaped(c, Apply(c, s, e))
    ensures Ring(c, Apply(c, s, e))
  {
    var now := Apply(c, s, e).slots;
    Frame(s.slots, now, s.Completions(), s.writeIdx, s.Completions());
    Frame(s.slots, now, s.Completions(), s.Completions() + 1, s.writeIdx + POOL);
  }

  lemma FreeRing(c: Config, s: State)
    requires Bookkeeping(c, s) && Ring(c, s) && Enabled(c, s, FreeSlot)
    requires Shaped(c, Apply(c, s, FreeSlot))
    ensures Ring(c, Apply(c, s, FreeSlot))
  {
    var now := Apply(c, s, FreeSlot).slots;
    Frame(s.slots, now, s.writeIdx, s.writeIdx + 1, s.writeIdx + POOL);
    SlotReused(now, s.writeIdx);
  }

  lemma SubmitUnread(c: Config, s: State, e: Event)
    requires Bookkeeping(c, s) && Unread(c, s.slots, s.history, s.nextComplete)
    requires c.Valid() && Enabled(c, s, e) && (e.Submit? || e.SubmitFails?)
    ensures Unread(c, Apply(c, s, e).slots, s.history, s.nextComplete)
  {
    Frame(s.slots, Apply(c, s, e).slots, s.submitCount, s.nextComplete, s.submitCount);
  }

  lemma ConsumeUnread(c: Config, s: State)
    requires Bookkeeping(c, s) && Unread(c, s.slots, s.history, s.nextComplete)
    requires c.Valid() && Enabled(c, s, Consume) && Current(c, s)
    ensures var t := Apply(c, s, Consume); Unread(c, t.slots, t.history, t.nextComplete)
  {
    Frame(s.slots, Apply(c, s, Consume).slots, s.nextComplete, s.nextComplete + 1, s.submitCount);
  }

  lemma CallbackUnread(c: Config, s: State, e: Event)
    requires Bookkeeping(c, s) && Unread(c, s.slots, s.history, s.nextComplete)
    requires c.Valid() && Enabled(c, s, e) && e.Callback?
    ensures var t := Apply(c, s, e); Unread(c, t.slots, t.history, t.nextComplete)
  {
    Frame(s.slots, Apply(c, s, e).slots, s.Completions(), s.nextComplete, s.Completions());
  }

  /** The writer may have run ahead of the consumer; freeing a slot touches only its state. */
  lemma FreeUnread(c: Config, s: State)
    requires Bookkeeping(c, s) && Unread(c, s.slots, s.history, s.nextComplete)
    requires c.Valid() && Enabled(c, s, FreeSlot)
    ensures Unread(c, Apply(c, s, FreeSlot).slots, s.history, s.nextComplete)
  {
    var now := Apply(c, s, FreeSlot).slots;
    forall i: nat
      ensures SlotFor(now, i).status == SlotFor(s.slots, i).status
      ensures SlotFor(now, i).actual == SlotFor(s.slots, i).actual
    {
    }
  }

  /** One more written chunk extends the file by its data. */
  lemma DataSnoc(h: seq<Outcome>, n: nat)
    requires n < |h|
    ensures Flatten(Data(h[..n + 1])) == Flatten(Data(h[..n])) + h[n].data
  {
    assert h[..n + 1] == h[..n] + [h[n]];
    DataAppend(h[..n], h[n]);
    FlattenSnoc(Data(h[..n]), h[n].data);
  }

  lemma DataAppend(h: seq<Outcome>, x: Outcome)
    ensures Data(h + [x]) == Data(h) + [x.data]
  {
  }

  lemma WritingIsOnDisk(c: Config, s: State)
    requires Shaped(c, s) && Ring(c, s) && OnDisk(s) && Enabled(c, s, WriteChunk)
    ensures OnDisk(Apply(c, s, WriteChunk))
  {
    hide Data, Flatten;
    DataSnoc(s.history, s.writeIdx);
    assert Holds(c, SlotFor(s.slots, s.writeIdx), s.history[s.writeIdx], s.writeIdx);
  }

  /** Whatever a transfer brings for a last, short chunk, and however it ends, no stale bytes are taken with it: what
      it did not bring is zero. */
  lemma ShortChunksHoldNoStaleBytes(c: Config, s: State, status: XferStatus, data: seq<byte>)
    requires Inv(c, s) && !s.writeError && Enabled(c, s, Callback(status, data))
    requires Want(c, s.Completions()) < CHUNK
    ensures var i, n := s.Completions(), Want(c, s.Completions());
      Apply(c, s, Callback(status, data)).history[i].data == (data + ZeroBuffer())[..n]
  {
    var slot := SlotFor(s.slots, s.Completions());
    assert slot.buf == ZeroBuffer();
    assert (data + ZeroBuffer())[..CHUNK] == Fill(slot.buf, data);
  }

  lemma OnDiskStep(c: Config, s: State, e: Event)
    requires Shaped(c, s) && Ring(c, s) && OnDisk(s) && Enabled(c, s, e) && !e.WriteFails?
    ensures OnDisk(Apply(c, s, e))
  {
    hide Data, Flatten, Delivers;
    if e.WriteChunk? {
      WritingIsOnDisk(c, s);
    } else if e.Callback? {
      assert Apply(c, s, e).history[..Written(s)] == s.history[..Written(s)];
    }
  }

  lemma RingStep(c: Config, s: State, e: Event)
    requires Inv(c, s) && Enabled(c, s, e) && !s.writeError && !e.WriteFails?
    requires Bookkeeping(c, Apply(c, s, e))
    requires e.Consume? ==> Current(c, s)
    ensures var t := Apply(c, s, e); Ring(c, t) && Unread(c, t.slots, t.history, t.nextComplete)
  {
    match e
    case Submit =>
      SubmitRing(c, s, e);
      SubmitUnread(c, s, e);
    case SubmitFails =>
      SubmitRing(c, s, e);
      SubmitUnread(c, s, e);
    case Consume =>
      ConsumeRing(c, s);
      ConsumeUnread(c, s);
    case Callback(_, _) =>
      CallbackRing(c, s, e);
      CallbackUnread(c, s, e);
    case FreeSlot =>
      FreeRing(c, s);
      FreeUnread(c, s);
    case _ =>
  }

  lemma StepKeepsInv(c: Config, s: State, e: Event)
    requires Inv(c, s) && Enabled(c, s, e)
    ensures Inv(c, Apply(c, s, e))
  {
    if e.Consume? {
      InspectedSlotIsCurrent(c, s);
      ConsumeBookkeeping(c, s, e);
    } else if e.Submit? {
      SubmitBookkeeping(c, s, e);
    } else {
      OtherBookkeeping(c, s, e);
    }
    ControlStep(c, s, e);
    if !Apply(c, s, e).writeError {
      RingStep(c, s, e);
      HistoryStep(c, s, e);
      OnDiskStep(c, s, e);
    }
  }
}
