/**
 The streaming receive engine of `receive_file_core`: the main thread submits and
 consumes bulk reads over a ring of slots, the USB callback completes them, and
 a writer thread drains them to disk.  Every shared-memory access that another
 actor can observe is one step, so a run is any interleaving of the three actors.
 */
module ReceivePipeline {
  import opened Prelude

  const POOL: nat := QUEUE_DEPTH + 2

  datatype BufState = Free | InFlight | Ready

  datatype XferStatus = Completed | Failed

  datatype Slot = Slot(state: BufState, buf: seq<byte>, realBytes: nat, actual: nat, status: XferStatus)

  /** The ring slot that serves transfer number `i`. */
  function SlotFor(slots: seq<Slot>, i: nat): Slot
    requires |slots| == POOL
  {
    slots[i % POOL]
  }

  /** What one run is about: the payload announced by the header, and the depth the
      process may keep in flight. */
  datatype Config = Config(payload: seq<byte>, depth: nat)
  {
    predicate Valid() {
      1 <= depth <= QUEUE_DEPTH
    }
  }

  /** Where the main thread is.  `Submitting` is inside `try_submit`, `Consuming` waits for the next
      completion, `Closing` is past the loop, `Draining` follows the abort flag,
      `Joining` waits for the writer and closes the file. */
  datatype MainPc = Submitting | Consuming | Closing | Draining | Joining | Returned

  datatype WriterPc = Polling | Wrote | Stopped

  /** What a completed transfer reported; `data` is the part of the buffer the slot wanted.
      History only: no step reads it. */
  datatype Outcome = Outcome(status: XferStatus, data: seq<byte>)

  /** `file` is what the output stream has taken; `saved` is what is in the file once the stream is closed. */
  datatype State = State(
    slots: seq<Slot>,
    submitCount: nat,
    bytesSubmitted: nat,
    nextComplete: nat,
    bytesReceived: nat,
    active: int,
    error: bool,
    main: MainPc,
    writer: WriterPc,
    writeIdx: nat,
    writeError: bool,
    recvAborted: bool,
    usbDone: bool,
    file: seq<byte>,
    saved: seq<byte>,
    history: seq<Outcome>)
  {
    function At(i: nat): Slot
      requires |slots| == POOL
    {
      SlotFor(slots, i)
    }

    /** Transfers completed so far; one endpoint completes them in submission order. */
    function Completions(): nat {
      |history|
    }

    predicate Clean() {
      !error && !writeError
    }

    /** `result.ok` as computed once the writer has been joined. */
    predicate ResultOk(c: Config) {
      main == Returned && !error && !writeError && bytesReceived == |c.payload|
    }
  }

  /** Bytes transfer number `i` is for. */
  function Want(c: Config, i: nat): (n: nat)
    ensures n <= CHUNK
  {
    Max(0, Min(CHUNK, |c.payload| - i * CHUNK))
  }

  function Chunk(c: Config, i: nat): (d: seq<byte>)
    ensures |d| == Want(c, i)
  {
    if i * CHUNK >= |c.payload| then [] else c.payload[i * CHUNK..i * CHUNK + Want(c, i)]
  }

  function Chunks(c: Config): nat {
    (|c.payload| + CHUNK - 1) / CHUNK
  }

  function ZeroBuffer(): (buf: seq<byte>)
    ensures |buf| == CHUNK
  {
    seq(CHUNK, _ => 0 as byte)
  }

  function EmptySlot(): Slot {
    Slot(Free, ZeroBuffer(), 0, 0, Completed)
  }

  function Init(c: Config): State {
    State(seq(POOL, _ => EmptySlot()), 0, 0, 0, 0, 0, false, Submitting, Polling, 0, false, false, false, [], [], [])
  }

  /** One move of one actor.  Main thread: the first nine; USB: `Callback`; writer: the rest.  `Close` joins the
      writer, then flushes and closes the stream: how many bytes that keeps is up to the disk, and nobody looks. */
  datatype Event =
    | Submit
    | SubmitFails
    | SubmitSeesWriteError
    | LeaveSubmit
    | Consume
    | ConsumeSeesWriteError
    | RaiseAbort
    | SetUsbDone
    | Close(kept: nat)
    | Callback(status: XferStatus, data: seq<byte>)
    | WriteChunk
    | WriteFails(partial: nat)
    | FreeSlot
    | StopWriter

  /** The guard of the `while` in `try_submit`. */
  predicate WantsSubmit(c: Config, s: State) {
    s.active < c.depth && s.bytesSubmitted < |c.payload| && !s.error
  }

  /** A successful read delivers at least the bytes wanted for its slot; the sender may have padded
      the last one.  A failed read may leave anything in the buffer. */
  predicate Delivers(c: Config, i: nat, status: XferStatus, data: seq<byte>) {
    && |data| <= CHUNK
    && (status == Completed ==> Want(c, i) <= |data| && data[..Want(c, i)] == Chunk(c, i))
  }

  /** What the actors themselves need for a move; a transfer may bring any bytes that fit. */
  predicate Possible(c: Config, s: State, e: Event)
    requires |s.slots| == POOL
  {
    match e
    case Submit => s.main == Submitting && WantsSubmit(c, s) && s.At(s.submitCount).state == Free
    case SubmitFails => s.main == Submitting && WantsSubmit(c, s) && s.At(s.submitCount).state == Free
    case SubmitSeesWriteError =>
      s.main == Submitting && WantsSubmit(c, s) && s.At(s.submitCount).state != Free && s.writeError
    case LeaveSubmit => s.main == Submitting && !WantsSubmit(c, s)
    case Consume => s.main == Consuming && s.At(s.nextComplete).state != InFlight && !s.writeError
    case ConsumeSeesWriteError => s.main == Consuming && s.writeError
    case RaiseAbort => s.main == Closing
    case SetUsbDone => s.main == Draining
    case Close(kept) => s.main == Joining && s.writer == Stopped && kept <= |s.file|
    case Callback(status, data) =>
      && s.main != Returned
      && s.Completions() < s.submitCount
      && s.At(s.Completions()).state == InFlight
      && |data| <= CHUNK
    case WriteChunk => s.writer == Polling && s.At(s.writeIdx).state == Ready
    case WriteFails(partial) =>
      s.writer == Polling && s.At(s.writeIdx).state == Ready && partial <= s.At(s.writeIdx).realBytes
    case FreeSlot => s.writer == Wrote
    case StopWriter =>
      s.writer == Polling && (s.recvAborted || (s.usbDone && s.writeIdx >= s.submitCount))
  }

  predicate Enabled(c: Config, s: State, e: Event)
    requires |s.slots| == POOL
  {
    Possible(c, s, e) && (e.Callback? ==> Delivers(c, s.Completions(), e.status, e.data))
  }

  function WithSlot(s: State, i: nat, slot: Slot): State
    requires |s.slots| == POOL
  {
    s.(slots := s.slots[i % POOL := slot])
  }

  /** Take as many bytes of `data` as the buffer holds and leave the rest of the buffer as it was. */
  function Fill(buf: seq<byte>, data: seq<byte>): (r: seq<byte>)
    requires |data| <= |buf|
    ensures |r| == |buf| && r[..|data|] == data
  {
    data + buf[|data|..]
  }

  /** The buffer is zeroed before a read that wants less than a full chunk. */
  function Claim(c: Config, s: State): (slot: Slot)
    requires |s.slots| == POOL && s.bytesSubmitted <= |c.payload|
  {
    var was := s.At(s.submitCount);
    var wanted := Min(|c.payload| - s.bytesSubmitted, CHUNK);
    Slot(InFlight, if wanted < CHUNK then ZeroBuffer() else was.buf, wanted, was.actual, Completed)
  }

  /** Every slot owns a buffer of one chunk and never announces more than that. */
  predicate Shaped(c: Config, s: State) {
    && |s.slots| == POOL
    && (forall k :: 0 <= k < POOL ==>
          (|s.slots[k].buf| == CHUNK && s.slots[k].realBytes <= CHUNK && s.slots[k].actual <= CHUNK))
    && s.bytesSubmitted <= |c.payload|
    && s.bytesReceived <= |c.payload|
  }

  function Apply(c: Config, s: State, e: Event): State
    requires Shaped(c, s) && Possible(c, s, e)
  {
    match e
    case Submit =>
      var slot := Claim(c, s);
      WithSlot(s, s.submitCount, slot).(
        submitCount := s.submitCount + 1,
        bytesSubmitted := s.bytesSubmitted + slot.realBytes,
        active := s.active + 1)
    case SubmitFails =>
      WithSlot(s, s.submitCount, Claim(c, s).(state := Free)).(error := true, main := Closing)
    case SubmitSeesWriteError => s.(error := true, main := Closing)
    case LeaveSubmit =>
      s.(main := if s.bytesReceived < |c.payload| && !s.error && !s.writeError then Consuming else Closing)
    case Consume =>
      var slot := s.At(s.nextComplete);
      if slot.status != Completed then
        WithSlot(s, s.nextComplete, slot.(state := Free)).(error := true, main := Closing)
      else
        var wanted := Min(slot.actual, |c.payload| - s.bytesReceived);
        WithSlot(s, s.nextComplete, slot.(realBytes := wanted)).(
          bytesReceived := s.bytesReceived + wanted,
          active := s.active - 1,
          nextComplete := s.nextComplete + 1,
          main := Submitting)
    case ConsumeSeesWriteError =>
      s.(error := s.error || s.At(s.nextComplete).state == InFlight, main := Closing)
    case RaiseAbort => s.(recvAborted := s.error || s.writeError, main := Draining)
    case SetUsbDone => s.(usbDone := true, main := Joining)
    case Close(kept) => s.(saved := s.file[..kept], main := Returned)
    case Callback(status, data) =>
      var i := s.Completions();
      var slot := s.At(i);
      var filled := Fill(slot.buf, data);
      WithSlot(s, i, Slot(Ready, filled, slot.realBytes, |data|, status)).(
        history := s.history + [Outcome(status, filled[..slot.realBytes])])
    case WriteChunk =>
      var slot := s.At(s.writeIdx);
      s.(file := s.file + slot.buf[..slot.realBytes], writer := Wrote)
    case WriteFails(partial) =>
      var slot := s.At(s.writeIdx);
      WithSlot(s, s.writeIdx, slot.(state := Free)).(
        file := s.file + slot.buf[..partial], writeError := true, writer := Stopped)
    case FreeSlot =>
      WithSlot(s, s.writeIdx, s.At(s.writeIdx).(state := Free)).(writeIdx := s.writeIdx + 1, writer := Polling)
    case StopWriter => s.(writer := Stopped)
  }
}
