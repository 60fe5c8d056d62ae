/**
 Frames over the cable in TypeScript: `sendPayload`'s padded chunks, `receivePayloadBytes`, and
 `receiveFileTransfer`, which reads past session frames and empty payloads to the payload.  Each
 `transferOut` arrives as one `transferIn`.
 */
module PayloadStream {
  import opened Prelude
  import Header = FrameHeader
  import Text = SessionText

  const MAX_SKIPS: nat := 16
  const MAX_SESSION_BYTES: nat := 65536

  datatype Transfer = Arrived(data: seq<byte>) | Broken

  datatype InResult = Data(data: seq<byte>) | Bad | Never

  datatype ReceiveError = HeaderTimeout | TransferFailed | NoData | BadHeader(header: Header.HeaderError) | WrongSize

  datatype Outcome = Received(data: seq<byte>, filename: Header.Text) | Failed(error: ReceiveError) | Hangs

  /** What a run of `transferIn` calls took off the cable. */
  datatype Taken =
    | Got(bytes: seq<byte>, rest: seq<Transfer>)
    | Stopped(error: ReceiveError, rest: seq<Transfer>)
    | Starved

  datatype Run = Run(outcome: Outcome, emitted: seq<Text.Message>, rest: seq<Transfer>)

  /** `'download.bin'` */
  const DEFAULT_NAME: Header.Text := [0x64, 0x6f, 0x77, 0x6e, 0x6c, 0x6f, 0x61, 0x64, 0x2e, 0x62, 0x69, 0x6e]

  // ----- What the calls mean -----

  /** A transfer longer than the buffer offered is reported as `babble`. */
  function TakeOne(queue: seq<Transfer>, room: nat): InResult {
    if queue == [] then Never
    else if queue[0].Broken? || |queue[0].data| > room then Bad
    else Data(queue[0].data)
  }

  function Prepend(bytes: seq<byte>, taken: Taken): Taken {
    if taken.Got? then taken.(bytes := bytes + taken.bytes) else taken
  }

  /** `transferInExact`. */
  function Exactly(queue: seq<Transfer>, n: nat): (t: Taken)
    ensures t.Got? ==> |t.bytes| == n && |t.rest| <= |queue|
    decreases |queue|
  {
    if n == 0 then Got([], queue)
    else
      match TakeOne(queue, n)
      case Never => Starved
      case Bad => Stopped(TransferFailed, queue[1..])
      case Data(data) =>
        if data == [] then Stopped(NoData, queue[1..])
        else Prepend(data, Exactly(queue[1..], n - |data|))
  }

  /** `receivePayloadBytes`: waits without a limit, and lets the last chunk be longer than needed. */
  function Body(queue: seq<Transfer>, size: nat): (t: Taken)
    ensures t.Got? ==> |t.bytes| == size && |t.rest| <= |queue|
    decreases |queue|
  {
    if size == 0 then Got([], queue)
    else
      match TakeOne(queue, CHUNK)
      case Never => Starved
      case Bad => Stopped(TransferFailed, queue[1..])
      case Data(data) =>
        var take := Min(|data|, size);
        Prepend(data[..take], Body(queue[1..], size - take))
  }

  function Emit(decode: seq<byte> -> string, body: seq<byte>): seq<Text.Message> {
    match Text.Reading(Text.TypeScript, decode(body))
    case Read(m) => [m]
    case _ => []
  }

  function After(emitted: seq<Text.Message>, run: Run): Run {
    run.(emitted := emitted + run.emitted)
  }

  /** `receiveFileTransfer`; `passes` counts the loop checks that still find the deadline in the future. */
  function Receive(decode: seq<byte> -> string, queue: seq<Transfer>, passes: nat, skipped: nat, expected: int): Run
    decreases passes
  {
    if passes == 0 || skipped >= MAX_SKIPS then Run(Failed(HeaderTimeout), [], queue)
    else
      match Exactly(queue, Header.HEADER_SIZE)
      case Starved => Run(Failed(HeaderTimeout), [], [])
      case Stopped(e, rest) => Run(Failed(e), [], rest)
      case Got(bytes, rest) => HandleHeader(decode, Header.Parsed(bytes), rest, passes, skipped, expected)
  }

  function HandleHeader(decode: seq<byte> -> string, header: Result<Header.ParsedHeader, Header.HeaderError>,
                        queue: seq<Transfer>, passes: nat, skipped: nat, expected: int): Run
    requires passes > 0
    decreases passes, 0
  {
    match header
    case Err(e) => Run(Failed(BadHeader(e)), [], queue)
    case Ok(h) =>
      if h.kind == Header.SessionFrame then
        match Body(queue, h.fileSize)
        case Starved => Run(Hangs, [], [])
        case Stopped(e, rest) => Run(Failed(e), [], rest)
        case Got(body, rest) => After(Emit(decode, body), Receive(decode, rest, passes - 1, skipped + 1, expected))
      else if h.fileSize == 0 then Receive(decode, queue, passes - 1, skipped + 1, expected)
      else if expected > 0 && h.fileSize != expected then Run(Failed(WrongSize), [], queue)
      else
        match Body(queue, h.fileSize)
        case Starved => Run(Hangs, [], [])
        case Stopped(e, rest) => Run(Failed(e), [], rest)
        case Got(body, rest) => Run(Received(body, if h.filename == [] then DEFAULT_NAME else h.filename), [], rest)
  }

  // ----- The programs -----

  /** The cable as the link sees it. */
  class Device {
    var incoming: seq<Transfer>
    var outgoing: seq<seq<byte>>

    constructor (queue: seq<Transfer>)
      ensures incoming == queue && outgoing == []
    {
      incoming, outgoing := queue, [];
    }

    method TransferIn(room: nat) returns (r: InResult)
      modifies this`incoming
      ensures r == TakeOne(old(incoming), room)
      ensures incoming == if old(incoming) == [] then [] else old(incoming)[1..]
    {
      r := TakeOne(incoming, room);
      if incoming != [] {
        incoming := incoming[1..];
      }
    }

    method TransferOut(data: seq<byte>)
      modifies this`outgoing
      ensures outgoing == old(outgoing) + [data]
    {
      outgoing := outgoing + [data];
    }
  }

  /** The first `total` bytes, zero-padded when there are fewer. */
  function Fitted(s: seq<byte>, total: nat): (r: seq<byte>)
    ensures |r| == total
  {
    if |s| >= total then s[..total] else s + Header.Zeros(total - |s|)
  }

  lemma FittedPrefix(a: seq<byte>, b: seq<byte>, total: nat)
    requires |a| >= total
    ensures Fitted(a + b, total) == Fitted(a, total)
  {
  }

  lemma FittedGrows(a: seq<byte>, x: seq<byte>, total: nat)
    ensures var offset := Min(total, |a|);
      var take := Min(|x|, total - offset);
      Fitted(a, total)[..offset] + x[..take] + Fitted(a, total)[offset + take..] == Fitted(a + x, total)
  {
  }

  /** `concatChunks`: copies until the buffer is full. */
  method ConcatChunks(chunks: seq<seq<byte>>, total: nat) returns (r: seq<byte>)
    ensures r == Fitted(Flatten(chunks), total)
  {
    var out := new byte[total](_ => 0 as byte);
    var offset := 0;
    assert out[..] == Fitted([], total);
    hide Flatten, Fitted;
    assert chunks[..0] == [] && Flatten<byte>([]) == [];
    for i := 0 to |chunks|
      invariant offset == Min(total, |Flatten(chunks[..i])|)
      invariant out[..] == Fitted(Flatten(chunks[..i]), total)
    {
      var take := Min(|chunks[i]|, total - offset);
      FlattenSplit(chunks, i);
      FittedGrows(Flatten(chunks[..i]), chunks[i], total);
      Header.Store(out, offset, chunks[i][..take]);
      offset := offset + take;
      if offset >= total {
        FittedPrefix(Flatten(chunks[..i + 1]), Flatten(chunks[i + 1..]), total);
        return out[..];
      }
    }
    assert chunks[..|chunks|] == chunks;
    r := out[..];
  }

  method ReceiveExactly(device: Device, n: nat) returns (t: Taken)
    modifies device`incoming
    ensures t == Exactly(old(device.incoming), n)
    ensures device.incoming == match t case Starved => [] case _ => t.rest
  {
    var parts: seq<seq<byte>> := [];
    var received := 0;
    ghost var start := device.incoming;
    while received < n
      invariant received <= n && received == |Flatten(parts)|
      invariant Exactly(start, n) == Prepend(Flatten(parts), Exactly(device.incoming, n - received))
      decreases |device.incoming| + n - received
    {
      var r := device.TransferIn(n - received);
      match r
      case Never => return Starved;
      case Bad => return Stopped(TransferFailed, device.incoming);
      case Data(data) =>
        if data == [] {
          return Stopped(NoData, device.incoming);
        }
        FlattenSnoc(parts, data);
        Reassociate(Flatten(parts), data, Exactly(device.incoming, n - received - |data|));
        parts := parts + [data];
        received := received + |data|;
    }
    var bytes := ConcatChunks(parts, n);
    t := Got(bytes, device.incoming);
  }

  lemma Reassociate(a: seq<byte>, b: seq<byte>, t: Taken)
    ensures Prepend(a, Prepend(b, t)) == Prepend(a + b, t)
  {
    if t.Got? {
      assert a + (b + t.bytes) == a + b + t.bytes;
    }
  }

  method ReceivePayloadBytes(device: Device, size: nat) returns (t: Taken)
    modifies device`incoming
    ensures t == Body(old(device.incoming), size)
    ensures device.incoming == match t case Starved => [] case _ => t.rest
  {
    var parts: seq<seq<byte>> := [];
    var received := 0;
    ghost var start := device.incoming;
    while received < size
      invariant received <= size && received == |Flatten(parts)|
      invariant Body(start, size) == Prepend(Flatten(parts), Body(device.incoming, size - received))
      decreases |device.incoming| + size - received
    {
      var r := device.TransferIn(CHUNK);
      match r
      case Never => return Starved;
      case Bad => return Stopped(TransferFailed, device.incoming);
      case Data(data) =>
        var take := Min(|data|, size - received);
        FlattenSnoc(parts, data[..take]);
        Reassociate(Flatten(parts), data[..take], Body(device.incoming, size - received - take));
        parts := parts + [data[..take]];
        received := received + take;
    }
    var bytes := ConcatChunks(parts, size);
    t := Got(bytes, device.incoming);
  }

  lemma AfterTwice(a: seq<Text.Message>, b: seq<Text.Message>, run: Run)
    ensures After(a, After(b, run)) == After(a + b, run)
  {
    assert a + (b + run.emitted) == a + b + run.emitted;
  }

  method ReceiveFileTransfer(device: Device, decode: seq<byte> -> string, passes: nat, expected: int)
    returns (outcome: Outcome, emitted: seq<Text.Message>)
    modifies device`incoming
    ensures Run(outcome, emitted, device.incoming) == Receive(decode, old(device.incoming), passes, 0, expected)
  {
    hide Body, Exactly, Emit, Header.Parsed;
    var left, skipped := passes, 0;
    emitted := [];
    ghost var start := device.incoming;
    while left > 0 && skipped < MAX_SKIPS
      invariant Receive(decode, start, passes, 0, expected)
             == After(emitted, Receive(decode, device.incoming, left, skipped, expected))
      decreases left
    {
      var headerBytes := ReceiveExactly(device, Header.HEADER_SIZE);
      match headerBytes
      case Starved => return Failed(HeaderTimeout), emitted;
      case Stopped(e, _) => return Failed(e), emitted;
      case Got(bytes, _) =>
        var header := Header.ParseHeader(bytes);
        if header.Err? {
          return Failed(BadHeader(header.error)), emitted;
        }
        var size := header.value.fileSize;
        if header.value.kind == Header.SessionFrame {
          var taken := ReceivePayloadBytes(device, size);
          match taken
          case Starved => return Hangs, emitted;
          case Stopped(e, _) => return Failed(e), emitted;
          case Got(body, _) =>
            AfterTwice(emitted, Emit(decode, body), Receive(decode, device.incoming, left - 1, skipped + 1, expected));
            emitted := emitted + Emit(decode, body);
        } else if size != 0 {
          if expected > 0 && size != expected {
            return Failed(WrongSize), emitted;
          }
          var taken := ReceivePayloadBytes(device, size);
          match taken
          case Starved => return Hangs, emitted;
          case Stopped(e, _) => return Failed(e), emitted;
          case Got(body, _) =>
            return Received(body, if header.value.filename == [] then DEFAULT_NAME else header.value.filename), emitted;
        }
        left, skipped := left - 1, skipped + 1;
    }
    outcome := Failed(HeaderTimeout);
  }

  /** The transfers of `sendPayload` behind the header: full chunks, the last one zero-padded. */
  function PaddedChunks(payload: seq<byte>): seq<seq<byte>> {
    if payload == [] then []
    else
      var n := Min(|payload|, CHUNK);
      [Fitted(payload[..n], CHUNK)] + PaddedChunks(payload[n..])
  }

  /** `sendPayload`: a name that does not fit throws before anything is sent. */
  method SendPayload(device: Device, payload: seq<byte>, filename: Header.Text)
    returns (error: Option<Header.HeaderError>)
    modifies device`outgoing
    ensures match Header.Built(|payload|, Header.PayloadFrame, filename)
      case Err(e) => error == Some(e) && device.outgoing == old(device.outgoing)
      case Ok(header) => error == None && device.outgoing == old(device.outgoing) + [header] + PaddedChunks(payload)
  {
    var header := Header.BuildHeader(|payload|, Header.PayloadFrame, filename);
    if header.Err? {
      return Some(header.error);
    }
    device.TransferOut(header.value);
    ghost var begun := device.outgoing;
    var offset := 0;
    assert payload[0..] == payload;
    while offset < |payload|
      invariant offset <= |payload|
      invariant device.outgoing + PaddedChunks(payload[offset..]) == begun + PaddedChunks(payload)
    {
      var chunk := new byte[CHUNK](_ => 0 as byte);
      var n := Min(|payload| - offset, CHUNK);
      Header.Store(chunk, 0, payload[offset..offset + n]);
      assert chunk[..] == Fitted(payload[offset..offset + n], CHUNK);
      NextChunk(payload, offset);
      Shift(device.outgoing, chunk[..], PaddedChunks(payload[offset + n..]));
      device.TransferOut(chunk[..]);
      offset := offset + n;
    }
    assert device.outgoing + PaddedChunks([]) == device.outgoing;
    error := None;
  }

  lemma NextChunk(payload: seq<byte>, offset: nat)
    requires offset < |payload|
    ensures var n := Min(|payload| - offset, CHUNK);
      PaddedChunks(payload[offset..])
      == [Fitted(payload[offset..offset + n], CHUNK)] + PaddedChunks(payload[offset + n..])
  {
    var n := Min(|payload| - offset, CHUNK);
    assert payload[offset..][..n] == payload[offset..offset + n];
    assert payload[offset..][n..] == payload[offset + n..];
  }

  lemma Shift<T>(a: seq<T>, x: T, b: seq<T>)
    ensures a + ([x] + b) == (a + [x]) + b
  {
  }

  /** The transfers of `runSessionSend`. */
  function SessionTransfers(body: seq<byte>): seq<seq<byte>>
    requires |body| < Header.WORD64
  {
    [Header.HeaderBytes(|body|, Header.SessionFrame, [])] + [body]
  }

  /** `sendSessionMessage`, past the queues: a body that is too large is refused before anything is sent. */
  method SendSession(device: Device, body: seq<byte>) returns (sent: bool)
    modifies device`outgoing
    ensures sent <==> |body| <= MAX_SESSION_BYTES
    ensures device.outgoing == old(device.outgoing) + if sent then SessionTransfers(body) else []
  {
    if |body| > MAX_SESSION_BYTES {
      return false;
    }
    var header := Header.BuildHeader(|body|, Header.SessionFrame, []);
    device.TransferOut(header.value);
    device.TransferOut(body);
    sent := true;
  }
}
