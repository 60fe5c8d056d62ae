/**
 How `receive_file_core` waits for the header of the frame kind its caller expects: before a payload, stray session
 frames are read away, however many, as long as each is small enough.
 */
module HeaderWait {
  import opened Prelude
  import Header = FrameHeader
  import opened PayloadStream
  import opened PayloadDelivery

  const MAX_STRAY: nat := 256 * 1024

  datatype Found =
    | FoundHeader(size: nat, rest: seq<Transfer>)
    | NoHeader
    | BadMagic
    | StrayFailed
    | UnexpectedKind

  /** `bulk_read_all`: an empty transfer is no error, and nothing in time is one. */
  function BulkRead(queue: seq<Transfer>, n: nat): (t: Taken)
    ensures t.Got? ==> |t.bytes| == n && |t.rest| <= |queue|
    decreases |queue|
  {
    if n == 0 then Got([], queue)
    else
      match TakeOne(queue, Min(n, CHUNK))
      case Never => Starved
      case Bad => Stopped(TransferFailed, queue[1..])
      case Data(data) => Prepend(data, BulkRead(queue[1..], n - |data|))
  }

  /** `discard_incoming_bytes`; `None` is failure. */
  function Discard(queue: seq<Transfer>, count: nat): Option<seq<Transfer>> {
    if count > MAX_STRAY then None
    else
      match BulkRead(queue, count)
      case Got(_, rest) => Some(rest)
      case _ => None
  }

  /** `kFrameKindPayload`, and 0 for a caller that takes any kind. */
  const PAYLOAD: byte := 2
  const ANY_KIND: byte := 0

  /** `passes` counts the loop checks that still find the deadline in the future. */
  function AwaitHeader(expected: byte, queue: seq<Transfer>, passes: nat): Found
    decreases passes
  {
    if passes == 0 then NoHeader
    else
      match BulkRead(queue, Header.HEADER_SIZE)
      case Got(h, rest) => JudgeHeader(expected, h, rest, passes)
      case _ => NoHeader
  }

  function JudgeHeader(expected: byte, h: seq<byte>, rest: seq<Transfer>, passes: nat): Found
    requires |h| == Header.HEADER_SIZE && passes > 0
    decreases passes, 0
  {
    var size := Header.FromLittleEndian(h[Header.SIZE_OFFSET..Header.KIND_OFFSET]);
    if h[..Header.SIZE_OFFSET] != Header.MAGIC then BadMagic
    else if expected == PAYLOAD && h[Header.KIND_OFFSET] == Header.KindByte(Header.SessionFrame) then
      match Discard(rest, size)
      case None => StrayFailed
      case Some(later) => AwaitHeader(expected, later, passes - 1)
    else if expected != ANY_KIND && h[Header.KIND_OFFSET] != expected then UnexpectedKind
    else FoundHeader(size, rest)
  }

  method ReadAll(device: Device, n: nat) returns (data: Option<seq<byte>>)
    modifies device`incoming
    ensures match BulkRead(old(device.incoming), n)
      case Got(bytes, rest) => data == Some(bytes) && device.incoming == rest
      case _ => data == None
  {
    var buffer: seq<byte> := [];
    ghost var start := device.incoming;
    while |buffer| < n
      invariant |buffer| <= n
      invariant BulkRead(start, n) == Prepend(buffer, BulkRead(device.incoming, n - |buffer|))
      decreases |device.incoming| + n - |buffer|
    {
      var r := device.TransferIn(Min(n - |buffer|, CHUNK));
      match r
      case Never => return None;
      case Bad => return None;
      case Data(bytes) =>
        Reassociate(buffer, bytes, BulkRead(device.incoming, n - |buffer| - |bytes|));
        buffer := buffer + bytes;
    }
    assert buffer + [] == buffer;
    data := Some(buffer);
  }

  /** The header loop. */
  method WaitForHeader(device: Device, expected: byte, passes: nat) returns (found: Found)
    modifies device`incoming
    ensures found == AwaitHeader(expected, old(device.incoming), passes)
    ensures found.FoundHeader? ==> device.incoming == found.rest
  {
    hide BulkRead;
    var left := passes;
    ghost var start := device.incoming;
    while left > 0
      invariant 0 <= left <= passes
      invariant AwaitHeader(expected, start, passes) == AwaitHeader(expected, device.incoming, left)
      decreases left
    {
      var bytes := ReadAll(device, Header.HEADER_SIZE);
      if bytes.None? {
        return NoHeader;
      }
      var h := bytes.value;
      if h[..Header.SIZE_OFFSET] != Header.MAGIC {
        return BadMagic;
      }
      var size := Header.FromLittleEndian(h[Header.SIZE_OFFSET..Header.KIND_OFFSET]);
      if expected == PAYLOAD && h[Header.KIND_OFFSET] == Header.KindByte(Header.SessionFrame) {
        if size > MAX_STRAY {
          return StrayFailed;
        }
        var body := ReadAll(device, size);
        if body.None? {
          return StrayFailed;
        }
        left := left - 1;
      } else if expected != ANY_KIND && h[Header.KIND_OFFSET] != expected {
        return UnexpectedKind;
      } else {
        return FoundHeader(size, device.incoming);
      }
    }
    found := NoHeader;
  }

  // ----- Only a genuine header is taken -----

  /** Somewhere along the queue a whole header was read with the right magic, this size and a kind the caller takes,
      and `rest` is what lies behind it. */
  ghost predicate Genuine(expected: byte, queue: seq<Transfer>, size: nat, rest: seq<Transfer>) {
    exists from: seq<Transfer>, h: seq<byte> ::
      && Behind(from, queue) && |h| == Header.HEADER_SIZE && BulkRead(from, Header.HEADER_SIZE) == Got(h, rest)
      && h[..Header.SIZE_OFFSET] == Header.MAGIC
      && size == Header.FromLittleEndian(h[Header.SIZE_OFFSET..Header.KIND_OFFSET])
      && (expected == ANY_KIND || h[Header.KIND_OFFSET] == expected)
  }

  predicate Behind(from: seq<Transfer>, queue: seq<Transfer>) {
    |from| <= |queue| && from == queue[|queue| - |from|..]
  }

  lemma BehindBehind(a: seq<Transfer>, b: seq<Transfer>, c: seq<Transfer>)
    requires Behind(a, b) && Behind(b, c)
    ensures Behind(a, c)
  {
  }

  lemma {:induction false} ReadsFromTheFront(queue: seq<Transfer>, n: nat)
    ensures var t := BulkRead(queue, n); t.Got? ==> Behind(t.rest, queue)
    decreases |queue|
  {
    if n > 0 {
      match TakeOne(queue, Min(n, CHUNK))
      case Data(data) =>
        ReadsFromTheFront(queue[1..], n - |data|);
      case _ =>
    }
  }

  /** What the verdict on one header means when a header is found in the end: this one is taken, or it was a stray. */
  lemma JudgedFound(expected: byte, h: seq<byte>, rest: seq<Transfer>, passes: nat)
    returns (later: Option<seq<Transfer>>)
    requires |h| == Header.HEADER_SIZE && passes > 0 && JudgeHeader(expected, h, rest, passes).FoundHeader?
    ensures var found := JudgeHeader(expected, h, rest, passes);
      var size := Header.FromLittleEndian(h[Header.SIZE_OFFSET..Header.KIND_OFFSET]);
      if later.None? then
        && found == FoundHeader(size, rest) && h[..Header.SIZE_OFFSET] == Header.MAGIC
        && (expected == ANY_KIND || h[Header.KIND_OFFSET] == expected)
      else Discard(rest, size) == later && found == AwaitHeader(expected, later.value, passes - 1)
  {
    hide AwaitHeader, Discard;
    later := None;
    if expected == PAYLOAD && h[Header.KIND_OFFSET] == Header.KindByte(Header.SessionFrame) {
      later := Discard(rest, Header.FromLittleEndian(h[Header.SIZE_OFFSET..Header.KIND_OFFSET]));
    }
  }

  /** Whatever the cable holds, the header that is found is genuine. */
  lemma {:induction false} FoundHeaderIsGenuine(expected: byte, queue: seq<Transfer>, passes: nat)
    ensures var found := AwaitHeader(expected, queue, passes);
      found.FoundHeader? ==> Genuine(expected, queue, found.size, found.rest)
    decreases passes
  {
    hide BulkRead, JudgeHeader;
    var found := AwaitHeader(expected, queue, passes);
    if found.FoundHeader? {
      var t := BulkRead(queue, Header.HEADER_SIZE);
      ReadsFromTheFront(queue, Header.HEADER_SIZE);
      var later := JudgedFound(expected, t.bytes, t.rest, passes);
      hide AwaitHeader;
      if later.Some? {
        var size := Header.FromLittleEndian(t.bytes[Header.SIZE_OFFSET..Header.KIND_OFFSET]);
        ReadsFromTheFront(t.rest, size);
        FoundHeaderIsGenuine(expected, later.value, passes - 1);
        GenuineFurtherBack(expected, later.value, t.rest, queue, found.size, found.rest);
      } else {
        assert Behind(queue, queue);
      }
    }
  }

  lemma GenuineFurtherBack(expected: byte, later: seq<Transfer>, rest: seq<Transfer>, queue: seq<Transfer>, size: nat,
                           end: seq<Transfer>)
    requires Behind(later, rest) && Behind(rest, queue) && Genuine(expected, later, size, end)
    ensures Genuine(expected, queue, size, end)
  {
    hide BulkRead;
    var from: seq<Transfer>, h: seq<byte> :|
      && Behind(from, later) && |h| == Header.HEADER_SIZE && BulkRead(from, Header.HEADER_SIZE) == Got(h, end)
      && h[..Header.SIZE_OFFSET] == Header.MAGIC
      && size == Header.FromLittleEndian(h[Header.SIZE_OFFSET..Header.KIND_OFFSET])
      && (expected == ANY_KIND || h[Header.KIND_OFFSET] == expected);
    BehindBehind(from, later, rest);
    BehindBehind(from, rest, queue);
  }

  /** A header without the magic is refused by every caller, and nothing is read behind it. */
  lemma WrongMagicIsRefused(expected: byte, header: seq<byte>, rest: seq<Transfer>, passes: nat)
    requires |header| == Header.HEADER_SIZE && passes > 0
    requires header[..Header.SIZE_OFFSET] != Header.MAGIC
    ensures AwaitHeader(expected, [Arrived(header)] + rest, passes) == BadMagic
  {
    hide BulkRead;
    ReadOneTransfer(header, rest);
  }

  // ----- Behind stray session frames -----

  /** A session frame as both languages send it: one header and, unless empty, one transfer. */
  function StrayWire(body: seq<byte>): seq<Transfer>
    requires |body| < Header.WORD64
  {
    [Arrived(Header.HeaderBytes(|body|, Header.SessionFrame, []))] + if body == [] then [] else [Arrived(body)]
  }

  predicate Sized(bodies: seq<seq<byte>>) {
    forall i :: 0 <= i < |bodies| ==> |bodies[i]| < Header.WORD64
  }

  function StrayWires(bodies: seq<seq<byte>>): seq<Transfer>
    requires Sized(bodies)
  {
    if bodies == [] then [] else StrayWire(bodies[0]) + StrayWires(bodies[1..])
  }

  lemma ReadOneTransfer(data: seq<byte>, rest: seq<Transfer>)
    requires 0 < |data| <= CHUNK
    ensures BulkRead([Arrived(data)] + rest, |data|) == Got(data, rest)
  {
    var queue := [Arrived(data)] + rest;
    assert queue[0] == Arrived(data) && queue[1..] == rest;
    assert BulkRead(rest, 0) == Got([], rest);
    assert data + [] == data;
  }

  lemma HeaderFields(size: nat, kind: Header.FrameKind, name: seq<byte>)
    requires size < Header.WORD64 && |name| <= Header.NAME_MAX
    ensures var h := Header.HeaderBytes(size, kind, name);
      && h[..Header.SIZE_OFFSET] == Header.MAGIC
      && Header.FromLittleEndian(h[Header.SIZE_OFFSET..Header.KIND_OFFSET]) == size
      && h[Header.KIND_OFFSET] == Header.KindByte(kind)
  {
    Header.FieldsOfHeaderBytes(size, kind, name);
    Header.EightBytesHoldAWord();
    Header.LittleEndianRoundTrip(size, 8);
  }

  lemma DiscardBody(body: seq<byte>, rest: seq<Transfer>)
    requires |body| <= MAX_STRAY
    ensures Discard((if body == [] then [] else [Arrived(body)]) + rest, |body|) == Some(rest)
  {
    if body != [] {
      ReadOneTransfer(body, rest);
    } else {
      assert [] + rest == rest;
    }
  }

  /** One stray frame: read away when it is small enough, fatal when it is not. */
  lemma PastOneStray(body: seq<byte>, rest: seq<Transfer>, passes: nat)
    requires |body| < Header.WORD64 && passes > 0
    ensures AwaitHeader(PAYLOAD, StrayWire(body) + rest, passes)
         == if |body| <= MAX_STRAY then AwaitHeader(PAYLOAD, rest, passes - 1) else StrayFailed
  {
    hide BulkRead, Discard, AwaitHeader;
    var header := Header.HeaderBytes(|body|, Header.SessionFrame, []);
    var tail := (if body == [] then [] else [Arrived(body)]) + rest;
    assert StrayWire(body) + rest == [Arrived(header)] + tail;
    ReadOneTransfer(header, tail);
    HeaderFields(|body|, Header.SessionFrame, []);
    OneHeader(PAYLOAD, [Arrived(header)] + tail, header, tail, passes);
    if |body| <= MAX_STRAY {
      DiscardBody(body, rest);
    } else {
      TooLargeToDiscard(tail, |body|);
    }
  }

  lemma OneHeader(expected: byte, queue: seq<Transfer>, header: seq<byte>, tail: seq<Transfer>, passes: nat)
    requires |header| == Header.HEADER_SIZE && passes > 0
    requires BulkRead(queue, Header.HEADER_SIZE) == Got(header, tail)
    ensures AwaitHeader(expected, queue, passes) == JudgeHeader(expected, header, tail, passes)
  {
  }

  lemma TooLargeToDiscard(queue: seq<Transfer>, count: nat)
    requires count > MAX_STRAY
    ensures Discard(queue, count) == None
  {
  }

  lemma {:induction false} PastStrays(bodies: seq<seq<byte>>, rest: seq<Transfer>, passes: nat)
    requires Sized(bodies) && |bodies| <= passes
    ensures AwaitHeader(PAYLOAD, StrayWires(bodies) + rest, passes)
         == if forall i :: 0 <= i < |bodies| ==> |bodies[i]| <= MAX_STRAY
            then AwaitHeader(PAYLOAD, rest, passes - |bodies|)
            else StrayFailed
    decreases |bodies|
  {
    hide AwaitHeader, StrayWire;
    if bodies == [] {
      assert StrayWires(bodies) + rest == rest;
    } else {
      var later := StrayWires(bodies[1..]) + rest;
      assert StrayWires(bodies) + rest == StrayWire(bodies[0]) + later;
      PastOneStray(bodies[0], later, passes);
      PastStrays(bodies[1..], rest, passes - 1);
      assert forall i :: 1 <= i < |bodies| ==> bodies[i] == bodies[1..][i - 1];
    }
  }

  /** Given time for every frame, the payload's header is found, with its size and everything behind it still on
      the cable, exactly when no stray frame exceeds 256 KiB; their number does not matter. */
  lemma HeaderFoundIffStraysAreSmall(bodies: seq<seq<byte>>, size: nat, name: seq<byte>, rest: seq<Transfer>,
                                     passes: nat)
    requires Sized(bodies) && |bodies| < passes && size < Header.WORD64 && |name| <= Header.NAME_MAX
    ensures var header := Arrived(Header.HeaderBytes(size, Header.PayloadFrame, name));
      var found := AwaitHeader(PAYLOAD, StrayWires(bodies) + ([header] + rest), passes);
      && (found == FoundHeader(size, rest) <==> forall i :: 0 <= i < |bodies| ==> |bodies[i]| <= MAX_STRAY)
      && (found == FoundHeader(size, rest) || found == StrayFailed)
  {
    hide BulkRead, AwaitHeader, StrayWires;
    var header := Header.HeaderBytes(size, Header.PayloadFrame, name);
    PastStrays(bodies, [Arrived(header)] + rest, passes);
    ReadOneTransfer(header, rest);
    HeaderFields(size, Header.PayloadFrame, name);
    OneHeader(PAYLOAD, [Arrived(header)] + rest, header, rest, passes - |bodies|);
  }

  /** A caller that expects another kind, or any, reads nothing away: the first header decides. */
  lemma FirstHeaderDecides(expected: byte, size: nat, kind: Header.FrameKind, name: seq<byte>, rest: seq<Transfer>,
                           passes: nat)
    requires expected != PAYLOAD && passes > 0 && size < Header.WORD64 && |name| <= Header.NAME_MAX
    ensures AwaitHeader(expected, [Arrived(Header.HeaderBytes(size, kind, name))] + rest, passes)
         == if expected == ANY_KIND || expected == Header.KindByte(kind) then FoundHeader(size, rest)
            else UnexpectedKind
  {
    hide BulkRead, AwaitHeader;
    var header := Header.HeaderBytes(size, kind, name);
    ReadOneTransfer(header, rest);
    HeaderFields(size, kind, name);
    OneHeader(expected, [Arrived(header)] + rest, header, rest, passes);
  }
}
