/**
 What `receiveFileTransfer` returns for what senders transmit: the payload behind at most fifteen frames
 it reads past, whichever language sent them.
 */
module PayloadDelivery {
  import opened Prelude
  import Header = FrameHeader
  import Text = SessionText
  import Codec = SessionCodec
  import opened PayloadStream

  datatype Frame = Session(body: seq<byte>) | Payload(data: seq<byte>, name: Header.Text)
  {
    function Bytes(): seq<byte> {
      if Session? then body else data
    }

    function Kind(): Header.FrameKind {
      if Session? then Header.SessionFrame else Header.PayloadFrame
    }

    function Name(): Header.Text {
      if Session? then [] else name
    }

    /** Sizes fit the header and the name is one that survives it. */
    predicate Sendable() {
      |Bytes()| < Header.WORD64 && Header.PlainAscii(Header.Kept(Name()))
    }

    /** Frames the payload receiver reads past. */
    predicate Skipped() {
      Session? || data == []
    }
  }

  /** Transfers that carry `data`: any division into non-empty chunks, where the last may be padded. */
  predicate Carries(transfers: seq<Transfer>, data: seq<byte>) {
    if data == [] then transfers == []
    else
      && transfers != [] && transfers[0].Arrived? && 0 < |transfers[0].data| <= CHUNK
      && var n := Min(|transfers[0].data|, |data|);
         transfers[0].data[..n] == data[..n] && Carries(transfers[1..], data[n..])
  }

  predicate IsHeader(f: Frame, header: seq<byte>) {
    Header.Built(|f.Bytes()|, f.Kind(), f.Name()) == Ok(header)
  }

  lemma HeaderMeans(f: Frame, header: seq<byte>)
    requires f.Sendable() && IsHeader(f, header)
    ensures |header| == Header.HEADER_SIZE
    ensures Header.Parsed(header) == Ok(Header.ParsedHeader(|f.Bytes()|, Header.Kept(f.Name()), f.Kind()))
  {
    Header.HeaderRoundTrip(|f.Bytes()|, f.Kind(), f.Name());
  }

  predicate OnWire(f: Frame, transfers: seq<Transfer>) {
    transfers != [] && transfers[0].Arrived? && IsHeader(f, transfers[0].data) && Carries(transfers[1..], f.Bytes())
  }

  predicate SkippedOnWire(f: Frame, transfers: seq<Transfer>) {
    f.Sendable() && f.Skipped() && OnWire(f, transfers)
  }

  /** Frames for the receiver to read past, each with its transfers. */
  predicate InFront(frames: seq<Frame>, wires: seq<seq<Transfer>>) {
    |frames| == |wires| && forall i :: 0 <= i < |frames| ==> SkippedOnWire(frames[i], wires[i])
  }

  lemma InFrontParts(frames: seq<Frame>, wires: seq<seq<Transfer>>, n: nat)
    requires InFront(frames, wires) && n <= |frames|
    ensures InFront(frames[..n], wires[..n]) && InFront(frames[n..], wires[n..])
  {
    forall i | 0 <= i < |frames| - n ensures SkippedOnWire(frames[n..][i], wires[n..][i]) {
      assert SkippedOnWire(frames[n + i], wires[n + i]);
    }
  }

  lemma FlattenFirst<T>(parts: seq<seq<T>>, rest: seq<T>)
    requires parts != []
    ensures Flatten(parts) + rest == parts[0] + (Flatten(parts[1..]) + rest)
  {
  }

  lemma FlattenCut<T>(parts: seq<seq<T>>, n: nat, rest: seq<T>)
    requires n <= |parts|
    ensures Flatten(parts) + rest == Flatten(parts[..n]) + (Flatten(parts[n..]) + rest)
  {
    var a, b := parts[..n], parts[n..];
    CutAt(parts, n);
    FlattenAppend(a, b);
    Regroup(Flatten(a), Flatten(b), rest);
  }

  lemma CutAt<T>(s: seq<T>, n: nat)
    requires n <= |s|
    ensures s[..n] + s[n..] == s
  {
  }

  function Arrivals(chunks: seq<seq<byte>>): seq<Transfer> {
    seq(|chunks|, i requires 0 <= i < |chunks| => Arrived(chunks[i]))
  }

  // ----- Both senders carry their data -----

  /** The padded chunks of `sendPayload`. */
  lemma {:induction false} PaddedChunksCarry(data: seq<byte>)
    ensures Carries(Arrivals(PaddedChunks(data)), data)
  {
    if data != [] {
      var n := Min(|data|, CHUNK);
      PaddedChunksCarry(data[n..]);
      var chunks := PaddedChunks(data);
      assert chunks[0] == Fitted(data[..n], CHUNK) && chunks[1..] == PaddedChunks(data[n..]);
      assert Arrivals(chunks)[1..] == Arrivals(chunks[1..]);
    }
  }

  /** The chunks of `send_file_core`, whose last transfer is as short as what is left. */
  function PlainChunks(data: seq<byte>): seq<seq<byte>> {
    if data == [] then []
    else
      var n := Min(|data|, CHUNK);
      [data[..n]] + PlainChunks(data[n..])
  }

  lemma {:induction false} PlainChunksCarry(data: seq<byte>)
    ensures Carries(Arrivals(PlainChunks(data)), data)
  {
    if data != [] {
      var n := Min(|data|, CHUNK);
      PlainChunksCarry(data[n..]);
      var chunks := PlainChunks(data);
      assert chunks[0] == data[..n] && chunks[1..] == PlainChunks(data[n..]);
      assert Arrivals(chunks)[1..] == Arrivals(chunks[1..]);
    }
  }

  // ----- One frame -----

  lemma {:induction false} BodyOfCarried(transfers: seq<Transfer>, data: seq<byte>, rest: seq<Transfer>)
    requires Carries(transfers, data)
    ensures Body(transfers + rest, |data|) == Got(data, rest)
    decreases |transfers|
  {
    if data == [] {
      assert transfers + rest == rest;
    } else {
      var first := transfers[0].data;
      var n := Min(|first|, |data|);
      BodyOfCarried(transfers[1..], data[n..], rest);
      assert (transfers + rest)[0] == transfers[0] && (transfers + rest)[1..] == transfers[1..] + rest;
      assert first[..n] + data[n..] == data;
    }
  }

  lemma HeaderTransfer(header: seq<byte>, rest: seq<Transfer>)
    requires |header| == Header.HEADER_SIZE
    ensures Exactly([Arrived(header)] + rest, Header.HEADER_SIZE) == Got(header, rest)
  {
    var queue := [Arrived(header)] + rest;
    assert queue[0] == Arrived(header) && queue[1..] == rest;
    assert Exactly(rest, 0) == Got([], rest);
    assert header + [] == header;
  }

  /** The receiver reads the header of a frame on the wire as the sender meant it. */
  lemma HeaderOfFrame(f: Frame, transfers: seq<Transfer>, rest: seq<Transfer>)
    requires f.Sendable() && OnWire(f, transfers)
    ensures var header := transfers[0].data;
      && Exactly(transfers + rest, Header.HEADER_SIZE) == Got(header, transfers[1..] + rest)
      && Header.Parsed(header) == Ok(Header.ParsedHeader(|f.Bytes()|, Header.Kept(f.Name()), f.Kind()))
  {
    hide IsHeader, Header.Parsed, Carries;
    HeaderMeans(f, transfers[0].data);
    HeaderTransfer(transfers[0].data, transfers[1..] + rest);
    assert [transfers[0]] + (transfers[1..] + rest) == transfers + rest;
  }

  function Emitted(decode: seq<byte> -> string, f: Frame): seq<Text.Message> {
    if f.Session? then Emit(decode, f.body) else []
  }

  function AllEmitted(decode: seq<byte> -> string, frames: seq<Frame>): seq<Text.Message> {
    if frames == [] then [] else Emitted(decode, frames[0]) + AllEmitted(decode, frames[1..])
  }

  /** A session frame or an empty payload is read past, and a session frame's message emitted. */
  lemma ReadPastOne(decode: seq<byte> -> string, f: Frame, transfers: seq<Transfer>, rest: seq<Transfer>,
                    passes: nat, skipped: nat, expected: int)
    requires SkippedOnWire(f, transfers) && passes > 0 && skipped < MAX_SKIPS
    ensures Receive(decode, transfers + rest, passes, skipped, expected)
         == After(Emitted(decode, f), Receive(decode, rest, passes - 1, skipped + 1, expected))
  {
    HeaderOfFrame(f, transfers, rest);
    BodyOfCarried(transfers[1..], f.Bytes(), rest);
    if !f.Session? {
      assert transfers[1..] + rest == rest;
      assert [] + Receive(decode, rest, passes - 1, skipped + 1, expected).emitted
          == Receive(decode, rest, passes - 1, skipped + 1, expected).emitted;
    }
  }

  function NameOrDefault(name: Header.Text): Header.Text {
    if Header.Kept(name) == [] then DEFAULT_NAME else Header.Kept(name)
  }

  lemma ReadPayload(decode: seq<byte> -> string, f: Frame, transfers: seq<Transfer>, rest: seq<Transfer>,
                    passes: nat, skipped: nat, expected: int)
    requires f.Sendable() && OnWire(f, transfers) && !f.Skipped() && passes > 0 && skipped < MAX_SKIPS
    ensures Receive(decode, transfers + rest, passes, skipped, expected)
         == if expected > 0 && expected != |f.data| then Run(Failed(WrongSize), [], transfers[1..] + rest)
            else Run(Received(f.data, NameOrDefault(f.name)), [], rest)
  {
    HeaderOfFrame(f, transfers, rest);
    BodyOfCarried(transfers[1..], f.Bytes(), rest);
  }

  // ----- Many frames in front -----

  lemma {:induction false} ReadPast(decode: seq<byte> -> string, frames: seq<Frame>, wires: seq<seq<Transfer>>,
                                    rest: seq<Transfer>, passes: nat, skipped: nat, expected: int)
    requires InFront(frames, wires)
    requires |frames| <= passes && skipped + |frames| <= MAX_SKIPS
    ensures Receive(decode, Flatten(wires) + rest, passes, skipped, expected)
         == After(AllEmitted(decode, frames), Receive(decode, rest, passes - |frames|, skipped + |frames|, expected))
    decreases |frames|
  {
    hide Receive, Emitted, SkippedOnWire;
    if frames == [] {
      assert Flatten(wires) + rest == rest;
      NothingEmitted(Receive(decode, rest, passes, skipped, expected));
    } else {
      FlattenFirst(wires, rest);
      InFrontParts(frames, wires, 1);
      var later := Flatten(wires[1..]) + rest;
      ReadPast(decode, frames[1..], wires[1..], rest, passes - 1, skipped + 1, expected);
      ReadPastOne(decode, frames[0], wires[0], later, passes, skipped, expected);
      Chain(Receive(decode, wires[0] + later, passes, skipped, expected),
            Receive(decode, later, passes - 1, skipped + 1, expected),
            Receive(decode, rest, passes - |frames|, skipped + |frames|, expected),
            Emitted(decode, frames[0]), AllEmitted(decode, frames[1..]));
    }
  }

  lemma Chain(whole: Run, middle: Run, end: Run, a: seq<Text.Message>, b: seq<Text.Message>)
    requires whole == After(a, middle) && middle == After(b, end)
    ensures whole == After(a + b, end)
  {
    AfterTwice(a, b, end);
  }

  lemma NothingEmitted(run: Run)
    ensures After([], run) == run
  {
    assert [] + run.emitted == run.emitted;
  }

  /** Behind at most fifteen skipped frames the payload comes back whole and named, the frames' messages
      are emitted in order, and what follows the payload stays on the cable. */
  lemma PayloadBehindFewFrames(decode: seq<byte> -> string, frames: seq<Frame>, wires: seq<seq<Transfer>>,
                               payload: Frame, wire: seq<Transfer>, rest: seq<Transfer>, passes: nat, expected: int)
    requires InFront(frames, wires)
    requires payload.Payload? && payload.data != [] && payload.Sendable() && OnWire(payload, wire)
    requires expected <= 0 || expected == |payload.data|
    requires |frames| < passes && |frames| < MAX_SKIPS
    ensures Receive(decode, Flatten(wires) + (wire + rest), passes, 0, expected)
         == Run(Received(payload.data, NameOrDefault(payload.name)), AllEmitted(decode, frames), rest)
  {
    ReadPast(decode, frames, wires, wire + rest, passes, 0, expected);
    ReadPayload(decode, payload, wire, rest, passes - |frames|, |frames|, expected);
    assert AllEmitted(decode, frames) + [] == AllEmitted(decode, frames);
  }

  /** Sixteen or more: the call times out after emitting the first sixteen, and leaves the rest. */
  lemma TooManyFramesInFront(decode: seq<byte> -> string, frames: seq<Frame>, wires: seq<seq<Transfer>>,
                             rest: seq<Transfer>, passes: nat, expected: int)
    requires InFront(frames, wires)
    requires |frames| >= MAX_SKIPS && passes >= MAX_SKIPS
    ensures Receive(decode, Flatten(wires) + rest, passes, 0, expected)
         == Run(Failed(HeaderTimeout), AllEmitted(decode, frames[..MAX_SKIPS]), Flatten(wires[MAX_SKIPS..]) + rest)
  {
    var left := Flatten(wires[MAX_SKIPS..]) + rest;
    FlattenCut(wires, MAX_SKIPS, rest);
    InFrontParts(frames, wires, MAX_SKIPS);
    ReadPast(decode, frames[..MAX_SKIPS], wires[..MAX_SKIPS], left, passes, 0, expected);
    GivesUp(decode, left, passes - MAX_SKIPS, expected);
    assert AllEmitted(decode, frames[..MAX_SKIPS]) + [] == AllEmitted(decode, frames[..MAX_SKIPS]);
  }

  lemma GivesUp(decode: seq<byte> -> string, queue: seq<Transfer>, passes: nat, expected: int)
    ensures Receive(decode, queue, passes, MAX_SKIPS, expected) == Run(Failed(HeaderTimeout), [], queue)
  {
  }

  /** Given time for every frame, the payload gets through exactly when fewer than sixteen frames are in front. */
  lemma DeliveredIffFewInFront(decode: seq<byte> -> string, frames: seq<Frame>, wires: seq<seq<Transfer>>,
                               payload: Frame, wire: seq<Transfer>, rest: seq<Transfer>, passes: nat)
    requires InFront(frames, wires)
    requires payload.Payload? && payload.data != [] && payload.Sendable() && OnWire(payload, wire)
    requires |frames| < passes
    ensures |frames| < MAX_SKIPS <==>
            Receive(decode, Flatten(wires) + (wire + rest), passes, 0, |payload.data|).outcome
            == Received(payload.data, NameOrDefault(payload.name))
  {
    if |frames| < MAX_SKIPS {
      PayloadBehindFewFrames(decode, frames, wires, payload, wire, rest, passes, |payload.data|);
    } else {
      TooManyFramesInFront(decode, frames, wires, wire + rest, passes, |payload.data|);
    }
  }

  /** When the frames in front are printed messages, the messages themselves are what is emitted, in order. */
  lemma {:induction false} EmittedAreTheMessages(decode: seq<byte> -> string, frames: seq<Frame>,
                                                 messages: seq<Text.Message>)
    requires |frames| == |messages|
    requires forall i :: 0 <= i < |frames| ==>
      && frames[i].Session? && decode(frames[i].body) == Text.TextOf(messages[i])
      && Codec.WellFormed(Text.TypeScript, messages[i])
    ensures AllEmitted(decode, frames) == messages
  {
    if frames != [] {
      Codec.RoundTripIffWellFormed(Text.TypeScript, messages[0]);
      EmittedAreTheMessages(decode, frames[1..], messages[1..]);
      assert messages == [messages[0]] + messages[1..];
    }
  }

  /** End to end with the TypeScript sender: what `sendPayload` puts on the cable for a plain name is a
      payload frame on the wire. */
  lemma SentPayloadIsOnWire(payload: seq<byte>, name: Header.Text)
    requires |payload| < Header.WORD64 && Header.PlainAscii(Header.Kept(name))
    ensures Header.Built(|payload|, Header.PayloadFrame, name).Ok?
    ensures var header := Header.Built(|payload|, Header.PayloadFrame, name).value;
      OnWire(Payload(payload, name), Arrivals([header] + PaddedChunks(payload)))
      && OnWire(Payload(payload, name), Arrivals([header] + PlainChunks(payload)))
  {
    Header.HeaderRoundTrip(|payload|, Header.PayloadFrame, name);
    var header := Header.Built(|payload|, Header.PayloadFrame, name).value;
    PaddedChunksCarry(payload);
    PlainChunksCarry(payload);
    HeaderThenChunks(header, PaddedChunks(payload));
    HeaderThenChunks(header, PlainChunks(payload));
  }

  lemma HeaderThenChunks(header: seq<byte>, chunks: seq<seq<byte>>)
    ensures var all := Arrivals([header] + chunks);
      all != [] && all[0] == Arrived(header) && all[1..] == Arrivals(chunks)
  {
    var both := [header] + chunks;
    assert both[0] == header && forall i :: 0 <= i < |chunks| ==> both[i + 1] == chunks[i];
  }

  // ----- From one program to the other -----

  lemma SessionOnWire(body: seq<byte>)
    requires 0 < |body| <= MAX_SESSION_BYTES
    ensures SkippedOnWire(Session(body), Arrivals(SessionTransfers(body)))
  {
    var f, all := Session(body), SessionTransfers(body);
    assert Header.Encode(Header.Kept([])) == [];
    assert IsHeader(f, all[0]);
    assert Arrivals(all)[1..] == Arrivals([body]) && Arrivals([body])[1..] == [];
    assert body[..|body|] == body && body[|body|..] == [];
  }

  /** The bodies that `serializeSessionMessage` and an encoder make of the messages. */
  function Bodies(encode: string -> seq<byte>, messages: seq<Text.Message>): seq<seq<byte>> {
    seq(|messages|, i requires 0 <= i < |messages| => encode(Text.TextOf(messages[i])))
  }

  predicate SmallBodies(bodies: seq<seq<byte>>) {
    forall i :: 0 <= i < |bodies| ==> 0 < |bodies[i]| <= MAX_SESSION_BYTES
  }

  /** What successive session sends put on the cable. */
  function SessionsOut(bodies: seq<seq<byte>>): seq<Transfer>
    requires SmallBodies(bodies)
  {
    if bodies == [] then []
    else assert |bodies[0]| <= MAX_SESSION_BYTES; Arrivals(SessionTransfers(bodies[0])) + SessionsOut(bodies[1..])
  }

  lemma {:induction false} SessionsInFront(bodies: seq<seq<byte>>)
    returns (frames: seq<Frame>, wires: seq<seq<Transfer>>)
    requires SmallBodies(bodies)
    ensures InFront(frames, wires) && Flatten(wires) == SessionsOut(bodies)
    ensures |frames| == |bodies| && forall i :: 0 <= i < |frames| ==> frames[i] == Session(bodies[i])
    decreases |bodies|
  {
    if bodies == [] {
      frames, wires := [], [];
    } else {
      assert 0 < |bodies[0]| <= MAX_SESSION_BYTES;
      var laterFrames, laterWires := SessionsInFront(bodies[1..]);
      SessionOnWire(bodies[0]);
      var wire := Arrivals(SessionTransfers(bodies[0]));
      hide SkippedOnWire, SessionTransfers, Arrivals;
      frames, wires := [Session(bodies[0])] + laterFrames, [wire] + laterWires;
      assert wires[0] == wire && wires[1..] == laterWires;
      assert forall i :: 1 <= i < |frames| ==> frames[i] == laterFrames[i - 1] && wires[i] == laterWires[i - 1];
    }
  }

  /** Both programs together: a partner sends up to fifteen session messages and then a payload under a plain name;
      `receiveFileTransfer` returns the payload and the name, emits the messages themselves in order, and leaves
      what follows on the cable. */
  lemma MessagesThenPayload(encode: string -> seq<byte>, decode: seq<byte> -> string, messages: seq<Text.Message>,
                            payload: seq<byte>, name: Header.Text, rest: seq<Transfer>, passes: nat)
    requires SmallBodies(Bodies(encode, messages)) && |messages| < MAX_SKIPS && |messages| < passes
    requires forall i :: 0 <= i < |messages| ==>
      Codec.WellFormed(Text.TypeScript, messages[i])
      && decode(encode(Text.TextOf(messages[i]))) == Text.TextOf(messages[i])
    requires payload != [] && |payload| < Header.WORD64 && Header.PlainAscii(Header.Kept(name))
    ensures Header.Built(|payload|, Header.PayloadFrame, name).Ok?
    ensures var header := Header.Built(|payload|, Header.PayloadFrame, name).value;
      Receive(decode, SessionsOut(Bodies(encode, messages)) + (Arrivals([header] + PaddedChunks(payload)) + rest),
              passes, 0, |payload|)
      == Run(Received(payload, NameOrDefault(name)), messages, rest)
  {
    var bodies := Bodies(encode, messages);
    var frames, wires := SessionsInFront(bodies);
    SentPayloadIsOnWire(payload, name);
    var header := Header.Built(|payload|, Header.PayloadFrame, name).value;
    EmittedAreTheMessages(decode, frames, messages);
    hide Receive, SessionsOut, OnWire, SkippedOnWire, AllEmitted, Arrivals, PaddedChunks, Codec.WellFormed, Text.TextOf;
    PayloadBehindFewFrames(decode, frames, wires, Payload(payload, name), Arrivals([header] + PaddedChunks(payload)),
                           rest, passes, |payload|);
  }
}
