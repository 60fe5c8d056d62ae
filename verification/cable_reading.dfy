/**
 What the readers of the cable take off it and what stops them, for every queue of transfers, and the errors of
 `receiveFileTransfer`.
 */
module CableReading {
  import opened Prelude
  import Header = FrameHeader
  import Text = SessionText
  import opened PayloadStream
  import opened PayloadDelivery
  import opened HeaderWait

  /** The transfer broke, or is longer than the room left for it. */
  predicate Spoilt(t: Transfer, room: nat) {
    t.Broken? || |t.data| > room
  }

  lemma ArrivalsFirst(data: seq<byte>, datas: seq<seq<byte>>, tail: seq<Transfer>)
    ensures Arrivals([data] + datas) + tail == [Arrived(data)] + (Arrivals(datas) + tail)
    ensures Flatten([data] + datas) == data + Flatten(datas)
  {
    assert ([data] + datas)[1..] == datas;
  }

  // ----- transferInExact -----

  /** The bytes taken are those of the transfers in front, none of them empty, and the cable goes on behind them; the
      reader starves when everything holds too few bytes, and stops at the first empty, broken or overlong transfer. */
  ghost predicate ReadsExactly(taken: Taken, n: nat, datas: seq<seq<byte>>, tail: seq<Transfer>) {
    var bytes := Flatten(datas);
    && (forall i :: 0 <= i < |datas| ==> datas[i] != [])
    && match taken
       case Got(got, rest) => got == bytes && |bytes| == n && rest == tail
       case Starved => tail == [] && |bytes| < n
       case Stopped(e, rest) =>
         && |bytes| < n && tail != [] && rest == tail[1..]
         && if tail[0] == Arrived([]) then e == NoData else e == TransferFailed && Spoilt(tail[0], n - |bytes|)
  }

  lemma {:induction false} ExactlyTakes(queue: seq<Transfer>, n: nat)
    returns (datas: seq<seq<byte>>, tail: seq<Transfer>)
    ensures queue == Arrivals(datas) + tail && ReadsExactly(Exactly(queue, n), n, datas, tail)
    decreases |queue|
  {
    datas, tail := [], queue;
    if n > 0 && queue != [] && queue[0].Arrived? && 0 < |queue[0].data| <= n {
      var data := queue[0].data;
      assert Exactly(queue, n) == Prepend(data, Exactly(queue[1..], n - |data|));
      hide ReadsExactly, Flatten, Exactly, Prepend;
      datas, tail := ExactlyTakes(queue[1..], n - |data|);
      ArrivalsFirst(data, datas, tail);
      OneMoreExactly(Exactly(queue[1..], n - |data|), n, data, datas, tail);
      assert queue == [Arrived(data)] + queue[1..];
      datas := [data] + datas;
    }
  }

  lemma OneMoreExactly(taken: Taken, n: nat, data: seq<byte>, datas: seq<seq<byte>>, tail: seq<Transfer>)
    requires 0 < |data| <= n && ReadsExactly(taken, n - |data|, datas, tail)
    ensures ReadsExactly(Prepend(data, taken), n, [data] + datas, tail)
  {
    ArrivalsFirst(data, datas, tail);
    hide Flatten;
  }

  // ----- receivePayloadBytes -----

  /** The same with transfers of up to a chunk, of which the last may hold more than is needed; empty transfers are
      nothing to this reader. */
  ghost predicate ReadsBody(taken: Taken, size: nat, datas: seq<seq<byte>>, tail: seq<Transfer>) {
    var bytes := Flatten(datas);
    && (forall i :: 0 <= i < |datas| ==> |datas[i]| <= CHUNK)
    && match taken
       case Got(got, rest) =>
         && |bytes| >= size && got == bytes[..size] && rest == tail
         && (datas != [] ==> |Flatten(datas[..|datas| - 1])| < size)
       case Starved => tail == [] && |bytes| < size
       case Stopped(e, rest) =>
         && |bytes| < size && tail != [] && rest == tail[1..]
         && e == TransferFailed && Spoilt(tail[0], CHUNK)
  }

  lemma {:induction false} BodyTakes(queue: seq<Transfer>, size: nat)
    returns (datas: seq<seq<byte>>, tail: seq<Transfer>)
    ensures queue == Arrivals(datas) + tail && ReadsBody(Body(queue, size), size, datas, tail)
    decreases |queue|
  {
    datas, tail := [], queue;
    if size > 0 && queue != [] && queue[0].Arrived? && |queue[0].data| <= CHUNK {
      var data := queue[0].data;
      var take := Min(|data|, size);
      assert Body(queue, size) == Prepend(data[..take], Body(queue[1..], size - take));
      hide ReadsBody, Flatten, Body, Prepend;
      datas, tail := BodyTakes(queue[1..], size - take);
      ArrivalsFirst(data, datas, tail);
      OneMoreOfBody(Body(queue[1..], size - take), size, data, datas, tail);
      assert queue == [Arrived(data)] + queue[1..];
      datas := [data] + datas;
    }
  }

  lemma OneMoreOfBody(taken: Taken, size: nat, data: seq<byte>, datas: seq<seq<byte>>, tail: seq<Transfer>)
    requires size > 0 && |data| <= CHUNK && ReadsBody(taken, size - Min(|data|, size), datas, tail)
    ensures ReadsBody(Prepend(data[..Min(|data|, size)], taken), size, [data] + datas, tail)
  {
    ArrivalsFirst(data, datas, tail);
    var all := [data] + datas;
    if datas != [] {
      assert all[..|all| - 1] == [data] + datas[..|datas| - 1];
      ArrivalsFirst(data, datas[..|datas| - 1], tail);
    } else {
      assert all[..0] == [];
    }
    if |data| >= size {
      assert taken.Got? ==> (data + Flatten(datas))[..size] == data[..size] + taken.bytes;
    } else {
      assert taken.Got? ==> (data + Flatten(datas))[..size] == data + Flatten(datas)[..size - |data|];
    }
    hide Flatten;
  }

  // ----- bulk_read_all -----

  /** The C++ reader: transfers of up to what is left, empty ones included; spoilt or missing ones are a failure. */
  ghost predicate ReadsBulk(taken: Taken, n: nat, datas: seq<seq<byte>>, tail: seq<Transfer>) {
    var bytes := Flatten(datas);
    && (forall i :: 0 <= i < |datas| ==> |datas[i]| <= CHUNK)
    && match taken
       case Got(got, rest) => got == bytes && |bytes| == n && rest == tail
       case Starved => tail == [] && |bytes| < n
       case Stopped(_, _) => |bytes| < n && tail != [] && Spoilt(tail[0], Min(n - |bytes|, CHUNK))
  }

  lemma {:induction false} BulkTakes(queue: seq<Transfer>, n: nat) returns (datas: seq<seq<byte>>, tail: seq<Transfer>)
    ensures queue == Arrivals(datas) + tail && ReadsBulk(BulkRead(queue, n), n, datas, tail)
    decreases |queue|
  {
    datas, tail := [], queue;
    if n > 0 && queue != [] && queue[0].Arrived? && |queue[0].data| <= Min(n, CHUNK) {
      var data := queue[0].data;
      assert BulkRead(queue, n) == Prepend(data, BulkRead(queue[1..], n - |data|));
      hide ReadsBulk, Flatten, BulkRead, Prepend;
      datas, tail := BulkTakes(queue[1..], n - |data|);
      ArrivalsFirst(data, datas, tail);
      OneMoreInBulk(BulkRead(queue[1..], n - |data|), n, data, datas, tail);
      assert queue == [Arrived(data)] + queue[1..];
      datas := [data] + datas;
    }
  }

  lemma OneMoreInBulk(taken: Taken, n: nat, data: seq<byte>, datas: seq<seq<byte>>, tail: seq<Transfer>)
    requires |data| <= Min(n, CHUNK) && ReadsBulk(taken, n - |data|, datas, tail)
    ensures ReadsBulk(Prepend(data, taken), n, [data] + datas, tail)
  {
    ArrivalsFirst(data, datas, tail);
    hide Flatten;
  }

  // ----- Errors of receiveFileTransfer -----

  /** A body that is cut short: by a spoilt transfer it fails, by silence it hangs. */
  lemma {:induction false} BodyCutShort(datas: seq<seq<byte>>, tail: seq<Transfer>, size: nat)
    requires |Flatten(datas)| < size && forall i :: 0 <= i < |datas| ==> |datas[i]| <= CHUNK
    requires tail != [] ==> Spoilt(tail[0], CHUNK)
    ensures Body(Arrivals(datas) + tail, size) == if tail == [] then Starved else Stopped(TransferFailed, tail[1..])
    decreases |datas|
  {
    if datas == [] {
      assert Arrivals(datas) + tail == tail;
    } else {
      var data, rest := datas[0], datas[1..];
      assert datas == [data] + rest;
      ArrivalsFirst(data, rest, tail);
      BodyCutShort(rest, tail, size - |data|);
      var queue := Arrivals(datas) + tail;
      assert queue[0] == Arrived(data) && queue[1..] == Arrivals(rest) + tail;
      assert data[..|data|] == data;
    }
  }

  /** The header of a payload that is not empty, but not of the size its caller expects. */
  predicate AnotherSize(parsed: Result<Header.ParsedHeader, Header.HeaderError>, expected: int) {
    && parsed.Ok? && parsed.value.kind == Header.PayloadFrame && parsed.value.fileSize > 0
    && expected > 0 && expected != parsed.value.fileSize
  }

  /** What a header that is not the awaited payload's does to the call: it fails with the header's own error, or for
      its size, and takes nothing more off the cable. */
  lemma HeaderIsRefused(decode: seq<byte> -> string, header: seq<byte>, rest: seq<Transfer>, passes: nat, skipped: nat,
                        expected: int)
    requires |header| == Header.HEADER_SIZE && passes > 0 && skipped < MAX_SKIPS
    ensures var run := Receive(decode, [Arrived(header)] + rest, passes, skipped, expected);
      var parsed := Header.Parsed(header);
      && (parsed.Err? ==> run == Run(Failed(BadHeader(parsed.error)), [], rest))
      && (AnotherSize(parsed, expected) ==> run == Run(Failed(WrongSize), [], rest))
  {
    HeaderTransfer(header, rest);
  }

  /** A frame whose body is cut short ends the call: by a spoilt transfer it fails, behind which the cable goes on; by
      silence it hangs, as the body is awaited without a limit. */
  lemma TornFrameEndsTheCall(decode: seq<byte> -> string, header: seq<byte>, datas: seq<seq<byte>>,
                             tail: seq<Transfer>, passes: nat, skipped: nat)
    requires |header| == Header.HEADER_SIZE && passes > 0 && skipped < MAX_SKIPS && Header.Parsed(header).Ok?
    requires |Flatten(datas)| < Header.Parsed(header).value.fileSize
    requires forall i :: 0 <= i < |datas| ==> |datas[i]| <= CHUNK
    requires tail != [] ==> Spoilt(tail[0], CHUNK)
    ensures Receive(decode, [Arrived(header)] + (Arrivals(datas) + tail), passes, skipped, 0)
         == if tail == [] then Run(Hangs, [], []) else Run(Failed(TransferFailed), [], tail[1..])
  {
    HeaderTransfer(header, Arrivals(datas) + tail);
    BodyCutShort(datas, tail, Header.Parsed(header).value.fileSize);
  }

  /** Without a whole header: silence times out, a spoilt or empty transfer is that error. */
  lemma NoHeaderEndsTheCall(decode: seq<byte> -> string, queue: seq<Transfer>, passes: nat, skipped: nat, expected: int)
    requires passes > 0 && skipped < MAX_SKIPS
    ensures var run := Receive(decode, queue, passes, skipped, expected);
      match Exactly(queue, Header.HEADER_SIZE)
      case Starved => run == Run(Failed(HeaderTimeout), [], [])
      case Stopped(e, rest) => run == Run(Failed(e), [], rest)
      case Got(_, _) => true
  {
  }
}
