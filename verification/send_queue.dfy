/**
 The asynchronous send queue of `send_file_core`: up to `depth` bulk writes outstanding,
 each refilled from the file as soon as it completes, and a cancel-and-drain loop after an error.
 libusb, the disk and the clock are environment: their answers are chosen arbitrarily.
 */
module SendQueue {
  import opened Prelude

  /** `ok` is meaningful once `completed` is set by the callback. */
  datatype Xfr = Xfr(buf: seq<byte>, validBytes: nat, inFlight: bool, completed: bool, ok: bool)
  {
    /** Submitted and not yet reaped by the main loop. */
    predicate Pending() {
      inFlight || completed
    }
  }

  function PendingCount(q: seq<Xfr>): nat {
    if q == [] then 0 else (if q[0].Pending() then 1 else 0) + PendingCount(q[1..])
  }

  function PendingBytes(q: seq<Xfr>): nat {
    if q == [] then 0 else (if q[0].Pending() then q[0].validBytes else 0) + PendingBytes(q[1..])
  }

  lemma {:induction false} CountUpdate(q: seq<Xfr>, i: nat, x: Xfr)
    requires i < |q|
    ensures PendingCount(q[i := x]) == PendingCount(q) - PendingCount([q[i]]) + PendingCount([x])
    ensures PendingBytes(q[i := x]) == PendingBytes(q) - PendingBytes([q[i]]) + PendingBytes([x])
  {
    if i == 0 {
      assert q[0 := x][1..] == q[1..];
    } else {
      assert q[i := x][1..] == q[1..][i - 1 := x];
      CountUpdate(q[1..], i - 1, x);
    }
  }

  /** Overwriting an idle transfer adds exactly what the new one contributes. */
  lemma Refill(q: seq<Xfr>, i: nat, x: Xfr)
    requires i < |q| && !q[i].Pending()
    ensures PendingCount(q[i := x]) == PendingCount(q) + if x.Pending() then 1 else 0
    ensures PendingBytes(q[i := x]) == PendingBytes(q) + if x.Pending() then x.validBytes else 0
  {
    CountUpdate(q, i, x);
    assert [q[i]][1..] == [] && [x][1..] == [];
  }

  /** Reaping a pending transfer takes exactly its contribution away. */
  lemma Reap(q: seq<Xfr>, i: nat)
    requires i < |q| && q[i].Pending()
    ensures var r := q[i := q[i].(completed := false, inFlight := false)];
      PendingCount(r) == PendingCount(q) - 1 && PendingBytes(r) == PendingBytes(q) - q[i].validBytes
  {
    var x := q[i].(completed := false, inFlight := false);
    CountUpdate(q, i, x);
    assert [q[i]][1..] == [] && [x][1..] == [];
  }

  /** A callback turns an in-flight transfer into a completed one, which is still pending. */
  lemma {:induction false} CallbacksKeepCounts(q: seq<Xfr>, r: seq<Xfr>)
    requires |q| == |r|
    requires forall i :: 0 <= i < |q| ==> r[i].Pending() == q[i].Pending() && r[i].validBytes == q[i].validBytes
    ensures PendingCount(r) == PendingCount(q) && PendingBytes(r) == PendingBytes(q)
  {
    if q != [] {
      assert forall i :: 0 <= i < |q| - 1 ==> q[1..][i] == q[i + 1] && r[1..][i] == r[i + 1];
      CallbacksKeepCounts(q[1..], r[1..]);
    }
  }

  lemma {:induction false} NonePending(q: seq<Xfr>)
    ensures PendingCount(q) == 0 <==> forall i :: 0 <= i < |q| ==> !q[i].Pending()
    ensures PendingCount(q) == 0 ==> PendingBytes(q) == 0
  {
    if q != [] {
      NonePending(q[1..]);
      assert forall i :: 1 <= i < |q| ==> q[i] == q[1..][i - 1];
      assert forall i :: 0 <= i < |q| - 1 ==> q[1..][i] == q[i + 1];
    }
  }

  lemma {:induction false} EveryPendingTransferHasBytes(q: seq<Xfr>)
    requires forall i :: 0 <= i < |q| ==> q[i].Pending() ==> q[i].validBytes > 0
    ensures PendingBytes(q) >= PendingCount(q)
  {
    if q != [] {
      assert forall i :: 0 <= i < |q| - 1 ==> q[1..][i] == q[i + 1];
      EveryPendingTransferHasBytes(q[1..]);
    }
  }

  /** Conservation: `active` counts the pending transfers, every byte read is sent, pending or lost,
      and what has been submitted is a prefix of the file. */
  ghost predicate Books(file: seq<byte>, q: seq<Xfr>, submitted: seq<seq<byte>>,
                        active: int, bytesRead: nat, bytesSent: nat, lost: nat) {
    && active == PendingCount(q)
    && bytesRead == bytesSent + PendingBytes(q) + lost
    && bytesRead <= |file|
    && Flatten(submitted) == file[..bytesRead]
    && (forall i :: 0 <= i < |submitted| ==> 0 < |submitted[i]| <= CHUNK)
    && (forall i :: 0 <= i < |q| ==> !(q[i].inFlight && q[i].completed))
  }

  /** Every pending transfer's buffer is still the one that was submitted. */
  ghost predicate Intact(q: seq<Xfr>, submitted: seq<seq<byte>>) {
    forall i :: 0 <= i < |q| ==> q[i].Pending() ==>
      |q[i].buf| == CHUNK && 0 < q[i].validBytes <= CHUNK && q[i].buf[..q[i].validBytes] in submitted
  }

  lemma SubmittedBooks(file: seq<byte>, q: seq<Xfr>, submitted: seq<seq<byte>>,
                       active: int, bytesRead: nat, bytesSent: nat, lost: nat, i: nat, x: Xfr)
    requires Books(file, q, submitted, active, bytesRead, bytesSent, lost) && Intact(q, submitted)
    requires i < |q| && !q[i].Pending() && x.inFlight && !x.completed
    requires 0 < x.validBytes <= CHUNK && bytesRead + x.validBytes <= |file| && |x.buf| == CHUNK
    requires x.buf[..x.validBytes] == file[bytesRead..bytesRead + x.validBytes]
    ensures var data := file[bytesRead..bytesRead + x.validBytes];
      && Books(file, q[i := x], submitted + [data], active + 1, bytesRead + x.validBytes, bytesSent, lost)
      && Intact(q[i := x], submitted + [data])
  {
    var data := file[bytesRead..bytesRead + x.validBytes];
    Refill(q, i, x);
    FlattenSnoc(submitted, data);
    assert file[..bytesRead] + data == file[..bytesRead + x.validBytes];
    assert (submitted + [data])[|submitted|] == data;
  }

  /** A slot that holds no pending transfer, before or after, is not in the books. */
  lemma UnsentBooks(file: seq<byte>, q: seq<Xfr>, submitted: seq<seq<byte>>,
                    active: int, bytesRead: nat, bytesSent: nat, lost: nat, i: nat, x: Xfr)
    requires Books(file, q, submitted, active, bytesRead, bytesSent, lost) && Intact(q, submitted)
    requires i < |q| && !q[i].Pending() && !x.Pending()
    ensures Books(file, q[i := x], submitted, active, bytesRead, bytesSent, lost) && Intact(q[i := x], submitted)
  {
    Refill(q, i, x);
  }

  lemma BooksBound(file: seq<byte>, q: seq<Xfr>, submitted: seq<seq<byte>>,
                   active: int, bytesRead: nat, bytesSent: nat, lost: nat)
    requires Books(file, q, submitted, active, bytesRead, bytesSent, lost)
    ensures bytesRead <= |file|
  {
  }

  /** The bytes of the completed transfers in front of the first failed one. */
  function Reapable(q: seq<Xfr>): nat {
    if q == [] then 0
    else if !q[0].completed then Reapable(q[1..])
    else if q[0].ok then q[0].validBytes + Reapable(q[1..])
    else 0
  }

  predicate SomeFailed(q: seq<Xfr>) {
    exists i :: 0 <= i < |q| && q[i].completed && !q[i].ok
  }

  /** When every transfer has completed well, all pending bytes can be reaped. */
  lemma {:induction false} AllReapable(q: seq<Xfr>)
    requires forall i :: 0 <= i < |q| ==> !q[i].inFlight && !(q[i].completed && !q[i].ok)
    ensures Reapable(q) == PendingBytes(q)
  {
    if q != [] {
      assert forall i :: 0 <= i < |q| - 1 ==> q[1..][i] == q[i + 1];
      AllReapable(q[1..]);
    }
  }

  /** Every buffer submitted is a full chunk; once the file has ended, the last one may be shorter. */
  predicate FullReads(submitted: seq<seq<byte>>, ended: bool) {
    forall i :: 0 <= i < |submitted| ==>
      0 < |submitted[i]| <= CHUNK && (|submitted[i]| == CHUNK || (ended && i == |submitted| - 1))
  }

  class SendEngine {
    const file: seq<byte>
    const depth: nat
    const queue: array<Xfr>
    var position: nat
    var bytesRead: nat
    var bytesSent: nat
    var active: int
    var diskDone: bool
    var error: bool

    /** History: the buffers handed to the device, in submission order, and the bytes of
        transfers that were reaped without having been sent. */
    ghost var submitted: seq<seq<byte>>
    ghost var lost: nat

    /** Whether the disk, the device or a transfer has failed. */
    ghost var faulted: bool

    /** Whether a read away from the end of the file did not fill its buffer. */
    ghost var shortRead: bool

    ghost predicate Valid()
      reads this, queue
    {
      && queue.Length == QUEUE_DEPTH
      && 1 <= depth <= QUEUE_DEPTH
      && active <= depth
      && Books(file, queue[..], submitted, active, bytesRead, bytesSent, lost)
      && Intact(queue[..], submitted)
      && (!error ==> position == bytesRead && lost == 0)
      && (error <==> faulted)
      && (diskDone ==> bytesRead == |file|)
      && (!shortRead ==> FullReads(submitted, bytesRead == |file|))
    }

    constructor (file: seq<byte>, depth: nat)
      requires 1 <= depth <= QUEUE_DEPTH
      ensures Valid() && fresh(queue)
      ensures this.file == file && this.depth == depth
      ensures active == 0 && !diskDone && !error && submitted == [] && bytesSent == 0 && !shortRead && !faulted
    {
      this.file := file;
      this.depth := depth;
      queue := new Xfr[QUEUE_DEPTH](_ => Xfr(seq(CHUNK, _ => 0 as byte), 0, false, false, false));
      position, bytesRead, bytesSent, active := 0, 0, 0, 0;
      diskDone, error := false, false;
      submitted, lost, shortRead, faulted := [], 0, false, false;
      new;
      NonePending(queue[..]);
    }

    /** `submit_next`: `got` is what the disk delivered, `accepted` whether libusb took the transfer. */
    method SubmitNext(i: nat, got: int, accepted: bool) returns (submittedOne: bool)
      requires Valid() && !error && i < queue.Length
      requires !queue[i].Pending() && active < depth
      requires got <= Min(|file| - bytesRead, CHUNK)
      modifies this, queue
      ensures Valid() && bytesSent == old(bytesSent) && lost == old(lost)
      ensures shortRead == (old(shortRead) || (submittedOne && got < Min(|file| - old(bytesRead), CHUNK)))
      ensures forall k :: 0 <= k < queue.Length && k != i ==> queue[k] == old(queue[k])
      ensures submittedOne <==> !old(diskDone) && old(bytesRead) < |file| && got > 0 && accepted
      ensures error <==> !old(diskDone) && old(bytesRead) < |file| && !submittedOne
      ensures faulted <==> !old(diskDone) && old(bytesRead) < |file| && (got <= 0 || !accepted)
      ensures submittedOne ==> (diskDone <==> bytesRead == |file|)
      ensures submittedOne ==>
        && submitted == old(submitted) + [file[old(bytesRead)..old(bytesRead) + got]]
        && bytesRead == old(bytesRead) + got && active == old(active) + 1
      ensures !submittedOne ==> submitted == old(submitted) && bytesRead == old(bytesRead) && active == old(active)
      ensures !submittedOne && !error ==> diskDone
      ensures !queue[i].completed && queue[i].inFlight == submittedOne
      ensures submittedOne ==>
        && queue[i].validBytes == got <= CHUNK <= |queue[i].buf|
        && queue[i].buf[..got] == file[old(bytesRead)..old(bytesRead) + got]
    {
      hide Books, Intact;
      if diskDone {
        return false;
      }
      BooksBound(file, queue[..], submitted, active, bytesRead, bytesSent, lost);
      var remaining := |file| - bytesRead;
      if remaining == 0 {
        diskDone := true;
        return false;
      }
      ghost var q0 := queue[..];
      var data := if got <= 0 then [] else file[position..position + got];
      position := position + |data|;
      var goesOut := got > 0 && accepted;
      var filled := data + seq(CHUNK - |data|, _ => 0 as byte);
      var next := queue[i].(buf := filled, completed := false, inFlight := goesOut,
        validBytes := if got > 0 then got else queue[i].validBytes);
      queue[i] := next;
      assert queue[..] == q0[i := next];
      faulted := got <= 0 || !accepted;
      if !goesOut {
        UnsentBooks(file, q0, submitted, active, bytesRead, bytesSent, lost, i, next);
        error := true;
        return false;
      }
      assert next.buf[..got] == data;
      SubmittedBooks(file, q0, submitted, active, bytesRead, bytesSent, lost, i, next);
      shortRead := shortRead || got < Min(|file| - bytesRead, CHUNK);
      submitted := submitted + [data];
      bytesRead := bytesRead + got;
      if bytesRead >= |file| {
        diskDone := true;
      }
      active := active + 1;
      return true;
    }

    /** `libusb_handle_events_timeout`: any in-flight transfers complete, well or badly;
        with `all` set, every one of them does. */
    method HandleEvents(all: bool)
      requires Valid()
      modifies queue
      ensures Valid()
      ensures forall i :: 0 <= i < queue.Length ==>
        && (queue[i].Pending() <==> old(queue[i].Pending()))
        && (old(queue[i].completed) ==> queue[i] == old(queue[i]))
        && queue[i].buf == old(queue[i].buf) && queue[i].validBytes == old(queue[i].validBytes)
      ensures all ==> forall i :: 0 <= i < queue.Length ==> !queue[i].inFlight
    {
      ghost var q0 := queue[..];
      for i := 0 to queue.Length
        invariant forall k :: 0 <= k < queue.Length ==>
          && queue[k].Pending() == q0[k].Pending()
          && queue[k].buf == q0[k].buf
          && queue[k].validBytes == q0[k].validBytes
          && (q0[k].completed ==> queue[k] == q0[k])
        invariant forall k :: 0 <= k < queue.Length ==> !(queue[k].inFlight && queue[k].completed)
        invariant all ==> forall k :: 0 <= k < i ==> !queue[k].inFlight
      {
        var done: bool := *;
        var good: bool := *;
        if queue[i].inFlight && (done || all) {
          queue[i] := queue[i].(inFlight := false, completed := true, ok := good);
        }
      }
      CallbacksKeepCounts(q0, queue[..]);
    }

    /** Take one completed transfer out of the books. */
    method TakeCompleted(i: nat) returns (x: Xfr)
      requires Valid() && i < queue.Length && queue[i].completed
      modifies this`active, this`lost, this`bytesSent, this`error, this`faulted, queue
      ensures faulted <==> old(faulted) || !x.ok
      ensures Valid() && x == old(queue[i]) && !queue[i].Pending()
      ensures active == old(active) - 1
      ensures forall k :: 0 <= k < queue.Length && k != i ==> queue[k] == old(queue[k])
      ensures if x.ok then bytesSent == old(bytesSent) + x.validBytes && lost == old(lost) && error == old(error)
              else error && bytesSent == old(bytesSent) && lost == old(lost) + x.validBytes
    {
      x := queue[i];
      ghost var q0 := queue[..];
      queue[i] := x.(completed := false);
      assert queue[..] == q0[i := x.(completed := false, inFlight := false)];
      Reap(q0, i);
      active := active - 1;
      faulted := faulted || !x.ok;
      if x.ok {
        bytesSent := bytesSent + x.validBytes;
      } else {
        error := true;
        lost := lost + x.validBytes;
      }
    }

    /** Until the whole file has been read, or something fails, the engine keeps its depth of transfers in flight. */
    ghost predicate Busy()
      reads this
    {
      !error && !diskDone ==> active == depth && bytesRead < |file|
    }

    /** One slot of that loop; a failed transfer stops it, a failed refill does not. */
    method ReapOne(i: nat) returns (goOn: bool)
      requires Valid() && Busy() && i < queue.Length
      modifies this, queue
      ensures Valid() && Busy() && !queue[i].completed
      ensures forall k :: 0 <= k < queue.Length && k != i ==> queue[k] == old(queue[k])
      ensures (old(error) ==> error) && (old(diskDone) ==> diskDone)
      ensures goOn == (old(queue[i].completed) ==> old(queue[i].ok))
      ensures bytesSent ==
        old(bytesSent) + if old(queue[i].completed && queue[i].ok) then old(queue[i].validBytes) else 0
      ensures !old(queue[i].completed) ==> queue[i] == old(queue[i])
      ensures !goOn ==> error
      ensures old(queue[i].completed) && !error && !diskDone ==> queue[i].inFlight
    {
      goOn := true;
      if queue[i].completed {
        var refill := !error && !diskDone;
        var x := TakeCompleted(i);
        goOn := x.ok;
        if x.ok && refill {
          var got: int := *;
          var accepted: bool := *;
          var _ := SubmitNext(i, Min(got, Min(|file| - bytesRead, CHUNK)), accepted);
        }
      }
    }

    /** The `for` over the queue after each event pump: reap what completed and refill it at once. */
    method ReapPass()
      requires Valid() && Busy() && !error
      modifies this, queue
      ensures Valid() && Busy()
      ensures bytesSent == old(bytesSent) + Reapable(old(queue[..]))
      ensures SomeFailed(old(queue[..])) ==> error
      ensures forall k :: 0 <= k < queue.Length && !old(queue[k].completed) ==> queue[k] == old(queue[k])
      ensures !SomeFailed(old(queue[..])) ==> forall k :: 0 <= k < queue.Length ==> !queue[k].completed
      ensures !error && !diskDone ==>
        forall k :: 0 <= k < queue.Length && old(queue[k].completed) ==> queue[k].inFlight
    {
      hide Books, Intact;
      ghost var q0 := queue[..];
      assert q0[0..] == q0;
      for i := 0 to queue.Length
        invariant Valid() && Busy()
        invariant bytesSent + Reapable(q0[i..]) == old(bytesSent) + Reapable(q0)
        invariant forall k :: i <= k < queue.Length ==> queue[k] == q0[k]
        invariant forall k :: 0 <= k < i ==> !queue[k].completed && (q0[k].completed ==> q0[k].ok)
        invariant forall k :: 0 <= k < i && !q0[k].completed ==> queue[k] == q0[k]
        invariant !error && !diskDone ==> forall k :: 0 <= k < i && q0[k].completed ==> queue[k].inFlight
      {
        assert q0[i..][1..] == q0[i + 1..];
        var goOn := ReapOne(i);
        if !goOn {
          break;
        }
      }
    }

    /** Cancel and wait: `passes[k]` says whether every cancelled transfer has completed by pump `k`. */
    method Drain(passes: seq<bool>)
      requires Valid() && error
      modifies this`active, this`lost, queue
      ensures Valid()
      ensures true in passes ==> active == 0
    {
      var pass := 0;
      while active > 0 && pass < |passes|
        invariant Valid()
        invariant 0 <= pass <= |passes|
        invariant true in passes[..pass] ==> active == 0
        decreases |passes| - pass
      {
        HandleEvents(passes[pass]);
        DropCompleted();
        if passes[pass] {
          NonePending(queue[..]);
        }
        pass := pass + 1;
      }
      assert active > 0 ==> passes[..pass] == passes;
    }

    method DropCompleted()
      requires Valid() && error
      modifies this`active, this`lost, queue
      ensures Valid()
      ensures forall k :: 0 <= k < queue.Length ==> !queue[k].completed && queue[k].inFlight == old(queue[k].inFlight)
    {
      for i := 0 to queue.Length
        invariant Valid()
        invariant forall k :: 0 <= k < queue.Length ==> queue[k].inFlight == old(queue[k].inFlight)
        invariant forall k :: 0 <= k < i ==> !queue[k].completed
      {
        if queue[i].completed {
          ghost var q0 := queue[..];
          lost := lost + queue[i].validBytes;
          queue[i] := queue[i].(completed := false);
          assert queue[..] == q0[i := q0[i].(completed := false, inFlight := false)];
          Reap(q0, i);
          active := active - 1;
        }
      }
    }

    /** The first submissions, at most `depth` of them. */
    method Start()
      requires Valid() && active == 0 && !error && !diskDone && bytesRead == 0
      modifies this, queue
      ensures Valid() && Busy()
    {
      NonePending(queue[..]);
      for i := 0 to depth
        invariant Valid()
        invariant forall k :: i <= k < queue.Length ==> !queue[k].Pending()
        invariant !error && !diskDone ==> active == i && (i > 0 ==> bytesRead < |file|)
      {
        if diskDone || error {
          break;
        }
        var got: int := *;
        var accepted: bool := *;
        var _ := SubmitNext(i, Min(got, Min(|file| - bytesRead, CHUNK)), accepted);
      }
    }

    /** One turn of the main loop; a pump by which every transfer has completed brings the send forward, or ends it. */
    method PumpAndReap(all: bool)
      requires Valid() && Busy() && !error && active > 0
      modifies this, queue
      ensures Valid() && Busy() && bytesSent >= old(bytesSent)
      ensures all ==> error || bytesSent > old(bytesSent)
    {
      HandleEvents(all);
      if all && !SomeFailed(queue[..]) {
        AllReapable(queue[..]);
        EveryPendingTransferHasBytes(queue[..]);
      }
      ReapPass();
    }

    /** The whole engine over the event pumps, and `drain` more pumps after an error; `pumps[k]` says whether every
        transfer in flight has completed by pump `k`.  Any finite stretch of any environment is covered, and the send
        ends: with such pumps enough, it succeeds exactly when nothing fails. */
    method Send(pumps: seq<bool>, drain: seq<bool>) returns (ok: bool)
      requires Valid() && active == 0 && !error && !diskDone && bytesRead == 0
      modifies this, queue
      ensures Valid()
      ensures ok ==> Flatten(submitted) == file && bytesSent == |file| && lost == 0 && active == 0
      ensures ok && !shortRead ==> FullReads(submitted, true)
      ensures !error && active == 0 ==> ok
      ensures error ==> !ok
      ensures error && true in drain ==> active == 0
      ensures multiset(pumps)[true] >= |file| ==> (ok <==> !faulted)
    {
      Start();
      var pass := 0;
      while active > 0 && !error && pass < |pumps|
        invariant Valid() && Busy() && pass <= |pumps|
        invariant !error ==> bytesSent >= multiset(pumps[..pass])[true]
        decreases |pumps| - pass
      {
        PumpAndReap(pumps[pass]);
        assert pumps[..pass + 1] == pumps[..pass] + [pumps[pass]];
        pass := pass + 1;
      }
      assert pass == |pumps| ==> pumps[..pass] == pumps;
      NonePending(queue[..]);
      EveryPendingTransferHasBytes(queue[..]);
      if error {
        Drain(drain);
      }
      ok := !error && bytesSent == |file|;
      assert file[..|file|] == file;
    }
  }
}
