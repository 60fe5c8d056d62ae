/**
 The web simulator's cables: a rope of received chunks that refines a flat byte queue, and the hub that
 broadcasts every transmission to the other cables.
 */
module RopeBuffer {
  import opened Prelude
  import Header = FrameHeader

  /** `SimReceiveBuffer`. */
  class SimReceiveBuffer {
    var chunks: seq<seq<byte>>
    var totalBytes: int

    ghost predicate Valid()
      reads this
    {
      totalBytes == |Flatten(chunks)| && forall i :: 0 <= i < |chunks| ==> chunks[i] != []
    }

    /** The flat queue the rope stands for. */
    ghost function Contents(): seq<byte>
      reads this
    {
      Flatten(chunks)
    }

    constructor ()
      ensures Valid() && Contents() == []
    {
      chunks, totalBytes := [], 0;
    }

    method Append(data: seq<byte>)
      requires Valid()
      modifies this
      ensures Valid() && Contents() == old(Contents()) + data
    {
      if |data| == 0 {
        assert Contents() + data == Contents();
        return;
      }
      FlattenSnoc(chunks, data);
      chunks := chunks + [data];
      totalBytes := totalBytes + |data|;
    }

    method Clear()
      modifies this
      ensures Valid() && Contents() == []
    {
      chunks, totalBytes := [], 0;
    }

    /** `drain`: whole chunks are shifted off, the last one is cut. */
    method Drain(count: nat) returns (r: seq<byte>)
      requires Valid() && count <= totalBytes
      modifies this
      ensures Valid() && r == old(Contents())[..count] && Contents() == old(Contents())[count..]
      ensures totalBytes == old(totalBytes) - count
    {
      var out := new byte[count](_ => 0 as byte);
      var written := 0;
      ghost var flat := Contents();
      while written < count && |chunks| > 0
        invariant written <= count <= |flat|
        invariant out[..written] == flat[..written] && Flatten(chunks) == flat[written..]
        invariant forall i :: 0 <= i < |chunks| ==> chunks[i] != []
        invariant totalBytes == old(totalBytes) && unchanged(this`totalBytes)
        decreases |Flatten(chunks)|
      {
        var head := chunks[0];
        var take := Min(count - written, |head|);
        HeadOfRest(flat, written, chunks, take);
        Header.Store(out, written, head[..take]);
        ghost var before := written;
        written := written + take;
        assert out[..written] == out[..before] + head[..take];
        if take == |head| {
          chunks := chunks[1..];
        } else {
          CutHead(chunks, take);
          chunks := chunks[0 := head[take..]];
        }
      }
      assert written == count;
      totalBytes := totalBytes - count;
      r := out[..];
      assert r == out[..written];
    }

    /** `readExact` once its waiting ends: enough bytes, or the deadline. */
    method ReadExact(count: nat) returns (r: Option<seq<byte>>)
      requires Valid()
      modifies this
      ensures Valid()
      ensures r == if |old(Contents())| < count then None else Some(old(Contents())[..count])
      ensures Contents() == if r.None? then old(Contents()) else old(Contents())[count..]
    {
      if totalBytes < count {
        return None;
      }
      var data := Drain(count);
      r := Some(data);
    }

    /** `readUpTo` once its waiting ends. */
    method ReadUpTo(maxBytes: nat) returns (r: seq<byte>)
      requires Valid()
      modifies this
      ensures Valid() && r + Contents() == old(Contents()) && |r| == Min(maxBytes, |old(Contents())|)
    {
      var take := Min(maxBytes, totalBytes);
      r := Drain(take);
    }
  }

  lemma HeadOfRest(flat: seq<byte>, written: nat, chunks: seq<seq<byte>>, take: nat)
    requires written <= |flat| && chunks != [] && Flatten(chunks) == flat[written..] && take <= |chunks[0]|
    ensures written + take <= |flat| && flat[written..written + take] == chunks[0][..take]
    ensures flat[..written + take] == flat[..written] + chunks[0][..take]
    ensures chunks[0][take..] + Flatten(chunks[1..]) == flat[written + take..]
  {
    assert Flatten(chunks) == chunks[0] + Flatten(chunks[1..]);
    assert flat[written..][..take] == flat[written..written + take];
    assert flat[written..][take..] == flat[written + take..];
  }

  lemma CutHead(chunks: seq<seq<byte>>, take: nat)
    requires chunks != [] && take <= |chunks[0]|
    ensures Flatten(chunks[0 := chunks[0][take..]]) == chunks[0][take..] + Flatten(chunks[1..])
  {
    var cut := chunks[0 := chunks[0][take..]];
    assert cut[1..] == chunks[1..];
  }

  // ----- The hub -----

  const CABLES: nat := 4

  datatype Transmission = Transmission(sender: int, data: seq<byte>)

  /** Everything the other cables transmitted, in order. */
  function Heard(log: seq<Transmission>, cable: int): seq<byte> {
    if log == [] then []
    else Heard(log[..|log| - 1], cable) + if log[|log| - 1].sender == cable then [] else log[|log| - 1].data
  }

  function NothingYet(): (d: seq<seq<byte>>)
    ensures |d| == CABLES && forall c :: 0 <= c < CABLES ==> d[c] == []
  {
    seq(CABLES, _ => [])
  }

  class FabricHub {
    const rx: seq<SimReceiveBuffer>
    ghost var log: seq<Transmission>
    ghost var drained: seq<seq<byte>>

    ghost predicate Valid()
      reads this, rx
    {
      && |rx| == CABLES && |drained| == CABLES
      && (forall i, j :: 0 <= i < j < CABLES ==> rx[i] != rx[j])
      && (forall c :: 0 <= c < CABLES ==> rx[c].Valid())
      && forall c :: 0 <= c < CABLES ==> drained[c] + rx[c].Contents() == Heard(log, c)
    }

    constructor ()
      ensures Valid() && log == [] && drained == NothingYet() && fresh(rx)
    {
      var buffers: seq<SimReceiveBuffer> := [];
      for n := 0 to CABLES
        invariant |buffers| == n && fresh(buffers)
        invariant forall i, j :: 0 <= i < j < n ==> buffers[i] != buffers[j]
        invariant forall i :: 0 <= i < n ==> buffers[i].Valid() && buffers[i].Contents() == []
      {
        var buffer := new SimReceiveBuffer();
        buffers := buffers + [buffer];
      }
      rx := buffers;
      log, drained := [], NothingYet();
    }

    /** `fabricHubTransmit`: to every cable but the sender's, whatever the sender is. */
    method Transmit(sender: int, data: seq<byte>)
      requires Valid()
      modifies this`log, rx
      ensures Valid() && log == old(log) + [Transmission(sender, data)] && drained == old(drained)
    {
      for c := 0 to CABLES
        invariant log == old(log) && drained == old(drained)
        invariant forall k :: 0 <= k < CABLES ==> rx[k].Valid()
        invariant forall k :: 0 <= k < CABLES ==>
          rx[k].Contents() == old(rx[k].Contents()) + if k < c && k != sender then data else []
      {
        if c != sender {
          rx[c].Append(data);
        }
      }
      log := log + [Transmission(sender, data)];
      forall c | 0 <= c < CABLES ensures drained[c] + rx[c].Contents() == Heard(log, c) {
        assert log[..|log| - 1] == old(log);
        assert drained[c] + old(rx[c].Contents()) == Heard(old(log), c);
      }
    }

    method Read(cable: nat, maxBytes: nat) returns (r: seq<byte>)
      requires Valid() && cable < CABLES
      modifies this`drained, rx[cable]
      ensures Valid() && log == old(log) && drained == old(drained)[cable := old(drained)[cable] + r]
      ensures |r| == Min(maxBytes, |Heard(log, cable)| - |old(drained)[cable]|)
    {
      r := rx[cable].ReadUpTo(maxBytes);
      assert drained[cable] + (r + rx[cable].Contents()) == drained[cable] + r + rx[cable].Contents();
      drained := drained[cable := drained[cable] + r];
      assert log == old(log);
    }

    method Reset()
      requires Valid()
      modifies this, rx
      ensures Valid() && log == [] && drained == NothingYet()
    {
      for c := 0 to CABLES
        invariant forall k :: 0 <= k < CABLES ==> rx[k].Valid()
        invariant forall k :: 0 <= k < c ==> rx[k].Contents() == []
      {
        rx[c].Clear();
      }
      log, drained := [], NothingYet();
    }
  }

  /** A cable hears exactly what it would hear had it never sent anything itself. */
  function Others(log: seq<Transmission>, cable: int): seq<Transmission> {
    if log == [] then []
    else Others(log[..|log| - 1], cable) + if log[|log| - 1].sender == cable then [] else [log[|log| - 1]]
  }

  lemma {:induction false} OthersAreTheRest(log: seq<Transmission>, cable: int)
    ensures forall t :: t in Others(log, cable) <==> t in log && t.sender != cable
  {
    if log != [] {
      var front, last := log[..|log| - 1], log[|log| - 1];
      OthersAreTheRest(front, cable);
      assert log == front + [last];
    }
  }

  lemma HeardSnoc(log: seq<Transmission>, t: Transmission, cable: int)
    ensures Heard(log + [t], cable) == Heard(log, cable) + if t.sender == cable then [] else t.data
  {
    assert (log + [t])[..|log|] == log;
  }

  lemma {:induction false} NeverItsOwn(log: seq<Transmission>, cable: int)
    ensures Heard(log, cable) == Heard(Others(log, cable), cable)
    ensures forall t :: t in Others(log, cable) <==> t in log && t.sender != cable
  {
    OthersAreTheRest(log, cable);
    if log != [] {
      var front, last := log[..|log| - 1], log[|log| - 1];
      NeverItsOwn(front, cable);
      HeardSnoc(Others(front, cable), last, cable);
      assert Others(front, cable) + [] == Others(front, cable);
    }
  }

  /** Two cables that are both silent hear the same bytes. */
  lemma {:induction false} SilentCablesHearTheSame(log: seq<Transmission>, a: int, b: int)
    requires forall t :: t in log ==> t.sender != a && t.sender != b
    ensures Heard(log, a) == Heard(log, b)
  {
    if log != [] {
      SilentCablesHearTheSame(log[..|log| - 1], a, b);
      assert log[|log| - 1] in log;
    }
  }
}
