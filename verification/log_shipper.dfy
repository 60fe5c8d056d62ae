/**
 The booth log's ring and its incremental shipper: which lines a batch holds, and when the batches add up
 to the whole log.
 */
module LogShipper {
  import opened Prelude

  const MAX_LINES: nat := 400

  datatype Line = Line(text: string)

  // ----- computeNewLines -----

  /** The last `k` lines of `prev` are the first `k` of `curr`. */
  predicate IsOverlap(prev: seq<Line>, curr: seq<Line>, k: nat) {
    k <= |prev| && k <= |curr| && prev[|prev| - k..] == curr[..k]
  }

  /** `curr` from behind the longest overlap. */
  ghost predicate AreNewLines(prev: seq<Line>, curr: seq<Line>, r: seq<Line>) {
    exists k: nat :: LongestOverlap(prev, curr, k) && r == curr[k..]
  }

  ghost predicate LongestOverlap(prev: seq<Line>, curr: seq<Line>, k: nat) {
    IsOverlap(prev, curr, k) && forall j: nat :: IsOverlap(prev, curr, j) ==> j <= k
  }

  method ComputeNewLines(prev: seq<Line>, curr: seq<Line>) returns (r: seq<Line>)
    ensures AreNewLines(prev, curr, r)
  {
    var overlap := Min(|prev|, |curr|);
    while overlap > 0
      invariant 0 <= overlap <= Min(|prev|, |curr|)
      invariant forall j: nat :: IsOverlap(prev, curr, j) ==> j <= overlap
    {
      var matches := true;
      for i := 0 to overlap
        invariant matches && forall n :: 0 <= n < i ==> prev[|prev| - overlap + n] == curr[n]
      {
        if prev[|prev| - overlap + i] != curr[i] {
          assert prev[|prev| - overlap..][i] != curr[..overlap][i];
          matches := false;
          break;
        }
      }
      if matches {
        assert prev[|prev| - overlap..] == curr[..overlap];
        assert LongestOverlap(prev, curr, overlap);
        return curr[overlap..];
      }
      assert !IsOverlap(prev, curr, overlap);
      overlap := overlap - 1;
    }
    assert prev[|prev|..] == curr[..0];
    assert LongestOverlap(prev, curr, 0) && curr[0..] == curr;
    r := curr;
  }

  // ----- Snapshots of one log -----

  /** What the ring shows of the lines logged so far. */
  function Tail(all: seq<Line>): seq<Line> {
    all[Max(0, |all| - MAX_LINES)..]
  }

  predicate Distinct(lines: seq<Line>) {
    forall i, j :: 0 <= i < j < |lines| ==> lines[i] != lines[j]
  }

  /** Where the ring's snapshot of the first `p` lines starts. */
  function RingStart(p: nat): nat {
    Max(0, p - MAX_LINES)
  }

  /** The last `k` lines of the first `a` are the first `k` the ring shows of the first `p`. */
  predicate Recurs(all: seq<Line>, a: nat, p: nat, k: nat)
    requires a <= p <= |all|
  {
    k <= Min(a, MAX_LINES) && RingStart(p) + k <= p && all[a - k..a] == all[RingStart(p)..RingStart(p) + k]
  }

  /** A longer end of the shipped snapshot than the one both snapshots share recurs at the start of the ring. */
  ghost predicate Misleads(all: seq<Line>, a: nat, p: nat)
    requires a <= p <= |all|
  {
    exists k: nat :: k > Max(0, a - RingStart(p)) && Recurs(all, a, p, k)
  }

  lemma OverlapIsRecurrence(all: seq<Line>, a: nat, p: nat, k: nat)
    requires a <= p <= |all|
    ensures IsOverlap(Tail(all[..a]), Tail(all[..p]), k) <==> Recurs(all, a, p, k)
  {
    TailIsSlice(all, a);
    TailIsSlice(all, p);
    var n := a - RingStart(a);
    if k <= n && RingStart(p) + k <= p {
      SliceOfSlice(all, RingStart(a), a, n - k, n);
      SliceOfSlice(all, RingStart(p), p, 0, k);
    }
  }

  lemma TailIsSlice(all: seq<Line>, n: nat)
    requires n <= |all|
    ensures Tail(all[..n]) == all[RingStart(n)..n]
  {
  }

  lemma SliceOfSlice(all: seq<Line>, lo: nat, hi: nat, i: nat, j: nat)
    requires i <= j && lo + j <= hi <= |all|
    ensures all[lo..hi][i..j] == all[lo + i..lo + j]
    ensures i == 0 ==> all[lo..hi][..j] == all[lo..lo + j]
    ensures lo + j == hi ==> all[lo..hi][i..] == all[lo + i..hi]
  {
    var part := all[lo..hi];
    assert forall n :: 0 <= n < hi - lo ==> part[n] == all[lo + n];
    assert forall n :: 0 <= n < j - i ==> part[i..j][n] == part[i + n];
    assert part[i..j] == all[lo + i..lo + j];
    assert part[..j] == all[lo..lo + j];
    if lo + j == hi {
      assert part[i..] == all[lo + i..hi];
    }
  }

  /** What both snapshots share of the log always overlaps. */
  lemma SharedLinesRecur(all: seq<Line>, a: nat, p: nat)
    requires a <= p <= |all|
    ensures Recurs(all, a, p, Max(0, a - RingStart(p)))
  {
    var s := RingStart(p);
    if a <= s {
      assert all[a..a] == [] == all[s..s];
    } else {
      assert s + (a - s) == a;
    }
  }

  lemma BatchOfOverlap(all: seq<Line>, a: nat, p: nat, batch: seq<Line>) returns (k: nat)
    requires a <= p <= |all| && AreNewLines(Tail(all[..a]), Tail(all[..p]), batch)
    ensures Max(0, a - RingStart(p)) <= k <= p - RingStart(p) && batch == all[RingStart(p) + k..p]
    ensures Recurs(all, a, p, k) && forall j: nat :: Recurs(all, a, p, j) ==> j <= k
  {
    k :| LongestOverlap(Tail(all[..a]), Tail(all[..p]), k) && batch == Tail(all[..p])[k..];
    OverlapIsRecurrence(all, a, p, k);
    forall j: nat | Recurs(all, a, p, j) ensures j <= k {
      OverlapIsRecurrence(all, a, p, j);
    }
    SharedLinesRecur(all, a, p);
    assert Tail(all[..p]) == all[RingStart(p)..p];
  }

  /** For every log, lines repeated or not: a batch is exactly the lines logged since the last successful post that
      the ring still shows, if and only if no longer end of the shipped snapshot recurs at the start of the ring.
      Otherwise it is too short. */
  lemma BatchIsExactIff(all: seq<Line>, a: nat, p: nat, batch: seq<Line>)
    requires a <= p <= |all| && AreNewLines(Tail(all[..a]), Tail(all[..p]), batch)
    ensures batch == all[Max(a, RingStart(p))..p] <==> !Misleads(all, a, p)
    ensures Misleads(all, a, p) <==> |batch| < p - Max(a, RingStart(p))
    ensures |batch| <= p - Max(a, RingStart(p))
  {
    var k := BatchOfOverlap(all, a, p, batch);
    if Misleads(all, a, p) {
      var j: nat :| j > Max(0, a - RingStart(p)) && Recurs(all, a, p, j);
      assert j <= k;
    } else {
      assert k == Max(0, a - RingStart(p));
    }
  }

  lemma DistinctLinesNeverMislead(all: seq<Line>, a: nat, p: nat)
    requires a <= p <= |all| && Distinct(all)
    ensures !Misleads(all, a, p)
  {
    forall k: nat | k > Max(0, a - RingStart(p)) && k <= a && RingStart(p) + k <= p
      ensures !Recurs(all, a, p, k)
    {
      assert all[a - k..a][k - 1] == all[a - 1];
      assert all[RingStart(p)..RingStart(p) + k][k - 1] == all[RingStart(p) + k - 1];
    }
  }

  /** Without repeated lines every batch is exact. */
  lemma BatchIsWhatIsNew(all: seq<Line>, a: nat, p: nat, batch: seq<Line>)
    requires a <= p <= |all| && Distinct(all)
    requires AreNewLines(Tail(all[..a]), Tail(all[..p]), batch)
    ensures batch == all[Max(a, RingStart(p))..p]
  {
    BatchIsExactIff(all, a, p, batch);
    DistinctLinesNeverMislead(all, a, p);
  }

  /** While nothing has been evicted, the batch is right even with repeated lines. */
  lemma NothingEvictedNothingLost(all: seq<Line>, a: nat, p: nat, batch: seq<Line>)
    requires a <= p <= |all| && p <= MAX_LINES
    requires AreNewLines(Tail(all[..a]), Tail(all[..p]), batch)
    ensures batch == all[a..p]
  {
    BatchIsExactIff(all, a, p, batch);
  }

  /** Once lines repeat and the ring is full, a new line can go unseen: 400 equal lines and one more. */
  lemma RepeatedLinesCanBeLost(line: Line, batch: seq<Line>)
    requires var all := seq(MAX_LINES + 1, (_: nat) => line);
      AreNewLines(Tail(all[..MAX_LINES]), Tail(all[..MAX_LINES + 1]), batch)
    ensures batch == []
  {
    var all := seq(MAX_LINES + 1, (_: nat) => line);
    assert all[0..MAX_LINES] == all[1..1 + MAX_LINES];
    assert Recurs(all, MAX_LINES, MAX_LINES + 1, MAX_LINES);
    var k := BatchOfOverlap(all, MAX_LINES, MAX_LINES + 1, batch);
  }

  // ----- The ring and the shipper -----

  /** `boothLog`'s module array with the shipper's cursor.  `all` is every line logged, `acked` how many of
      them the last successful snapshot covers, `posting` how many the one in flight covers. */
  class BoothLog {
    var lines: seq<Line>
    var lastTail: seq<Line>
    var inFlight: bool
    var curr: seq<Line>
    var batch: seq<Line>
    var shipped: seq<Line>
    ghost var all: seq<Line>
    ghost var acked: nat
    ghost var posting: nat
    ghost var everyGapFits: bool
    ghost var everyBatchWhole: bool

    ghost predicate Snapshots()
      reads this
    {
      && acked <= |all| && lines == Tail(all) && lastTail == Tail(all[..acked])
      && (inFlight ==> acked <= posting <= |all| && curr == Tail(all[..posting]) && AreNewLines(lastTail, curr, batch))
    }

    /** What has been shipped is the whole log up to the cursor if and only if every successful batch was whole.
        Without repeated lines that means no more than 400 lines between two successful posts, and even with a
        gap the shipped lines are in the log, each once. */
    ghost predicate Delivered()
      reads this
      requires acked <= |all|
    {
      && |shipped| <= acked
      && (everyBatchWhole <==> shipped == all[..acked])
      && (Distinct(all) ==> (
            && Distinct(shipped)
            && (forall l :: l in shipped ==> l in all[..acked])
            && everyBatchWhole == everyGapFits))
    }

    ghost predicate Valid()
      reads this
    {
      Snapshots() && Delivered()
    }

    constructor ()
      ensures Valid() && all == [] && shipped == [] && everyGapFits && everyBatchWhole
    {
      lines, lastTail, inFlight, curr, batch, shipped := [], [], false, [], [], [];
      all, acked, posting, everyGapFits, everyBatchWhole := [], 0, 0, true, true;
    }

    /** `boothLog`: push, then shift while there are too many. */
    method Log(line: Line)
      requires Valid()
      modifies this
      ensures Valid() && all == old(all) + [line]
      ensures shipped == old(shipped) && acked == old(acked) && inFlight == old(inFlight)
      ensures everyGapFits == old(everyGapFits) && everyBatchWhole == old(everyBatchWhole)
    {
      all := all + [line];
      lines := lines + [line];
      while |lines| > MAX_LINES
        invariant Min(|all|, MAX_LINES) <= |lines| <= |all|
        invariant lines == all[|all| - |lines|..]
        invariant unchanged(this`lastTail, this`inFlight, this`curr, this`batch, this`shipped)
        invariant acked == old(acked) && posting == old(posting)
        invariant everyGapFits == old(everyGapFits) && everyBatchWhole == old(everyBatchWhole)
        invariant all == old(all) + [line]
      {
        lines := lines[1..];
      }
      assert all[..acked] == old(all)[..acked];
      assert inFlight ==> all[..posting] == old(all)[..posting];
      assert Distinct(all) ==> Distinct(old(all)) by {
        assert forall i :: 0 <= i < |old(all)| ==> all[i] == old(all)[i];
      }
    }

    /** `ship` up to its post. */
    method Ship()
      requires Valid()
      modifies this`inFlight, this`curr, this`batch, this`posting
      ensures Valid()
      ensures old(inFlight) ==> inFlight && curr == old(curr) && batch == old(batch) && posting == old(posting)
      ensures !old(inFlight) && inFlight ==>
        curr == lines && posting == |all| && batch != [] && AreNewLines(lastTail, lines, batch)
      ensures !inFlight ==> AreNewLines(lastTail, lines, [])
    {
      if inFlight {
        return;
      }
      var snapshot := lines;
      var newLines := ComputeNewLines(lastTail, snapshot);
      if newLines == [] {
        return;
      }
      curr, batch := snapshot, newLines;
      posting := |all|;
      assert all[..posting] == all;
      inFlight := true;
    }

    /** The post's outcome: only success moves the cursor. */
    method Settle(ok: bool)
      requires Valid() && inFlight
      modifies this
      ensures Valid() && !inFlight && all == old(all)
      ensures shipped == old(shipped) + if ok then old(batch) else []
      ensures acked == if ok then old(posting) else old(acked)
      ensures everyGapFits == (old(everyGapFits) && (ok ==> old(posting) - old(acked) <= MAX_LINES))
      ensures everyBatchWhole == (old(everyBatchWhole) && (ok ==> Whole(all, old(acked), old(posting))))
    {
      if ok {
        ShippedGrows(all, acked, posting, shipped, batch, everyBatchWhole);
        if Distinct(all) {
          ShippedOnce(all, acked, posting, shipped, batch);
          DistinctLinesNeverMislead(all, acked, posting);
        }
        everyGapFits := everyGapFits && posting - acked <= MAX_LINES;
        everyBatchWhole := everyBatchWhole && Whole(all, acked, posting);
        lastTail := curr;
        shipped := shipped + batch;
        acked := posting;
      }
      inFlight := false;
    }
  }

  /** Nothing between the two snapshots was evicted, and no repetition hides a part of it. */
  ghost predicate Whole(all: seq<Line>, a: nat, p: nat)
    requires a <= p <= |all|
  {
    p - a <= MAX_LINES && !Misleads(all, a, p)
  }

  /** One more successful batch, for every log: what is shipped stays the whole log up to the cursor if and only if
      it was and the batch is whole; a loss is never made up for. */
  lemma ShippedGrows(all: seq<Line>, a: nat, p: nat, shipped: seq<Line>, batch: seq<Line>, whole: bool)
    requires a <= p <= |all| && AreNewLines(Tail(all[..a]), Tail(all[..p]), batch)
    requires |shipped| <= a && (whole <==> shipped == all[..a])
    ensures |shipped + batch| <= p
    ensures whole && Whole(all, a, p) <==> shipped + batch == all[..p]
  {
    BatchIsExactIff(all, a, p, batch);
    if whole && Whole(all, a, p) {
      assert all[..a] + all[a..p] == all[..p];
    }
    EqualFronts(all, a, p, shipped, batch);
  }

  lemma EqualFronts(all: seq<Line>, a: nat, p: nat, front: seq<Line>, back: seq<Line>)
    requires a <= p <= |all|
    ensures |front| == a && front + back == all[..p] ==> front == all[..a]
  {
    if |front| == a && front + back == all[..p] {
      assert front == (front + back)[..a];
    }
  }

  /** Without repeated lines, no line is ever shipped twice. */
  lemma ShippedOnce(all: seq<Line>, a: nat, p: nat, shipped: seq<Line>, batch: seq<Line>)
    requires a <= p <= |all| && Distinct(all) && AreNewLines(Tail(all[..a]), Tail(all[..p]), batch)
    requires Distinct(shipped) && forall l :: l in shipped ==> l in all[..a]
    ensures Distinct(shipped + batch) && forall l :: l in shipped + batch ==> l in all[..p]
  {
    BatchIsWhatIsNew(all, a, p, batch);
    ShippedStaysDistinct(all, a, Max(a, RingStart(p)), p, shipped);
    forall l | l in shipped ensures l in all[..p] {
      var i :| 0 <= i < a && all[..a][i] == l;
      assert all[..p][i] == l;
    }
  }

  lemma ShippedStaysDistinct(all: seq<Line>, a: nat, from: nat, p: nat, shipped: seq<Line>)
    requires a <= from <= p <= |all| && Distinct(all) && Distinct(shipped)
    requires forall l :: l in shipped ==> l in all[..a]
    ensures Distinct(shipped + all[from..p])
  {
    var both := shipped + all[from..p];
    forall i, j | 0 <= i < j < |both| ensures both[i] != both[j] {
      if i < |shipped| <= j {
        assert shipped[i] in all[..a];
        var n :| 0 <= n < a && all[n] == shipped[i];
        assert both[j] == all[from + j - |shipped|];
      }
    }
  }
}
