/** How many 4 MB transfers a process keeps in flight (`effective_queue_depth`). */
module QueueDepth {
  import opened Prelude
  import opened ReceivePipeline
  import Safety = ReceiveSafety
  import Runs = ReceiveRuns
  import Sender = SendQueue

  const MEGABYTE: nat := 1024 * 1024
  const DEFAULT_LIMIT_MB: nat := 16
  const WORD: nat := 0x1_0000_0000

  /** The kernel limit in MB; an unreadable or zero knob counts as the historical default. */
  function LimitMb(knob: Option<nat>): (mb: nat) {
    match knob
    case Some(value) => if 0 < value < WORD then value else DEFAULT_LIMIT_MB
    case None => DEFAULT_LIMIT_MB
  }

  /** No larger depth up to the maximum has all its chunks within `bytes`; a depth above 1 has. */
  predicate LargestWithin(depth: nat, bytes: nat) {
    (depth > 1 ==> depth * CHUNK <= bytes) && (depth < QUEUE_DEPTH ==> bytes < (depth + 1) * CHUNK)
  }

  /** An explicit budget overrides the estimate of 40% of the limit; products are 32-bit. */
  method EffectiveQueueDepth(budgetMb: nat, knob: Option<nat>) returns (depth: nat)
    requires budgetMb < WORD
    ensures 1 <= depth <= QUEUE_DEPTH
    ensures depth == DepthFor(if budgetMb == 0 then AutoBudgetMb(LimitMb(knob)) else budgetMb)
    ensures budgetMb > 0 ==> LargestWithin(depth, budgetMb * MEGABYTE)
    ensures budgetMb == 0 && knob.Some? && 0 < knob.value < WORD / 2 ==>
      LargestWithin(depth, knob.value * 2 * MEGABYTE / 5)
    ensures budgetMb == 0 && (knob.None? || knob.value == 0 || knob.value >= WORD) ==>
      LargestWithin(depth, 16 * 2 * MEGABYTE / 5)
    ensures budgetMb == 0 && LimitMb(knob) < WORD / 2 ==> (depth == QUEUE_DEPTH <==> LimitMb(knob) >= 320)
  {
    var budget := budgetMb;
    if budget == 0 {
      var limit := LimitMb(knob);
      budget := ((limit * 2) % WORD) / 5;
    }
    depth := budget * MEGABYTE / CHUNK;
    if depth < 1 {
      depth := 1;
    }
    if depth > QUEUE_DEPTH {
      depth := QUEUE_DEPTH;
    }
    assert budget * MEGABYTE / CHUNK == budget / 4;
    hide LargestWithin;
    LargestForBudget(budgetMb);
    if LimitMb(knob) < WORD / 2 {
      LargestForLimit(LimitMb(knob));
    }
  }

  lemma LargestForBudget(budgetMb: nat)
    ensures LargestWithin(DepthFor(budgetMb), budgetMb * MEGABYTE)
  {
  }

  lemma LargestForLimit(limitMb: nat)
    requires limitMb < WORD / 2
    ensures LargestWithin(DepthFor(AutoBudgetMb(limitMb)), limitMb * 2 * MEGABYTE / 5)
  {
    var budget := limitMb * 2 / 5;
    assert budget * MEGABYTE <= limitMb * 2 * MEGABYTE / 5 < (budget + 1) * MEGABYTE;
  }

  function AutoBudgetMb(limitMb: nat): nat {
    ((limitMb * 2) % WORD) / 5
  }

  function DepthFor(budgetMb: nat): (depth: nat)
    ensures 1 <= depth <= QUEUE_DEPTH
  {
    Max(1, Min(budgetMb / 4, QUEUE_DEPTH))
  }

  /** Transfer memory of one engine at full depth. */
  function FootprintBytes(depth: nat): nat {
    depth * CHUNK
  }

  /** The depth of a process without an explicit budget. */
  function AutoDepth(knob: Option<nat>): nat {
    DepthFor(AutoBudgetMb(LimitMb(knob)))
  }

  lemma TwiceTheDepthFits(knob: Option<nat>)
    ensures 2 * FootprintBytes(AutoDepth(knob)) <= LimitMb(knob) * MEGABYTE <==> LimitMb(knob) >= 8
    ensures LimitMb(knob) < 8 ==> AutoDepth(knob) == 1
  {
    var limit := LimitMb(knob);
    assert AutoBudgetMb(limit) * 5 <= 2 * limit;
    assert 2 * FootprintBytes(AutoDepth(knob)) <= limit * MEGABYTE <==> 8 * AutoDepth(knob) <= limit;
  }

  // ----- What the engines hold -----

  /** Transfers a receive engine has handed to the kernel and not got back. */
  function Outstanding(t: State): int {
    t.submitCount - t.Completions()
  }

  /** Some run of a receive engine at this depth has `n` transfers outstanding. */
  ghost predicate ReceiverHolds(depth: nat, n: int) {
    exists c: Config, events: seq<Event>, t: State ::
      c.Valid() && c.depth == depth && Runs.Leads(c, Init(c), events, t) && n == Outstanding(t)
  }

  /** In every run, whatever fails, a receive engine keeps at most its depth outstanding. */
  lemma ReceiverStaysWithinDepth(c: Config, events: seq<Event>, t: State)
    requires c.Valid() && Runs.Leads(c, Init(c), events, t)
    ensures 0 <= Outstanding(t) <= c.depth
  {
    Safety.InitInv(c);
    Runs.LeadsKeepsInv(c, Init(c), events, t);
  }

  /** Pending transfers hold at most a chunk each. */
  lemma {:induction false} PendingBytesBound(q: seq<Sender.Xfr>)
    requires forall i :: 0 <= i < |q| && q[i].Pending() ==> q[i].validBytes <= CHUNK
    ensures Sender.PendingBytes(q) <= Sender.PendingCount(q) * CHUNK
  {
    if q != [] {
      assert forall i :: 0 <= i < |q| - 1 ==> q[1..][i] == q[i + 1];
      PendingBytesBound(q[1..]);
    }
  }

  /** A send engine between its segments never holds more than its depth allows. */
  lemma SenderStaysWithinDepth(e: Sender.SendEngine)
    requires e.Valid()
    ensures Sender.PendingBytes(e.queue[..]) <= FootprintBytes(e.depth)
  {
    PendingBytesBound(e.queue[..]);
    assert e.active * CHUNK <= e.depth * CHUNK;
  }

  /** Two processes with a receive engine each never hold more transfer memory than the kernel limit, in any two
      runs, if and only if the limit is at least 8 MB. */
  lemma TwoProcessesFitThePool(knob: Option<nat>)
    ensures LimitMb(knob) >= 8 <==>
      forall m: int, n: int :: ReceiverHolds(AutoDepth(knob), m) && ReceiverHolds(AutoDepth(knob), n) ==>
        (m + n) * CHUNK <= LimitMb(knob) * MEGABYTE
  {
    hide ReceiverHolds, AutoDepth, LimitMb;
    if LimitMb(knob) >= 8 {
      forall m: int, n: int | ReceiverHolds(AutoDepth(knob), m) && ReceiverHolds(AutoDepth(knob), n)
        ensures (m + n) * CHUNK <= LimitMb(knob) * MEGABYTE
      {
        TwoFit(knob, m, n);
      }
    } else {
      TwoOverflow(knob);
    }
  }

  lemma TwoFit(knob: Option<nat>, m: int, n: int)
    requires LimitMb(knob) >= 8 && ReceiverHolds(AutoDepth(knob), m) && ReceiverHolds(AutoDepth(knob), n)
    ensures (m + n) * CHUNK <= LimitMb(knob) * MEGABYTE
  {
    HoldsAtMost(AutoDepth(knob), m);
    HoldsAtMost(AutoDepth(knob), n);
    TwiceTheDepthFits(knob);
    hide *;
    SumOfTwo(m, n, AutoDepth(knob), LimitMb(knob));
  }

  lemma SumOfTwo(m: int, n: int, depth: nat, limitMb: nat)
    requires m <= depth && n <= depth && 2 * FootprintBytes(depth) <= limitMb * MEGABYTE
    ensures (m + n) * CHUNK <= limitMb * MEGABYTE
  {
    assert (m + n) * CHUNK <= (2 * depth) * CHUNK;
  }

  lemma TwoOverflow(knob: Option<nat>)
    requires LimitMb(knob) < 8
    ensures ReceiverHolds(AutoDepth(knob), 1) && (1 + 1) * CHUNK > LimitMb(knob) * MEGABYTE
  {
    TwiceTheDepthFits(knob);
    OneIsHeld(AutoDepth(knob));
  }

  lemma HoldsAtMost(depth: nat, n: int)
    requires ReceiverHolds(depth, n)
    ensures 0 <= n <= depth
  {
    var c: Config, events: seq<Event>, t: State :|
      c.Valid() && c.depth == depth && Runs.Leads(c, Init(c), events, t) && n == Outstanding(t);
    ReceiverStaysWithinDepth(c, events, t);
  }

  lemma OneIsHeld(depth: nat)
    requires 1 <= depth <= QUEUE_DEPTH
    ensures ReceiverHolds(depth, 1)
  {
    var c := Config([0], depth);
    var s := Init(c);
    var t := Apply(c, s, Submit);
    assert Runs.Leads(c, t, [], t);
    assert [Submit][1..] == [];
    assert Runs.Leads(c, s, [Submit], t);
    assert Outstanding(t) == 1;
  }

  /** The same for a process that sends beside one that receives, and for two that send. */
  lemma SendersFitThePool(knob: Option<nat>, a: Sender.SendEngine, b: Sender.SendEngine, n: int)
    requires LimitMb(knob) >= 8 && a.Valid() && b.Valid() && a.depth == b.depth == AutoDepth(knob)
    requires ReceiverHolds(AutoDepth(knob), n)
    ensures Sender.PendingBytes(a.queue[..]) + Sender.PendingBytes(b.queue[..]) <= LimitMb(knob) * MEGABYTE
    ensures Sender.PendingBytes(a.queue[..]) + n * CHUNK <= LimitMb(knob) * MEGABYTE
  {
    TwiceTheDepthFits(knob);
    hide AutoDepth, LimitMb, Sender.PendingBytes;
    SenderStaysWithinDepth(a);
    SenderStaysWithinDepth(b);
    HoldsAtMost(AutoDepth(knob), n);
    assert n * CHUNK <= FootprintBytes(AutoDepth(knob));
  }
}
