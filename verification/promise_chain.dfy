/**
 Promise chains: `run = tail.then(fn); tail = run.then(.., ..)`, the idiom behind `usbTail` and
 `sessionSendTail`.  Links settle one reaction at a time, in any order the event loop may choose; that runs
 take turns, in call order and past failures, is a theorem about the reactions.
 */
module PromiseChain {
  import opened Prelude

  /** A promise.  As a run: not yet called, in progress, or settled; a rejected run that never `ran` was rejected
      along with the tail before it. */
  datatype Phase = Waiting | Running | Fulfilled | Rejected(ran: bool)
  {
    predicate Settled() {
      Fulfilled? || Rejected?
    }
  }

  /** One call: what it is for, the promise of its run and the tail derived from that promise. */
  datatype Link<T> = Link(what: T, run: Phase, tail: Phase)

  /** Whether `fn` is also the rejection handler of the tail before it, and whether the new tail
      handles the run's rejection. */
  datatype Policy = Policy(startsAfterFailure: bool, swallows: bool)
  {
    predicate Healthy() {
      startsAfterFailure || swallows
    }
  }

  /** `usbTail.then(() => fn())`, then `run.then(ok, ok)`. */
  const USB: Policy := Policy(false, true)

  /** `sessionSendTail.then(fn, fn)`, then `run.then(ok, ok)`. */
  const SEND: Policy := Policy(true, true)

  /** The tail a link was chained on; the first one on `Promise.resolve()`. */
  function TailBefore<T>(links: seq<Link<T>>, i: nat): Phase
    requires i < |links|
  {
    if i == 0 then Fulfilled else links[i - 1].tail
  }

  // ----- The reactions -----

  function Join<T>(links: seq<Link<T>>, what: T): seq<Link<T>> {
    links + [Link(what, Waiting, Waiting)]
  }

  /** The tail before a waiting run has settled, so its reaction is due. */
  predicate CanReact<T>(links: seq<Link<T>>, i: nat) {
    i < |links| && links[i].run.Waiting? && TailBefore(links, i).Settled()
  }

  /** The reaction: `fn` is called, or the run is rejected without it. */
  function React<T>(p: Policy, links: seq<Link<T>>, i: nat): seq<Link<T>>
    requires CanReact(links, i)
  {
    var starts := TailBefore(links, i).Fulfilled? || p.startsAfterFailure;
    links[i := links[i].(run := if starts then Running else Rejected(false))]
  }

  predicate CanFinish<T>(links: seq<Link<T>>, i: nat) {
    i < |links| && links[i].run.Running?
  }

  function Finish<T>(links: seq<Link<T>>, i: nat, ok: bool): seq<Link<T>>
    requires CanFinish(links, i)
  {
    links[i := links[i].(run := if ok then Fulfilled else Rejected(true))]
  }

  predicate CanSettleTail<T>(links: seq<Link<T>>, i: nat) {
    i < |links| && links[i].run.Settled() && links[i].tail.Waiting?
  }

  function SettleTail<T>(p: Policy, links: seq<Link<T>>, i: nat): seq<Link<T>>
    requires CanSettleTail(links, i)
  {
    links[i := links[i].(tail := if links[i].run.Fulfilled? || p.swallows then Fulfilled else Rejected(false))]
  }

  // ----- What every reaction keeps -----

  /** A tail settles after its run, and nothing leaves waiting before every earlier tail has settled. */
  ghost predicate Inv<T>(p: Policy, links: seq<Link<T>>) {
    && (forall i :: 0 <= i < |links| ==> !links[i].tail.Running? && (links[i].tail.Waiting? || links[i].run.Settled()))
    && (forall i, j :: 0 <= i < j < |links| && !links[j].run.Waiting? ==> links[i].tail.Settled())
    && (p.swallows ==> forall i :: 0 <= i < |links| ==> !links[i].tail.Rejected?)
    && (p.Healthy() ==> forall i :: 0 <= i < |links| ==> links[i].run != Rejected(false))
  }

  lemma JoinKeeps<T>(p: Policy, links: seq<Link<T>>, what: T)
    requires Inv(p, links)
    ensures Inv(p, Join(links, what))
  {
  }

  /** A run whose reaction is due is the first waiting one: everything before it has settled, everything
      behind it waits. */
  lemma ReactingIsFirst<T>(p: Policy, links: seq<Link<T>>, i: nat)
    requires Inv(p, links) && CanReact(links, i)
    ensures forall k :: 0 <= k < i ==> links[k].tail.Settled() && links[k].run.Settled()
    ensures forall k :: i <= k < |links| ==> links[k].run.Waiting?
  {
    if i > 0 {
      assert links[i - 1].run.Settled();
    }
    forall k | i < k < |links| ensures links[k].run.Waiting? {
      assert !links[i].tail.Settled();
    }
  }

  lemma ReactKeeps<T>(p: Policy, links: seq<Link<T>>, i: nat)
    requires Inv(p, links) && CanReact(links, i)
    ensures Inv(p, React(p, links, i))
    ensures p.Healthy() ==> React(p, links, i)[i].run == Running
  {
    ReactingIsFirst(p, links, i);
  }

  lemma FinishKeeps<T>(p: Policy, links: seq<Link<T>>, i: nat, ok: bool)
    requires Inv(p, links) && CanFinish(links, i)
    ensures Inv(p, Finish(links, i, ok))
  {
  }

  lemma SettleTailKeeps<T>(p: Policy, links: seq<Link<T>>, i: nat)
    requires Inv(p, links) && CanSettleTail(links, i)
    ensures Inv(p, SettleTail(p, links, i))
  {
  }

  /** Only one run is in progress: all before it have settled, all behind it wait. */
  lemma RunningIsAlone<T>(p: Policy, links: seq<Link<T>>, i: nat)
    requires Inv(p, links) && CanFinish(links, i)
    ensures forall k :: 0 <= k < i ==> links[k].run.Settled() && links[k].tail.Settled()
    ensures forall k :: i < k < |links| ==> links[k].run.Waiting?
  {
    forall k | i < k < |links| ensures links[k].run.Waiting? {
      assert links[i].tail.Waiting?;
    }
  }

  /** As long as something is unsettled, something can happen: a run is in progress, or a reaction is due. */
  lemma {:induction false} SomethingIsDue<T>(p: Policy, links: seq<Link<T>>, n: nat) returns (i: nat)
    requires Inv(p, links) && n < |links| && !links[n].tail.Settled()
    ensures CanReact(links, i) || CanFinish(links, i) || CanSettleTail(links, i)
    decreases n
  {
    if !links[n].run.Waiting? {
      i := n;
    } else if TailBefore(links, n).Settled() {
      i := n;
    } else {
      i := SomethingIsDue(p, links, n - 1);
    }
  }

  // ----- The runs that wait, and those that have not settled -----

  function Whats<T>(links: seq<Link<T>>): seq<T> {
    seq(|links|, i requires 0 <= i < |links| => links[i].what)
  }

  function WaitingOnes<T>(links: seq<Link<T>>): seq<T> {
    if links == [] then []
    else (if links[0].run.Waiting? then [links[0].what] else []) + WaitingOnes(links[1..])
  }

  function Unsettled<T>(links: seq<Link<T>>): seq<T> {
    if links == [] then []
    else (if links[0].run.Settled() then [] else [links[0].what]) + Unsettled(links[1..])
  }

  /** The run in progress: the first that is running. */
  function InProgress<T>(links: seq<Link<T>>): Option<T> {
    if links == [] then None
    else if links[0].run.Running? then Some(links[0].what)
    else InProgress(links[1..])
  }

  lemma {:induction false} InProgressAt<T>(links: seq<Link<T>>, n: nat)
    requires n <= |links| && forall k :: 0 <= k < n ==> !links[k].run.Running?
    requires n < |links| ==> links[n].run.Running?
    ensures InProgress(links) == if n < |links| then Some(links[n].what) else None
    decreases |links|
  {
    if n > 0 {
      assert forall k :: 0 <= k < |links| - 1 ==> links[1..][k] == links[k + 1];
      InProgressAt(links[1..], n - 1);
    }
  }

  lemma {:induction false} UnsettledFrom<T>(links: seq<Link<T>>, n: nat)
    requires n <= |links|
    requires forall k :: 0 <= k < |links| ==> (links[k].run.Settled() <==> k < n)
    ensures Unsettled(links) == Whats(links[n..])
    decreases |links|
  {
    if links != [] {
      var rest := links[1..];
      assert forall k :: 0 <= k < |rest| ==> rest[k] == links[k + 1];
      if n > 0 {
        UnsettledFrom(rest, n - 1);
        assert rest[n - 1..] == links[n..];
      } else {
        UnsettledFrom(rest, 0);
        assert Whats(links[0..]) == [links[0].what] + Whats(rest);
      }
    }
  }

  lemma {:induction false} WaitingFrom<T>(links: seq<Link<T>>, n: nat)
    requires n <= |links|
    requires forall k :: 0 <= k < |links| ==> (links[k].run.Waiting? <==> n <= k)
    ensures WaitingOnes(links) == Whats(links[n..])
    decreases |links|
  {
    if links != [] {
      var rest := links[1..];
      assert forall k :: 0 <= k < |rest| ==> rest[k] == links[k + 1];
      if n > 0 {
        WaitingFrom(rest, n - 1);
        assert rest[n - 1..] == links[n..];
      } else {
        WaitingFrom(rest, 0);
        assert Whats(links[0..]) == [links[0].what] + Whats(rest);
      }
    }
  }

  lemma {:induction false} JoinIsWaiting<T>(links: seq<Link<T>>, what: T)
    ensures WaitingOnes(Join(links, what)) == WaitingOnes(links) + [what]
    decreases |links|
  {
    if links == [] {
      assert Join(links, what)[1..] == [];
    } else {
      var first := if links[0].run.Waiting? then [links[0].what] else [];
      assert Join(links, what)[0] == links[0] && Join(links, what)[1..] == Join(links[1..], what);
      JoinIsWaiting(links[1..], what);
      Regroup(first, WaitingOnes(links[1..]), [what]);
    }
  }

  lemma {:induction false} JoinIsUnsettled<T>(links: seq<Link<T>>, what: T)
    ensures Unsettled(Join(links, what)) == Unsettled(links) + [what]
    decreases |links|
  {
    if links == [] {
      assert Join(links, what)[1..] == [];
    } else {
      var first := if links[0].run.Settled() then [] else [links[0].what];
      assert Join(links, what)[0] == links[0] && Join(links, what)[1..] == Join(links[1..], what);
      JoinIsUnsettled(links[1..], what);
      Regroup(first, Unsettled(links[1..]), [what]);
    }
  }

  lemma {:induction false} JoinIsNotRunning<T>(links: seq<Link<T>>, what: T)
    ensures InProgress(Join(links, what)) == InProgress(links)
    decreases |links|
  {
    if links == [] {
      assert Join(links, what)[1..] == [];
    } else {
      assert Join(links, what)[1..] == Join(links[1..], what);
      JoinIsNotRunning(links[1..], what);
    }
  }

  lemma JoinWaits<T>(links: seq<Link<T>>, what: T)
    ensures WaitingOnes(Join(links, what)) == WaitingOnes(links) + [what]
    ensures Unsettled(Join(links, what)) == Unsettled(links) + [what]
    ensures InProgress(Join(links, what)) == InProgress(links)
  {
    JoinIsWaiting(links, what);
    JoinIsUnsettled(links, what);
    JoinIsNotRunning(links, what);
  }

  /** A reaction takes the first of the waiting runs, and nothing is in progress then. */
  lemma ReactTakesTheFirst<T>(p: Policy, links: seq<Link<T>>, i: nat)
    requires Inv(p, links) && p.Healthy() && CanReact(links, i)
    ensures var now := React(p, links, i);
      && WaitingOnes(links) == [links[i].what] + WaitingOnes(now)
      && Unsettled(links) == Unsettled(now) == WaitingOnes(links)
      && InProgress(links) == None && InProgress(now) == Some(links[i].what)
  {
    ReactingIsFirst(p, links, i);
    ReactKeeps(p, links, i);
    hide Inv, WaitingOnes, Unsettled, InProgress;
    InProgressAt(links, |links|);
    InProgressAt(React(p, links, i), i);
    var now := React(p, links, i);
    WaitingFrom(links, i);
    UnsettledFrom(links, i);
    WaitingFrom(now, i + 1);
    UnsettledFrom(now, i);
    FirstOfRest(links, i);
    assert Whats(now[i..]) == Whats(links[i..]) && now[i + 1..] == links[i + 1..];
  }

  lemma FirstOfRest<T>(links: seq<Link<T>>, i: nat)
    requires i < |links|
    ensures Whats(links[i..]) == [links[i].what] + Whats(links[i + 1..])
  {
  }

  /** Finishing takes the run in progress off the unsettled ones. */
  lemma FinishTakesTheFirst<T>(p: Policy, links: seq<Link<T>>, i: nat, ok: bool)
    requires Inv(p, links) && CanFinish(links, i)
    ensures var now := Finish(links, i, ok);
      && Unsettled(links) == [links[i].what] + Unsettled(now)
      && WaitingOnes(now) == WaitingOnes(links) == Unsettled(now)
      && InProgress(links) == Some(links[i].what) && InProgress(now) == None
  {
    RunningIsAlone(p, links, i);
    hide Inv, WaitingOnes, Unsettled, Whats, InProgress;
    InProgressAt(links, i);
    InProgressAt(Finish(links, i, ok), |links|);
    var now := Finish(links, i, ok);
    UnsettledFrom(links, i);
    UnsettledFrom(now, i + 1);
    WaitingFrom(links, i + 1);
    WaitingFrom(now, i + 1);
    FirstOfRest(links, i);
    assert now[i + 1..] == links[i + 1..];
  }

  lemma TailsDoNotWait<T>(p: Policy, links: seq<Link<T>>, i: nat)
    requires CanSettleTail(links, i)
    ensures WaitingOnes(SettleTail(p, links, i)) == WaitingOnes(links)
    ensures Unsettled(SettleTail(p, links, i)) == Unsettled(links)
    ensures InProgress(SettleTail(p, links, i)) == InProgress(links)
  {
    var now := SettleTail(p, links, i);
    SameRuns(links, now);
  }

  lemma {:induction false} SameRuns<T>(a: seq<Link<T>>, b: seq<Link<T>>)
    requires |a| == |b| && forall k :: 0 <= k < |a| ==> a[k].run == b[k].run && a[k].what == b[k].what
    ensures WaitingOnes(a) == WaitingOnes(b) && Unsettled(a) == Unsettled(b) && InProgress(a) == InProgress(b)
    decreases |a|
  {
    if a != [] {
      SameRuns(a[1..], b[1..]);
    }
  }

  /** When nothing can happen any more, every run and every tail has settled. */
  lemma NothingDueNothingLeft<T>(p: Policy, links: seq<Link<T>>)
    requires Inv(p, links)
    requires forall i :: !CanReact(links, i) && !CanFinish(links, i) && !CanSettleTail(links, i)
    ensures WaitingOnes(links) == [] && Unsettled(links) == [] && InProgress(links) == None
    ensures forall k :: 0 <= k < |links| ==> links[k].run.Settled() && links[k].tail.Settled()
  {
    forall k | 0 <= k < |links| ensures links[k].run.Settled() && links[k].tail.Settled() {
      if !links[k].tail.Settled() {
        var i := SomethingIsDue(p, links, k);
      }
    }
    UnsettledFrom(links, |links|);
    WaitingFrom(links, |links|);
    InProgressAt(links, |links|);
  }

  /** No run is in progress exactly when none can finish. */
  lemma NoneInProgress<T>(p: Policy, links: seq<Link<T>>)
    requires Inv(p, links)
    ensures InProgress(links) == None <==> forall i :: !CanFinish(links, i)
  {
    if forall i :: !CanFinish(links, i) {
      forall k | 0 <= k < |links| ensures !links[k].run.Running? {
        assert !CanFinish(links, k);
      }
      InProgressAt(links, |links|);
    } else {
      var i: nat :| CanFinish(links, i);
      FinishTakesTheFirst(p, links, i, true);
    }
  }

  // ----- Whole runs -----

  datatype Step = Call | Reacts(i: nat) | Finishes(i: nat, ok: bool) | Tails(i: nat)

  predicate CanStep(links: seq<Link<nat>>, s: Step) {
    match s
    case Call => true
    case Reacts(i) => CanReact(links, i)
    case Finishes(i, _) => CanFinish(links, i)
    case Tails(i) => CanSettleTail(links, i)
  }

  function After(p: Policy, links: seq<Link<nat>>, s: Step): seq<Link<nat>>
    requires CanStep(links, s)
  {
    match s
    case Call => Join(links, |links|)
    case Reacts(i) => React(p, links, i)
    case Finishes(i, ok) => Finish(links, i, ok)
    case Tails(i) => SettleTail(p, links, i)
  }

  ghost predicate Leads(p: Policy, links: seq<Link<nat>>, steps: seq<Step>, end: seq<Link<nat>>)
    decreases |steps|
  {
    if steps == [] then links == end
    else CanStep(links, steps[0]) && Leads(p, After(p, links, steps[0]), steps[1..], end)
  }

  /** The runs that begin along the way, in the order in which they begin. */
  function Starts(p: Policy, links: seq<Link<nat>>, steps: seq<Step>): seq<nat>
    decreases |steps|
  {
    if steps == [] || !CanStep(links, steps[0]) then []
    else
      var next := After(p, links, steps[0]);
      (if steps[0].Reacts? && next[steps[0].i].run == Running then [steps[0].i] else [])
      + Starts(p, next, steps[1..])
  }

  lemma StepKeepsInv(p: Policy, links: seq<Link<nat>>, s: Step)
    requires Inv(p, links) && CanStep(links, s)
    ensures Inv(p, After(p, links, s))
  {
    match s
    case Call => JoinKeeps(p, links, |links|);
    case Reacts(i) => ReactKeeps(p, links, i);
    case Finishes(i, ok) => FinishKeeps(p, links, i, ok);
    case Tails(i) => SettleTailKeeps(p, links, i);
  }

  lemma {:induction false} LeadsKeepsInv(p: Policy, links: seq<Link<nat>>, steps: seq<Step>, end: seq<Link<nat>>)
    requires Inv(p, links) && Leads(p, links, steps, end)
    ensures Inv(p, end)
    decreases |steps|
  {
    if steps != [] {
      StepKeepsInv(p, links, steps[0]);
      LeadsKeepsInv(p, After(p, links, steps[0]), steps[1..], end);
    }
  }

  /** In every run of every chain, whatever it does with failures, two runs never overlap. */
  lemma RunsNeverOverlap(p: Policy, steps: seq<Step>, end: seq<Link<nat>>, i: nat, j: nat)
    requires Leads(p, [], steps, end) && i < j < |end|
    ensures !(end[i].run.Running? && end[j].run.Running?)
  {
    LeadsKeepsInv(p, [], steps, end);
    if CanFinish(end, i) {
      RunningIsAlone(p, end, i);
    }
  }

  /** How many runs have left waiting. */
  ghost predicate Begun(links: seq<Link<nat>>, n: nat) {
    n <= |links| && forall k :: 0 <= k < |links| ==> (links[k].run.Waiting? <==> n <= k)
  }

  function UpTo(from: nat, to: nat): seq<nat>
    requires from <= to
  {
    seq(to - from, i requires 0 <= i => from + i)
  }

  lemma {:induction false} StartsFollowCalls(p: Policy, links: seq<Link<nat>>, steps: seq<Step>,
                                             end: seq<Link<nat>>, n: nat)
    returns (m: nat)
    requires p.Healthy() && Inv(p, links) && Leads(p, links, steps, end) && Begun(links, n)
    ensures n <= m && Begun(end, m) && Starts(p, links, steps) == UpTo(n, m)
    decreases |steps|
  {
    if steps == [] {
      m := n;
    } else {
      hide Inv;
      var next := After(p, links, steps[0]);
      StepKeepsInv(p, links, steps[0]);
      if steps[0].Reacts? {
        ReactingIsFirst(p, links, steps[0].i);
        ReactKeeps(p, links, steps[0].i);
        assert steps[0].i == n;
        m := StartsFollowCalls(p, next, steps[1..], end, n + 1);
        assert [n] + UpTo(n + 1, m) == UpTo(n, m);
      } else {
        m := StartsFollowCalls(p, next, steps[1..], end, n);
      }
    }
  }

  /** A healthy chain begins its runs in call order, none twice and none left out; the rest still wait. */
  lemma RunsBeginInCallOrder(p: Policy, steps: seq<Step>, end: seq<Link<nat>>)
    requires p.Healthy() && Leads(p, [], steps, end)
    ensures exists m: nat :: Begun(end, m) && Starts(p, [], steps) == UpTo(0, m)
  {
    var m := StartsFollowCalls(p, [], steps, end, 0);
  }

  /** Some run of the chain ends like this. */
  ghost predicate Reachable(p: Policy, end: seq<Link<nat>>) {
    exists steps: seq<Step> :: Leads(p, [], steps, end)
  }

  predicate NothingSkipped(links: seq<Link<nat>>) {
    forall i :: 0 <= i < |links| ==> links[i].run != Rejected(false)
  }

  /** A failure stops no later run, in any run of the chain, if and only if the tail handles the rejection or the
      next link does. */
  lemma FailuresAreContainedIff(p: Policy)
    ensures p.Healthy() <==>
      forall end: seq<Link<nat>> :: Reachable(p, end) ==> NothingSkipped(end)
  {
    if p.Healthy() {
      forall end: seq<Link<nat>> | Reachable(p, end) ensures NothingSkipped(end) {
        var steps: seq<Step> :| Leads(p, [], steps, end);
        LeadsKeepsInv(p, [], steps, end);
      }
    } else {
      var steps, end := AFailureThatSpreads(p);
      assert Reachable(p, end) && !NothingSkipped(end);
    }
  }

  /** Two calls; the first fails, its tail is rejected, and the second is rejected without running. */
  lemma AFailureThatSpreads(p: Policy) returns (steps: seq<Step>, end: seq<Link<nat>>)
    requires !p.Healthy()
    ensures Leads(p, [], steps, end) && |end| == 2 && end[1].run == Rejected(false)
  {
    var l1 := [Link(0, Waiting, Waiting)];
    var l2 := [Link(0, Waiting, Waiting), Link(1, Waiting, Waiting)];
    var l3 := l2[0 := Link(0, Running, Waiting)];
    var l4 := l2[0 := Link(0, Rejected(true), Waiting)];
    var l5 := l2[0 := Link(0, Rejected(true), Rejected(false))];
    end := l5[1 := Link(1, Rejected(false), Waiting)];
    assert Leads(p, end, [], end);
    OneStep(p, l5, Reacts(1), [], end, end);
    OneStep(p, l4, Tails(0), [Reacts(1)], l5, end);
    OneStep(p, l3, Finishes(0, false), [Tails(0), Reacts(1)], l4, end);
    OneStep(p, l2, Reacts(0), [Finishes(0, false), Tails(0), Reacts(1)], l3, end);
    OneStep(p, l1, Call, [Reacts(0), Finishes(0, false), Tails(0), Reacts(1)], l2, end);
    OneStep(p, [], Call, [Call, Reacts(0), Finishes(0, false), Tails(0), Reacts(1)], l1, end);
    steps := [Call] + [Call, Reacts(0), Finishes(0, false), Tails(0), Reacts(1)];
  }

  lemma OneStep(p: Policy, links: seq<Link<nat>>, s: Step, rest: seq<Step>, next: seq<Link<nat>>, end: seq<Link<nat>>)
    requires CanStep(links, s) && After(p, links, s) == next && Leads(p, next, rest, end)
    ensures Leads(p, links, [s] + rest, end)
  {
    assert ([s] + rest)[1..] == rest;
  }
}
