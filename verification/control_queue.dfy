/**
 The traffic controller of a `FabricLink`: a two-priority control queue drained by at most one active
 drain, the promise chain of the USB device, and the promise chain of the session sends.  Each method is one
 synchronous segment between two awaits; a segment of a chain runs when the promise it reacts to has settled.
 */
module ControlQueue {
  import opened Prelude
  import opened PromiseChain

  datatype Priority = Listen | Session

  datatype Job = Job(id: nat, priority: Priority)

  /** What a link of the `usbTail` chain is for. */
  datatype Task = Control(job: Job) | Direct(id: nat)

  datatype Drain = Off | Awaiting(job: Job) | Settling(job: Job, ok: bool)

  /** Where the session send at the head of `sessionSendTail` has got to. */
  datatype SendPhase = NoSend | Queued(id: nat) | Handed(id: nat) | Begun(id: nat) | Returned(id: nat, ok: bool)

  /** One finished use of the device. */
  datatype Use = Use(task: Task, ok: bool)

  /** A task starts only when every task started before it has ended: runs never overlap. */
  ghost predicate Serial(started: seq<Task>, ended: seq<Use>, running: Option<Task>) {
    && |started| == |ended| + (if running.Some? then 1 else 0)
    && (forall i :: 0 <= i < |ended| ==> ended[i].task == started[i])
    && (running.Some? ==> started[|ended|] == running.value)
  }

  /** The control jobs in the USB chain, in order. */
  function ControlJobs(tasks: seq<Task>): seq<Job> {
    if tasks == [] then []
    else if tasks[0].Control? then [tasks[0].job] + ControlJobs(tasks[1..])
    else ControlJobs(tasks[1..])
  }

  lemma {:induction false} ControlJobsSnoc(tasks: seq<Task>, task: Task)
    ensures ControlJobs(tasks + [task]) == ControlJobs(tasks) + if task.Control? then [task.job] else []
  {
    if tasks == [] {
      assert [task][1..] == [] && tasks + [task] == [task];
    } else {
      assert (tasks + [task])[1..] == tasks[1..] + [task];
      ControlJobsSnoc(tasks[1..], task);
    }
  }

  /** Exactly the awaited job, if any, is in the USB chain. */
  ghost predicate Chained(tasks: seq<Task>, drain: Drain) {
    ControlJobs(tasks) == if drain.Awaiting? then [drain.job] else []
  }

  predicate ListenOnly(drain: Drain) {
    drain.Off? || drain.job.priority == Listen
  }

  function SessionPart(phase: SendPhase): seq<Job> {
    if phase.Queued? then [Job(phase.id, Session)] else []
  }

  /** The session job that waits, if any, then at most one listen job. */
  ghost predicate SessionThenListen(q: seq<Job>, phase: SendPhase) {
    var k := |SessionPart(phase)|;
    k <= |q| <= k + 1 && q[..k] == SessionPart(phase) && (k < |q| ==> q[k].priority == Listen)
  }

  function QueuedPoll(q: seq<Job>): seq<nat> {
    if q != [] && q[|q| - 1].priority == Listen then [q[|q| - 1].id] else []
  }

  function DrainedPoll(drain: Drain): seq<nat> {
    if !drain.Off? && drain.job.priority == Listen then [drain.job.id] else []
  }

  /** Where the job of the send at the head of the chain is: in the queue, handed to the device
      chain, running, or settled. */
  ghost predicate SendInPlace(phase: SendPhase, drain: Drain, running: Option<Task>) {
    match phase
    case NoSend => ListenOnly(drain)
    case Returned(_, _) => ListenOnly(drain)
    case Queued(_) => ListenOnly(drain)
    case Handed(id) => drain == Awaiting(Job(id, Session)) && running != Some(Control(Job(id, Session)))
    case Begun(id) =>
      && !drain.Off? && drain.job == Job(id, Session)
      && (drain.Awaiting? ==> running == Some(Control(Job(id, Session))))
  }

  // ----- The three parts of the invariant -----

  ghost predicate DeviceOk(usb: seq<Link<Task>>, drain: Drain, phase: SendPhase, started: seq<Task>, ended: seq<Use>) {
    && Inv(USB, usb)
    && Chained(Unsettled(usb), drain)
    && Serial(started, ended, InProgress(usb))
    && SendInPlace(phase, drain, InProgress(usb))
  }

  ghost predicate QueueOk(q: seq<Job>, drain: Drain, phase: SendPhase, polls: seq<nat>, settledPolls: seq<nat>) {
    SessionThenListen(q, phase) && polls == settledPolls + DrainedPoll(drain) + QueuedPoll(q)
  }

  /** The sends whose jobs have not begun: the one in progress, if its job has not, and those that wait. */
  function NotYetBegun(sends: seq<Link<nat>>, phase: SendPhase): seq<nat> {
    (if phase.Queued? || phase.Handed? then [phase.id] else []) + WaitingOnes(sends)
  }

  /** The send in progress is the one the phase is about, and the calls are those begun and those not yet begun. */
  ghost predicate SendsOk(sends: seq<Link<nat>>, phase: SendPhase, begun: seq<nat>, settled: seq<nat>) {
    && Inv(SEND, sends)
    && InProgress(sends) == (if phase.NoSend? then None else Some(phase.id))
    && Whats(sends) == begun + NotYetBegun(sends, phase)
    && begun == settled + (if phase.Begun? then [phase.id] else [])
  }

  /** The finished uses of the device that were session sends, in order. */
  function SessionUses(ended: seq<Use>): seq<Use> {
    if ended == [] then []
    else
      var last := ended[|ended| - 1];
      SessionUses(ended[..|ended| - 1])
      + if last.task.Control? && last.task.job.priority == Session then [last] else []
  }

  /** The last session use, while its send has not heard of it yet. */
  function Unheard(phase: SendPhase, drain: Drain): seq<Use> {
    if phase.Returned? then [Use(Control(Job(phase.id, Session)), phase.ok)]
    else if drain.Settling? && drain.job.priority == Session then [Use(Control(drain.job), drain.ok)]
    else []
  }

  /** Every send hears of its own use of the device: send `k` has settled as session use `k` went, and only the last
      use may still be on its way to its send. */
  ghost predicate Heard(sends: seq<Link<nat>>, phase: SendPhase, drain: Drain, ended: seq<Use>) {
    exists n: nat :: HeardUpTo(sends, phase, drain, ended, n)
  }

  ghost predicate HeardUpTo(sends: seq<Link<nat>>, phase: SendPhase, drain: Drain, ended: seq<Use>, n: nat) {
    var uses := SessionUses(ended);
    && n <= |sends| && n <= |uses| && uses[n..] == Unheard(phase, drain)
    && (forall k :: 0 <= k < n ==>
          && uses[k].task == Control(Job(sends[k].what, Session))
          && sends[k].run == if uses[k].ok then Fulfilled else Rejected(true))
    && (forall k :: n <= k < |sends| ==> !sends[k].run.Settled())
  }

  /** What every send hears is kept by whatever settles none and delays none. */
  lemma HeardStays(sends: seq<Link<nat>>, phase: SendPhase, drain: Drain, ended: seq<Use>,
                   sends': seq<Link<nat>>, phase': SendPhase, drain': Drain)
    requires Heard(sends, phase, drain, ended) && Unheard(phase', drain') == Unheard(phase, drain)
    requires |sends| <= |sends'| && forall k :: |sends| <= k < |sends'| ==> !sends'[k].run.Settled()
    requires forall k :: 0 <= k < |sends| ==>
      && sends'[k].what == sends[k].what
      && (sends'[k].run == sends[k].run || (!sends[k].run.Settled() && !sends'[k].run.Settled()))
    ensures Heard(sends', phase', drain', ended)
  {
    hide SessionUses;
    var n: nat :| HeardUpTo(sends, phase, drain, ended, n);
    assert HeardUpTo(sends', phase', drain', ended, n);
  }

  /** A session use that ends is on its way to its send; no other use concerns the sends. */
  lemma UseEnds(sends: seq<Link<nat>>, phase: SendPhase, drain: Drain, ended: seq<Use>, task: Task, ok: bool)
    requires Heard(sends, phase, drain, ended) && (task.Control? ==> drain == Awaiting(task.job))
    requires phase.Returned? ==> ListenOnly(drain)
    ensures Heard(sends, phase, if task.Control? then Settling(task.job, ok) else drain, ended + [Use(task, ok)])
  {
    var n: nat :| HeardUpTo(sends, phase, drain, ended, n);
    var uses := SessionUses(ended);
    assert (ended + [Use(task, ok)])[..|ended|] == ended;
    assert SessionUses(ended + [Use(task, ok)])
        == uses + if task.Control? && task.job.priority == Session then [Use(task, ok)] else [];
    hide SessionUses;
    assert (uses + [Use(task, ok)])[n..] == uses[n..] + [Use(task, ok)];
    assert HeardUpTo(sends, phase, if task.Control? then Settling(task.job, ok) else drain, ended + [Use(task, ok)], n);
  }

  /** The send in progress hears of the last session use. */
  lemma SendHears(sends: seq<Link<nat>>, phase: SendPhase, drain: Drain, begun: seq<nat>, settled: seq<nat>,
                  ended: seq<Use>, i: nat)
    requires SendsOk(sends, phase, begun, settled) && Heard(sends, phase, drain, ended)
    requires CanFinish(sends, i) && phase.Returned? && ListenOnly(drain)
    ensures Heard(Finish(sends, i, phase.ok), NoSend, drain, ended)
  {
    RunningIsAlone(SEND, sends, i);
    FinishTakesTheFirst(SEND, sends, i, phase.ok);
    hide SessionUses, Inv, Unsettled, WaitingOnes, InProgress;
    var n: nat :| HeardUpTo(sends, phase, drain, ended, n);
    assert n == i by {
      assert sends[i].run.Running?;
      assert n < |sends| ==> !sends[n].run.Settled();
    }
    assert SessionUses(ended)[n] == SessionUses(ended)[n..][0];
    assert HeardUpTo(Finish(sends, i, phase.ok), NoSend, drain, ended, n + 1);
  }

  // ----- How each segment keeps its part -----

  lemma SendJoins(sends: seq<Link<nat>>, phase: SendPhase, begun: seq<nat>, settled: seq<nat>, id: nat)
    requires SendsOk(sends, phase, begun, settled)
    ensures SendsOk(Join(sends, id), phase, begun, settled)
  {
    JoinKeeps(SEND, sends, id);
    JoinWaits(sends, id);
    assert Whats(Join(sends, id)) == Whats(sends) + [id];
  }

  /** A send whose turn it is finds no other send in progress. */
  lemma SendBegins(sends: seq<Link<nat>>, phase: SendPhase, begun: seq<nat>, settled: seq<nat>, i: nat)
    requires SendsOk(sends, phase, begun, settled) && CanReact(sends, i)
    ensures phase.NoSend? && SendsOk(React(SEND, sends, i), Queued(sends[i].what), begun, settled)
  {
    ReactKeeps(SEND, sends, i);
    ReactTakesTheFirst(SEND, sends, i);
    assert Whats(React(SEND, sends, i)) == Whats(sends);
  }

  lemma SendEnds(sends: seq<Link<nat>>, phase: SendPhase, begun: seq<nat>, settled: seq<nat>, i: nat, ok: bool)
    requires SendsOk(sends, phase, begun, settled) && CanFinish(sends, i) && phase.Returned?
    ensures SendsOk(Finish(sends, i, ok), NoSend, begun, settled)
  {
    FinishKeeps(SEND, sends, i, ok);
    FinishTakesTheFirst(SEND, sends, i, ok);
    assert Whats(Finish(sends, i, ok)) == Whats(sends);
  }

  lemma SendTailSettles(sends: seq<Link<nat>>, phase: SendPhase, begun: seq<nat>, settled: seq<nat>, i: nat)
    requires SendsOk(sends, phase, begun, settled) && CanSettleTail(sends, i)
    ensures SendsOk(SettleTail(SEND, sends, i), phase, begun, settled)
  {
    SettleTailKeeps(SEND, sends, i);
    TailsDoNotWait(SEND, sends, i);
    assert Whats(SettleTail(SEND, sends, i)) == Whats(sends);
  }

  /** A direct use of the device joins the chain. */
  lemma DirectJoins(usb: seq<Link<Task>>, drain: Drain, phase: SendPhase, started: seq<Task>, ended: seq<Use>, id: nat)
    requires DeviceOk(usb, drain, phase, started, ended)
    ensures DeviceOk(Join(usb, Direct(id)), drain, phase, started, ended)
  {
    JoinKeeps(USB, usb, Direct(id));
    JoinWaits(usb, Direct(id));
    ControlJobsSnoc(Unsettled(usb), Direct(id));
  }

  /** The phase of the send once the drain has taken `job` off the queue. */
  function HandedOver(phase: SendPhase, job: Job): SendPhase {
    if phase.Queued? && job == Job(phase.id, Session) then Handed(phase.id) else phase
  }

  /** An idle drain takes the next job and chains it behind whatever uses the device. */
  lemma JobJoins(usb: seq<Link<Task>>, q: seq<Job>, phase: SendPhase, started: seq<Task>, ended: seq<Use>)
    requires DeviceOk(usb, Off, phase, started, ended) && SessionThenListen(q, phase) && q != []
    ensures DeviceOk(Join(usb, Control(q[0])), Awaiting(q[0]), HandedOver(phase, q[0]), started, ended)
  {
    hide Inv, Serial;
    JoinKeeps(USB, usb, Control(q[0]));
    JoinWaits(usb, Control(q[0]));
    ControlJobsSnoc(Unsettled(usb), Control(q[0]));
    NoControlRuns(usb);
  }

  /** With no control job in the chain, none is on the device. */
  lemma {:induction false} NoControlRuns(usb: seq<Link<Task>>)
    requires ControlJobs(Unsettled(usb)) == []
    ensures InProgress(usb).Some? ==> InProgress(usb).value.Direct?
    decreases |usb|
  {
    if usb != [] {
      var rest := Unsettled(usb[1..]);
      if usb[0].run.Settled() {
        assert Unsettled(usb) == rest;
      } else {
        assert Unsettled(usb)[0] == usb[0].what && Unsettled(usb)[1..] == rest;
      }
      NoControlRuns(usb[1..]);
    }
  }

  lemma QueueHandsOver(q: seq<Job>, phase: SendPhase, polls: seq<nat>, settledPolls: seq<nat>)
    requires QueueOk(q, Off, phase, polls, settledPolls) && q != []
    ensures QueueOk(q[1..], Awaiting(q[0]), HandedOver(phase, q[0]), polls, settledPolls)
  {
  }

  /** What the head of the chain does when its turn comes: the session job of the handed send begins. */
  function BegunBy(phase: SendPhase, task: Task): SendPhase {
    if phase.Handed? && task == Control(Job(phase.id, Session)) then Begun(phase.id) else phase
  }

  /** Whose turn it is finds the device unused. */
  lemma TaskBegins(usb: seq<Link<Task>>, drain: Drain, phase: SendPhase, started: seq<Task>, ended: seq<Use>, i: nat)
    requires DeviceOk(usb, drain, phase, started, ended) && CanReact(usb, i)
    ensures InProgress(usb) == None && React(USB, usb, i)[i].run == Running
    ensures DeviceOk(React(USB, usb, i), drain, BegunBy(phase, usb[i].what), started + [usb[i].what], ended)
  {
    ReactKeeps(USB, usb, i);
    ReactTakesTheFirst(USB, usb, i);
  }

  /** The job of a control task that ends is the one the drain awaits. */
  lemma TaskEnds(usb: seq<Link<Task>>, drain: Drain, phase: SendPhase, started: seq<Task>, ended: seq<Use>,
                 i: nat, ok: bool)
    requires DeviceOk(usb, drain, phase, started, ended) && CanFinish(usb, i)
    ensures usb[i].what.Control? ==> drain == Awaiting(usb[i].what.job)
    ensures phase.Returned? ==> ListenOnly(drain)
    ensures DeviceOk(Finish(usb, i, ok), if usb[i].what.Control? then Settling(usb[i].what.job, ok) else drain, phase,
                     started, ended + [Use(usb[i].what, ok)])
  {
    FinishKeeps(USB, usb, i, ok);
    FinishTakesTheFirst(USB, usb, i, ok);
    var rest := Unsettled(Finish(usb, i, ok));
    assert Unsettled(usb)[0] == usb[i].what && Unsettled(usb)[1..] == rest;
    if usb[i].what.Control? {
      assert ControlJobs(Unsettled(usb))[0] == usb[i].what.job;
      assert ControlJobs(rest) == ControlJobs(Unsettled(usb))[1..] == [];
    }
  }

  lemma TaskTailSettles(usb: seq<Link<Task>>, drain: Drain, phase: SendPhase, started: seq<Task>, ended: seq<Use>,
                        i: nat)
    requires DeviceOk(usb, drain, phase, started, ended) && CanSettleTail(usb, i)
    ensures DeviceOk(SettleTail(USB, usb, i), drain, phase, started, ended)
  {
    SettleTailKeeps(USB, usb, i);
    TailsDoNotWait(USB, usb, i);
  }

  lemma SendIsQueued(usb: seq<Link<Task>>, drain: Drain, started: seq<Task>, ended: seq<Use>, id: nat)
    requires DeviceOk(usb, drain, NoSend, started, ended)
    ensures DeviceOk(usb, drain, Queued(id), started, ended)
  {
  }

  lemma SendIsOver(usb: seq<Link<Task>>, drain: Drain, phase: SendPhase, started: seq<Task>, ended: seq<Use>)
    requires DeviceOk(usb, drain, phase, started, ended) && phase.Returned?
    ensures DeviceOk(usb, drain, NoSend, started, ended)
  {
  }

  lemma PollIsQueued(q: seq<Job>, drain: Drain, phase: SendPhase, polls: seq<nat>, settledPolls: seq<nat>, id: nat)
    requires QueueOk(q, drain, phase, polls, settledPolls) && ControlLink.NoListenIn(q)
    ensures QueueOk(q + [Job(id, Listen)], drain, phase, polls + [id], settledPolls)
  {
  }

  /** The drain's job has left the device, and the send it belonged to, if any, is about to hear of it. */
  lemma JobSettles(usb: seq<Link<Task>>, drain: Drain, phase: SendPhase, started: seq<Task>, ended: seq<Use>)
    requires DeviceOk(usb, drain, phase, started, ended) && drain.Settling?
    ensures drain.job.priority == Session ==>
      phase == Begun(drain.job.id) && DeviceOk(usb, Off, Returned(drain.job.id, drain.ok), started, ended)
    ensures drain.job.priority == Listen ==> !phase.Begun? && DeviceOk(usb, Off, phase, started, ended)
  {
  }

  /** The segments an event loop may run, in any order. */
  datatype Segment =
    | SendCalled(id: nat)
    | SendStarts(i: nat)
    | SendReturned(i: nat)
    | SendTail(i: nat)
    | PollCalled(id: nat)
    | DirectCalled(id: nat)
    | TaskStarts(i: nat)
    | TaskSettles(i: nat, ok: bool)
    | TaskTail(i: nat)
    | DrainContinues

  class ControlLink {
    var controlQueue: seq<Job>
    var drain: Drain
    var usb: seq<Link<Task>>
    var sends: seq<Link<nat>>
    var sendPhase: SendPhase

    /** History: session sends in the order they reached the device and in the order they settled; polls taken
        into the queue and settled; and uses of the device. */
    ghost var begun: seq<nat>
    ghost var settled: seq<nat>
    ghost var polls: seq<nat>
    ghost var settledPolls: seq<nat>
    ghost var started: seq<Task>
    ghost var ended: seq<Use>

    /** Session sends in call order. */
    ghost function Called(): seq<nat>
      reads this
    {
      Whats(sends)
    }

    ghost predicate Valid()
      reads this
    {
      && DeviceOk(usb, drain, sendPhase, started, ended)
      && QueueOk(controlQueue, drain, sendPhase, polls, settledPolls)
      && SendsOk(sends, sendPhase, begun, settled)
      && Heard(sends, sendPhase, drain, ended)
      && (controlQueue != [] ==> !drain.Off?)
    }

    constructor ()
      ensures Valid() && Called() == [] && polls == []
    {
      controlQueue, drain, usb, sends, sendPhase := [], Off, [], [], NoSend;
      begun, settled, polls, settledPolls := [], [], [], [];
      started, ended := [], [];
      new;
      assert HeardUpTo(sends, sendPhase, drain, ended, 0);
    }

    /** `sendSessionMessage` up to its first await: the send joins the chain of sends. */
    method CallSend(id: nat)
      requires Valid()
      modifies this`sends
      ensures Valid() && sends == Join(old(sends), id) && Called() == old(Called()) + [id]
    {
      SendJoins(sends, sendPhase, begun, settled, id);
      HeardStays(sends, sendPhase, drain, ended, Join(sends, id), sendPhase, drain);
      hide Heard;
      sends := Join(sends, id);
    }

    /** `drainControlQueue` takes the next job: `runUsb` appends it to the device chain and the drain waits for it. */
    method HandNextJob()
      requires controlQueue != [] && drain.Off?
      requires DeviceOk(usb, drain, sendPhase, started, ended)
      requires QueueOk(controlQueue, drain, sendPhase, polls, settledPolls)
      requires SendsOk(sends, sendPhase, begun, settled) && Heard(sends, sendPhase, drain, ended)
      modifies this`controlQueue, this`drain, this`usb, this`sendPhase
      ensures Valid() && controlQueue == old(controlQueue)[1..] && drain == Awaiting(old(controlQueue)[0])
      ensures usb == Join(old(usb), Control(old(controlQueue)[0]))
      ensures sendPhase == HandedOver(old(sendPhase), old(controlQueue)[0])
    {
      hide DeviceOk, Inv, Heard;
      var job := controlQueue[0];
      HeardStays(sends, sendPhase, drain, ended, sends, HandedOver(sendPhase, job), Awaiting(job));
      JobJoins(usb, controlQueue, sendPhase, started, ended);
      QueueHandsOver(controlQueue, sendPhase, polls, settledPolls);
      controlQueue := controlQueue[1..];
      usb := Join(usb, Control(job));
      drain := Awaiting(job);
      sendPhase := HandedOver(sendPhase, job);
    }

    /** The reaction of `sessionSendTail`: `runSessionSend` puts its job in front of the queue, and a drain starts if
        none is active. */
    method StartSend(i: nat)
      requires Valid() && CanReact(sends, i)
      modifies this`controlQueue, this`drain, this`usb, this`sendPhase, this`sends
      ensures Valid() && old(sendPhase).NoSend? && sends == React(SEND, old(sends), i)
      ensures sendPhase == if old(drain).Off? then Handed(sends[i].what) else Queued(sends[i].what)
      ensures controlQueue == if old(drain).Off? then [] else [Job(sends[i].what, Session)] + old(controlQueue)
      ensures drain == if old(drain).Off? then Awaiting(Job(sends[i].what, Session)) else old(drain)
      ensures usb == if old(drain).Off? then Join(old(usb), Control(Job(sends[i].what, Session))) else old(usb)
    {
      hide DeviceOk, SendsOk, Inv, Heard;
      var id := sends[i].what;
      SendBegins(sends, sendPhase, begun, settled, i);
      HeardStays(sends, sendPhase, drain, ended, React(SEND, sends, i), Queued(id), drain);
      SendIsQueued(usb, drain, started, ended, id);
      sends := React(SEND, sends, i);
      controlQueue := [Job(id, Session)] + controlQueue;
      assert controlQueue[1..] == old(controlQueue) && controlQueue[..1] == [Job(id, Session)];
      sendPhase := Queued(id);
      if drain.Off? {
        HandNextJob();
      }
    }

    /** The send's own continuation: its run settles as its job did. */
    method SendReturns(i: nat)
      requires Valid() && sendPhase.Returned? && CanFinish(sends, i)
      modifies this`sendPhase, this`sends
      ensures Valid() && sendPhase.NoSend? && sends == Finish(old(sends), i, old(sendPhase).ok)
    {
      SendHears(sends, sendPhase, drain, begun, settled, ended, i);
      hide DeviceOk, SendsOk, Inv, Heard;
      SendEnds(sends, sendPhase, begun, settled, i, sendPhase.ok);
      SendIsOver(usb, drain, sendPhase, started, ended);
      sends := Finish(sends, i, sendPhase.ok);
      sendPhase := NoSend;
    }

    method SettleSendTail(i: nat)
      requires Valid() && CanSettleTail(sends, i)
      modifies this`sends
      ensures Valid() && sends == SettleTail(SEND, old(sends), i) && sends[i].tail == Fulfilled
    {
      SendTailSettles(sends, sendPhase, begun, settled, i);
      HeardStays(sends, sendPhase, drain, ended, SettleTail(SEND, sends, i), sendPhase, drain);
      hide Heard;
      sends := SettleTail(SEND, sends, i);
    }

    /** A poll of the listen chain: resolved at once, without running, while another listen job is queued. */
    method EnqueueListen(id: nat) returns (taken: bool)
      requires Valid()
      modifies this`controlQueue, this`drain, this`usb, this`sendPhase, this`polls
      ensures Valid() && sendPhase == old(sendPhase)
      ensures taken <==> NoListenIn(old(controlQueue))
      ensures polls == if taken then old(polls) + [id] else old(polls)
      ensures controlQueue == old(controlQueue) + if taken && !old(drain).Off? then [Job(id, Listen)] else []
      ensures drain == if taken && old(drain).Off? then Awaiting(Job(id, Listen)) else old(drain)
      ensures usb == if taken && old(drain).Off? then Join(old(usb), Control(Job(id, Listen))) else old(usb)
    {
      hide DeviceOk, SendsOk, Inv, Heard;
      if !NoListenIn(controlQueue) {
        return false;
      }
      taken := true;
      PollIsQueued(controlQueue, drain, sendPhase, polls, settledPolls, id);
      controlQueue := controlQueue + [Job(id, Listen)];
      polls := polls + [id];
      if drain.Off? {
        HandNextJob();
      }
    }

    /** Payload transfers and direct receives use the device chain without the control queue. */
    method CallDirect(id: nat)
      requires Valid()
      modifies this`usb
      ensures Valid() && usb == Join(old(usb), Direct(id))
    {
      hide Heard;
      DirectJoins(usb, drain, sendPhase, started, ended, id);
      usb := Join(usb, Direct(id));
    }

    /** The reaction of `usbTail`: the function runs, and nothing else is on the device. */
    method BeginTask(i: nat)
      requires Valid() && CanReact(usb, i)
      modifies this`usb, this`sendPhase, this`begun, this`started
      ensures Valid() && usb == React(USB, old(usb), i) && usb[i].run == Running
      ensures old(InProgress(usb)) == None && started == old(started) + [old(usb)[i].what]
    {
      hide DeviceOk, Inv, Heard;
      HeardStays(sends, sendPhase, drain, ended, sends, BegunBy(sendPhase, usb[i].what), drain);
      TaskBegins(usb, drain, sendPhase, started, ended, i);
      var task := usb[i].what;
      usb := React(USB, usb, i);
      started := started + [task];
      if BegunBy(sendPhase, task) != sendPhase {
        begun := begun + [sendPhase.id];
      }
      sendPhase := BegunBy(sendPhase, task);
    }

    /** The running task settles, well or badly; the drain that awaits it will hear of it. */
    method FinishTask(i: nat, ok: bool)
      requires Valid() && CanFinish(usb, i)
      modifies this`usb, this`drain, this`ended
      ensures Valid() && usb == Finish(old(usb), i, ok)
      ensures ended == old(ended) + [Use(old(usb)[i].what, ok)]
      ensures old(usb)[i].what.Control? ==> drain == Settling(old(usb)[i].what.job, ok)
      ensures old(usb)[i].what.Direct? ==> drain == old(drain)
    {
      hide DeviceOk, Inv, Heard;
      var task := usb[i].what;
      TaskEnds(usb, drain, sendPhase, started, ended, i, ok);
      UseEnds(sends, sendPhase, drain, ended, task, ok);
      usb := Finish(usb, i, ok);
      ended := ended + [Use(task, ok)];
      if task.Control? {
        drain := Settling(task.job, ok);
      }
    }

    /** The tail of a run that failed is fulfilled like any other. */
    method SettleTaskTail(i: nat)
      requires Valid() && CanSettleTail(usb, i)
      modifies this`usb
      ensures Valid() && usb == SettleTail(USB, old(usb), i) && usb[i].tail == Fulfilled
    {
      hide Heard;
      TaskTailSettles(usb, drain, sendPhase, started, ended, i);
      usb := SettleTail(USB, usb, i);
    }

    /** The drain's continuation: resolve or reject the job, then hand over the next one or go idle. */
    method ContinueDrain()
      requires Valid() && drain.Settling?
      modifies this`controlQueue, this`drain, this`usb, this`sendPhase, this`settled, this`settledPolls
      ensures Valid()
      ensures settled == old(settled) + (if old(drain).job.priority == Session then [old(drain).job.id] else [])
      ensures settledPolls ==
        old(settledPolls) + (if old(drain).job.priority == Listen then [old(drain).job.id] else [])
      ensures old(drain).job.priority == Session ==> sendPhase == Returned(old(drain).job.id, old(drain).ok)
      ensures old(controlQueue) == [] ==> drain.Off? && controlQueue == [] && usb == old(usb)
      ensures old(controlQueue) != [] ==>
        && drain == Awaiting(old(controlQueue)[0]) && controlQueue == old(controlQueue)[1..]
        && usb == Join(old(usb), Control(old(controlQueue)[0]))
    {
      hide Inv, Heard;
      var job, ok := drain.job, drain.ok;
      JobSettles(usb, drain, sendPhase, started, ended);
      HeardStays(sends, sendPhase, drain, ended, sends,
                 if job.priority == Session then Returned(job.id, ok) else sendPhase, Off);
      hide DeviceOk;
      if job.priority == Session {
        settled := settled + [job.id];
        sendPhase := Returned(job.id, ok);
      } else {
        settledPolls := settledPolls + [job.id];
      }
      drain := Off;
      if controlQueue != [] {
        HandNextJob();
      }
    }

    static predicate NoListenIn(q: seq<Job>) {
      forall i :: 0 <= i < |q| ==> q[i].priority == Session
    }

    /** Session sends reach the device in the order they were called, although their jobs are unshifted. */
    lemma SendsReachDeviceInCallOrder()
      requires Valid()
      ensures |settled| <= |begun| <= |Called()| && begun == Called()[..|begun|] && settled == Called()[..|settled|]
    {
    }

    /** No run of either chain was rejected along with a failed one before it. */
    ghost predicate NothingStuck()
      reads this
    {
      && (forall i :: 0 <= i < |usb| ==> usb[i].run != Rejected(false))
      && (forall i :: 0 <= i < |sends| ==> sends[i].run != Rejected(false))
    }

    lemma FailuresStopNothing()
      requires Valid()
      ensures NothingStuck()
    {
    }

    /** Send `k` settled as the `k`-th session use of the device went, which was for its own job. */
    ghost predicate OutcomesReachTheSends()
      reads this
    {
      var uses := SessionUses(ended);
      forall k :: 0 <= k < |sends| && sends[k].run.Settled() ==>
        && k < |uses| && uses[k].task == Control(Job(sends[k].what, Session))
        && (sends[k].run.Fulfilled? <==> uses[k].ok)
    }

    lemma SendsSettleAsTheirJobs()
      requires Valid()
      ensures OutcomesReachTheSends()
    {
      hide SessionUses;
      var n: nat :| HeardUpTo(sends, sendPhase, drain, ended, n);
    }

    /** Nothing is on the device, no reaction is due and no continuation is left to run. */
    ghost predicate Quiet()
      reads this
    {
      && (forall i :: !CanReact(usb, i) && !CanFinish(usb, i) && !CanSettleTail(usb, i))
      && (forall i :: !CanReact(sends, i) && !CanSettleTail(sends, i))
      && !drain.Settling? && !sendPhase.Returned?
    }

    /** Then every poll taken and every send called has run and settled, exactly once and in order. */
    lemma QuietMeansAllSettled()
      requires Valid() && Quiet()
      ensures controlQueue == [] && drain.Off? && settled == begun == Called() && settledPolls == polls
    {
      NothingDueNothingLeft(USB, usb);
      assert drain.Off? && sendPhase.NoSend?;
      NoneInProgress(SEND, sends);
      NothingDueNothingLeft(SEND, sends);
    }

    /** Every interleaving: segments that are not due at their turn are skipped. */
    method Interleave(segments: seq<Segment>)
      requires Valid()
      modifies this
      ensures Valid()
      ensures begun == Called()[..|begun|] && settled == Called()[..|settled|]
      ensures controlQueue != [] ==> !drain.Off?
      ensures NothingStuck() && OutcomesReachTheSends()
    {
      hide DeviceOk, QueueOk, SendsOk, Heard;
      for k := 0 to |segments|
        invariant Valid()
      {
        match segments[k]
        case SendCalled(id) => CallSend(id);
        case SendStarts(i) => if CanReact(sends, i) { StartSend(i); }
        case SendReturned(i) => if sendPhase.Returned? && CanFinish(sends, i) { SendReturns(i); }
        case SendTail(i) => if CanSettleTail(sends, i) { SettleSendTail(i); }
        case PollCalled(id) => var _ := EnqueueListen(id);
        case DirectCalled(id) => CallDirect(id);
        case TaskStarts(i) => if CanReact(usb, i) { BeginTask(i); }
        case TaskSettles(i, ok) => if CanFinish(usb, i) { FinishTask(i, ok); }
        case TaskTail(i) => if CanSettleTail(usb, i) { SettleTaskTail(i); }
        case DrainContinues => if drain.Settling? { ContinueDrain(); }
      }
      SendsReachDeviceInCallOrder();
      FailuresStopNothing();
      SendsSettleAsTheirJobs();
    }
  }
}
