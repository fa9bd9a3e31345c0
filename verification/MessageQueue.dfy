/** The worker against an at-least-once queue, as a transition system: messages
    of a batch are handled concurrently, deliveries repeat, handlers fail, the
    worker dies. */
module MessageQueue {
  import opened Options

  type MessageId = nat
  type Receipt = nat
  type TaskId = nat

  /** What parsing the body yields; an empty body counts as absent. */
  datatype Body = Absent | Malformed | Envelope(eventId: string, correlationId: string)

  datatype Message = Message(id: MessageId, body: Body, receipt: Option<Receipt>)
  {
    predicate Complete() {
      body != Absent && receipt.Some?
    }
  }

  datatype Phase = Received | Dispatched | Acknowledged | GivenUp

  datatype Task = Task(message: Message, phase: Phase)

  datatype State = State(
    bodies: map<MessageId, Body>,      // every message ever sent
    queued: set<MessageId>,
    deleted: set<MessageId>,
    receipts: map<Receipt, MessageId>,
    tasks: map<TaskId, Task>,
    dispatched: set<MessageId>)        // those a dispatch completed for

  datatype Step =
    | Send(id: MessageId, body: Body)
    | Deliver(task: TaskId, id: MessageId, receipt: Receipt, lostBody: bool, lostReceipt: bool)
    | Handle(task: TaskId, dispatchFails: bool)
    | Acknowledge(task: TaskId, fails: bool)
    | WorkerDies

  predicate Init(s: State) {
    s == State(map[], {}, {}, map[], map[], {})
  }

  predicate At(s: State, step: Step) {
    match step
    case Send(id, body) => id !in s.bodies
    case Deliver(t, id, receipt, _, _) => t !in s.tasks && id in s.queued && id in s.bodies && receipt !in s.receipts
    case Handle(t, _) => t in s.tasks && s.tasks[t].phase == Received
    case Acknowledge(t, _) =>
      && t in s.tasks && s.tasks[t].phase == Dispatched
      && s.tasks[t].message.receipt.Some? && s.tasks[t].message.receipt.value in s.receipts
    case WorkerDies => true
  }

  function SetPhase(s: State, t: TaskId, phase: Phase): State
    requires t in s.tasks
  {
    s.(tasks := s.tasks[t := s.tasks[t].(phase := phase)])
  }

  function DoHandle(s: State, t: TaskId, dispatchFails: bool): State
    requires t in s.tasks
  {
    var m := s.tasks[t].message;
    if !m.Complete() || !m.body.Envelope? || dispatchFails then SetPhase(s, t, GivenUp)
    else SetPhase(s, t, Dispatched).(dispatched := s.dispatched + {m.id})
  }

  /** DeleteMessage names a receipt; the queue removes the message behind it. */
  function DoAcknowledge(s: State, t: TaskId, fails: bool): State
    requires At(s, Acknowledge(t, fails))
  {
    if fails then SetPhase(s, t, GivenUp)
    else
      var id := s.receipts[s.tasks[t].message.receipt.value];
      SetPhase(s, t, Acknowledged).(queued := s.queued - {id}, deleted := s.deleted + {id})
  }

  function Next(s: State, step: Step): State
    requires At(s, step)
  {
    match step
    case Send(id, body) => s.(bodies := s.bodies[id := body], queued := s.queued + {id})
    case Deliver(t, id, receipt, lostBody, lostReceipt) =>
      var m := Message(id, if lostBody then Absent else s.bodies[id], if lostReceipt then None else Some(receipt));
      s.(receipts := s.receipts[receipt := id], tasks := s.tasks[t := Task(m, Received)])
    case Handle(t, dispatchFails) => DoHandle(s, t, dispatchFails)
    case Acknowledge(t, fails) => DoAcknowledge(s, t, fails)
    case WorkerDies => s.(tasks := map[])
  }

  predicate Runs(s: State, steps: seq<Step>)
    decreases |steps|
  {
    steps == [] || (At(s, steps[0]) && Runs(Next(s, steps[0]), steps[1..]))
  }

  function Run(s: State, steps: seq<Step>): State
    requires Runs(s, steps)
    decreases |steps|
  {
    if steps == [] then s else Run(Next(s, steps[0]), steps[1..])
  }

  // ---------------------------------------------------------------- invariant

  ghost predicate TaskOk(s: State, t: Task) {
    var m := t.message;
    && m.id in s.bodies
    && (m.body != Absent ==> m.body == s.bodies[m.id])
    && (m.receipt.Some? ==> m.receipt.value in s.receipts && s.receipts[m.receipt.value] == m.id)
    && (t.phase == Dispatched || t.phase == Acknowledged ==>
          m.Complete() && m.body.Envelope? && m.id in s.dispatched)
    && (t.phase == Acknowledged ==> m.id in s.deleted)
  }

  ghost predicate Inv(s: State) {
    && s.bodies.Keys == s.queued + s.deleted
    && s.queued !! s.deleted
    && s.deleted <= s.dispatched
    && (forall id <- s.dispatched :: id in s.bodies && s.bodies[id].Envelope?)
    && (forall r <- s.receipts :: s.receipts[r] in s.bodies)
    && (forall t <- s.tasks :: TaskOk(s, s.tasks[t]))
  }

  lemma StepKeepsInv(s: State, step: Step)
    requires Inv(s) && At(s, step)
    ensures Inv(Next(s, step))
  {
    var u := Next(s, step);
    forall t <- u.tasks ensures TaskOk(u, u.tasks[t]) {
      assert t in s.tasks ==> TaskOk(s, s.tasks[t]);
    }
  }

  lemma {:induction false} RunKeepsInv(s: State, steps: seq<Step>)
    requires Inv(s) && Runs(s, steps)
    ensures Inv(Run(s, steps))
    decreases |steps|
  {
    hide Inv;
    if steps != [] {
      StepKeepsInv(s, steps[0]);
      RunKeepsInv(Next(s, steps[0]), steps[1..]);
    }
  }

  /** However deliveries, failures and deaths interleave: every message ever sent
      is either still queued or deleted, nothing else is, and a message is deleted
      only after a dispatch of its well-formed envelope. */
  lemma NothingIsLost(s: State, steps: seq<Step>)
    requires Init(s) && Runs(s, steps)
    ensures var t := Run(s, steps);
      && t.bodies.Keys == t.queued + t.deleted
      && t.queued !! t.deleted
      && |t.bodies| == |t.deleted| + |t.queued|
      && t.deleted <= t.dispatched
      && forall id <- t.deleted :: id in t.bodies && t.bodies[id].Envelope?
  {
    RunKeepsInv(s, steps);
    var t := Run(s, steps);
    assert |t.bodies.Keys| == |t.queued + t.deleted|;
  }

  // ------------------------------------------------------------- independence

  predicate Concerns(step: Step, t: TaskId) {
    match step
    case Handle(u, _) => u == t
    case Acknowledge(u, _) => u == t
    case _ => false
  }

  /** A run in which the worker lives and the task's own steps do not occur. */
  predicate Elsewhere(steps: seq<Step>, t: TaskId) {
    forall i | 0 <= i < |steps| :: !Concerns(steps[i], t) && !steps[i].WorkerDies?
  }

  lemma {:induction false} OthersLeaveTaskAlone(s: State, steps: seq<Step>, t: TaskId)
    requires Runs(s, steps) && Elsewhere(steps, t) && t in s.tasks
    ensures t in Run(s, steps).tasks && Run(s, steps).tasks[t] == s.tasks[t]
    decreases |steps|
  {
    if steps != [] {
      assert !Concerns(steps[0], t) && !steps[0].WorkerDies?;
      forall i | 0 <= i < |steps[1..]| ensures !Concerns(steps[1..][i], t) && !steps[1..][i].WorkerDies? {
        assert steps[1..][i] == steps[i + 1];
      }
      OthersLeaveTaskAlone(Next(s, steps[0]), steps[1..], t);
    }
  }

  /** A delivered, complete, well-formed message is deleted as soon as its own
      dispatch and acknowledgement go through, whatever the rest of the batch
      does before, between and after: any number of failures elsewhere. */
  lemma FailuresDoNotBlockOthers(s: State, t: TaskId, a: seq<Step>, b: seq<Step>)
    requires Inv(s) && t in s.tasks && s.tasks[t].phase == Received
    requires s.tasks[t].message.receipt.Some? && s.tasks[t].message.body.Envelope?
    requires Runs(s, a) && Elsewhere(a, t)
    ensures At(Run(s, a), Handle(t, false))
    ensures var s2 := Next(Run(s, a), Handle(t, false));
      Runs(s2, b) && Elsewhere(b, t) ==>
        && At(Run(s2, b), Acknowledge(t, false))
        && s.tasks[t].message.id in Next(Run(s2, b), Acknowledge(t, false)).deleted
  {
    hide TaskOk;
    OthersLeaveTaskAlone(s, a, t);
    RunKeepsInv(s, a);
    StepKeepsInv(Run(s, a), Handle(t, false));
    var s2 := Next(Run(s, a), Handle(t, false));
    if Runs(s2, b) && Elsewhere(b, t) {
      OthersLeaveTaskAlone(s2, b, t);
      RunKeepsInv(s2, b);
      ReceiptIsKnown(Run(s2, b), t);
    }
  }

  lemma ReceiptIsKnown(s: State, t: TaskId)
    requires Inv(s) && t in s.tasks && s.tasks[t].message.receipt.Some?
    ensures var m := s.tasks[t].message;
      m.receipt.value in s.receipts && s.receipts[m.receipt.value] == m.id
  {
    assert TaskOk(s, s.tasks[t]);
  }
}
