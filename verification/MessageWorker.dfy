/** The worker as the object it is: poll, handle every message of the batch,
    acknowledge the ones that went through. The queue carries the state of the
    transition system as a ghost, and every method moves it by that system's steps,
    so what holds of all its runs holds of the objects. */
module MessageWorker {
  import opened Options
  import opened MessageQueue

  /** What the outside world does with one message of a batch. */
  datatype Fault = Fault(dispatchFails: bool, acknowledgeFails: bool)

  /** One message handed out by the queue, perhaps without its body or receipt. */
  datatype Delivery = Delivery(task: TaskId, id: MessageId, receipt: Receipt, lostBody: bool, lostReceipt: bool)

  function StepOf(d: Delivery): Step {
    Deliver(d.task, d.id, d.receipt, d.lostBody, d.lostReceipt)
  }

  function StepsOf(deliveries: seq<Delivery>): seq<Step> {
    seq(|deliveries|, i requires 0 <= i < |deliveries| => StepOf(deliveries[i]))
  }

  class Queue {
    var bodies: map<MessageId, Body>
    var queued: set<MessageId>
    var deleted: set<MessageId>
    var receipts: map<Receipt, MessageId>
    ghost var state: State

    ghost predicate Valid()
      reads this
    {
      && bodies == state.bodies && queued == state.queued && deleted == state.deleted && receipts == state.receipts
      && Inv(state)
    }

    constructor ()
      ensures Valid() && Init(state)
    {
      bodies, queued, deleted, receipts := map[], {}, {}, map[];
      state := State(map[], {}, {}, map[], map[], {});
    }

    method Send(id: MessageId, body: Body)
      requires Valid() && id !in bodies
      modifies this
      ensures Valid() && state == Next(old(state), Step.Send(id, body))
      ensures bodies == old(bodies)[id := body] && queued == old(queued) + {id} && deleted == old(deleted)
    {
      StepKeepsInv(state, Step.Send(id, body));
      hide Inv;
      state := Next(state, Step.Send(id, body));
      bodies, queued := bodies[id := body], queued + {id};
    }

    /** One message of a receive. */
    method HandOut(d: Delivery) returns (m: Message)
      requires Valid() && At(state, StepOf(d))
      modifies this`receipts, this`state
      ensures Valid() && state == Next(old(state), StepOf(d))
      ensures d.id in bodies
      ensures m == Message(d.id, if d.lostBody then Absent else bodies[d.id],
                           if d.lostReceipt then None else Some(d.receipt))
      ensures state.tasks == old(state).tasks[d.task := Task(m, Received)]
    {
      StepKeepsInv(state, StepOf(d));
      hide Inv;
      m := Message(d.id, if d.lostBody then Absent else bodies[d.id], if d.lostReceipt then None else Some(d.receipt));
      state := Next(state, StepOf(d));
      receipts := receipts[d.receipt := d.id];
    }

    /** A batch: no message leaves the queue by being received. */
    method Receive(deliveries: seq<Delivery>) returns (batch: seq<Message>)
      requires Valid() && Runs(state, StepsOf(deliveries))
      modifies this`receipts, this`state
      ensures Valid() && state == Run(old(state), StepsOf(deliveries))
      ensures Handed(old(state), deliveries, |deliveries|, batch, state)
    {
      hide Inv;
      batch := [];
      ghost var steps := StepsOf(deliveries);
      assert steps[0..] == steps;
      var i := 0;
      while i < |deliveries|
        invariant 0 <= i <= |deliveries| && Valid()
        invariant Runs(state, steps[i..]) && Run(state, steps[i..]) == Run(old(state), steps)
        invariant Handed(old(state), deliveries, i, batch, state)
      {
        assert steps[i..][0] == StepOf(deliveries[i]) && steps[i..][1..] == steps[i + 1..];
        ghost var was := state;
        var m := HandOut(deliveries[i]);
        HandedOneMore(old(state), deliveries, i, batch, was, m, state);
        batch := batch + [m];
        i := i + 1;
      }
      assert steps[i..] == [];
    }

    /** Deletes the message behind a receipt; false stands for an exception. */
    method Acknowledge(receipt: Receipt, ghost task: TaskId, fails: bool) returns (ok: bool)
      requires Valid() && task in state.tasks && state.tasks[task].phase == Dispatched
      requires state.tasks[task].message.receipt == Some(receipt)
      modifies this`queued, this`deleted, this`state
      ensures At(old(state), Step.Acknowledge(task, fails))
      ensures Valid() && state == Next(old(state), Step.Acknowledge(task, fails)) && ok == !fails
    {
      ReceiptIsKnown(state, task);
      StepKeepsInv(state, Step.Acknowledge(task, fails));
      hide Inv;
      state := Next(state, Step.Acknowledge(task, fails));
      if fails { return false; }
      var id := receipts[receipt];
      queued, deleted := queued - {id}, deleted + {id};
      ok := true;
    }
  }

  /** After n deliveries from s: their messages wait, and nothing else has changed. */
  ghost predicate Handed(s: State, deliveries: seq<Delivery>, n: nat, batch: seq<Message>, t: State)
    requires n <= |deliveries|
  {
    && |batch| == n
    && t.bodies == s.bodies && t.queued == s.queued && t.deleted == s.deleted && t.dispatched == s.dispatched
    && (forall i, j | 0 <= i < j < n :: deliveries[i].task != deliveries[j].task)
    && (forall i | 0 <= i < n ::
          var d := deliveries[i];
          && d.id in s.bodies && d.task in t.tasks && t.tasks[d.task] == Task(batch[i], Received)
          && batch[i] == Message(d.id, if d.lostBody then Absent else s.bodies[d.id],
                                 if d.lostReceipt then None else Some(d.receipt)))
  }

  lemma HandedOneMore(s: State, deliveries: seq<Delivery>, n: nat, batch: seq<Message>, t: State, m: Message, u: State)
    requires n < |deliveries| && Handed(s, deliveries, n, batch, t)
    requires At(t, StepOf(deliveries[n])) && u == Next(t, StepOf(deliveries[n]))
    requires m == u.tasks[deliveries[n].task].message
    ensures Handed(s, deliveries, n + 1, batch + [m], u)
  {
    forall i | 0 <= i < n ensures deliveries[i].task != deliveries[n].task {
      assert deliveries[i].task in t.tasks;
    }
  }

  /** The steps of one message's handling: dispatch, and then, if it completed,
      acknowledge. */
  ghost predicate HandledBySteps(s: State, task: TaskId, f: Fault, t: State) {
    && At(s, Handle(task, f.dispatchFails))
    && var u := Next(s, Handle(task, f.dispatchFails));
       if u.tasks[task].phase == Dispatched then
         At(u, Acknowledge(task, f.acknowledgeFails)) && t == Next(u, Acknowledge(task, f.acknowledgeFails))
       else t == u
  }

  /** t is a state the transition system reaches from s. */
  ghost predicate Becomes(s: State, t: State) {
    exists steps :: Runs(s, steps) && Run(s, steps) == t
  }

  lemma BecomesSelf(s: State)
    ensures Becomes(s, s)
  {
    assert Runs(s, []) && Run(s, []) == s;
  }

  lemma {:induction false} RunOn(s: State, a: seq<Step>, b: seq<Step>)
    requires Runs(s, a) && Runs(Run(s, a), b)
    ensures Runs(s, a + b) && Run(s, a + b) == Run(Run(s, a), b)
    decreases |a|
  {
    if a == [] {
      assert a + b == b;
    } else {
      RunOn(Next(s, a[0]), a[1..], b);
      assert (a + b)[0] == a[0] && (a + b)[1..] == a[1..] + b;
    }
  }

  lemma BecomesOn(s: State, t: State, u: State)
    requires Becomes(s, t) && Becomes(t, u)
    ensures Becomes(s, u)
  {
    var a :| Runs(s, a) && Run(s, a) == t;
    var b :| Runs(t, b) && Run(t, b) == u;
    RunOn(s, a, b);
  }

  lemma BecomesNext(s: State, step: Step)
    requires At(s, step)
    ensures Becomes(s, Next(s, step))
  {
    hide At, Next;
    var t, steps := Next(s, step), [step];
    assert steps[0] == step && steps[1..] == [];
    assert Runs(t, []) && Run(t, []) == t;
    assert Runs(s, steps) && Run(s, steps) == t;
  }

  lemma HandledBecomes(s: State, task: TaskId, f: Fault, t: State)
    requires HandledBySteps(s, task, f, t)
    ensures Becomes(s, t)
  {
    HandleKeepsTask(s, task, f);
    hide At, Next, Becomes;
    var u := Next(s, Handle(task, f.dispatchFails));
    BecomesNext(s, Handle(task, f.dispatchFails));
    if u.tasks[task].phase == Dispatched {
      BecomesNext(u, Acknowledge(task, f.acknowledgeFails));
      BecomesOn(s, u, t);
    }
  }

  lemma HandleKeepsTask(s: State, task: TaskId, f: Fault)
    requires At(s, Handle(task, f.dispatchFails))
    ensures task in Next(s, Handle(task, f.dispatchFails)).tasks
  {
  }

  /** The first n messages of a batch, handled one after the other. */
  ghost predicate AllHandled(s: State, deliveries: seq<Delivery>, faults: seq<Fault>, n: nat, t: State)
    requires n <= |deliveries| == |faults|
  {
    if n == 0 then t == s
    else
      var d, f := deliveries[n - 1], faults[n - 1];
      exists u :: HandledBySteps(u, d.task, f, t) && AllHandled(s, deliveries, faults, n - 1, u)
  }

  datatype Poll = Poll(deliveries: seq<Delivery>, faults: seq<Fault>)

  ghost predicate CanPoll(s: State, poll: Poll, maxMessages: nat) {
    Runs(s, StepsOf(poll.deliveries)) && |poll.faults| == |poll.deliveries| <= maxMessages
  }

  ghost predicate Polled(s: State, poll: Poll, t: State) {
    && Runs(s, StepsOf(poll.deliveries)) && |poll.faults| == |poll.deliveries|
    && AllHandled(Run(s, StepsOf(poll.deliveries)), poll.deliveries, poll.faults, |poll.deliveries|, t)
  }

  /** Every poll hands out messages the queue then has. */
  ghost predicate CanRun(s: State, polls: seq<Poll>, maxMessages: nat)
    decreases |polls|
  {
    polls == [] || (
      && CanPoll(s, polls[0], maxMessages)
      && forall t | Polled(s, polls[0], t) :: CanRun(t, polls[1..], maxMessages))
  }

  /** The message leaves the queue in one of the first n polls. */
  ghost predicate LeavesIn(bodies: map<MessageId, Body>, polls: seq<Poll>, n: nat, id: MessageId)
    requires n <= |polls| && forall k | 0 <= k < |polls| :: |polls[k].faults| == |polls[k].deliveries|
  {
    exists k | 0 <= k < n :: id in Through(bodies, polls[k].deliveries, polls[k].faults, |polls[k].deliveries|)
  }

  class Worker {
    const queue: Queue
    const maxMessages: nat

    constructor (queue: Queue, maxMessages: nat)
      ensures this.queue == queue && this.maxMessages == maxMessages
    {
      this.queue, this.maxMessages := queue, maxMessages;
    }

    /** One message. It leaves the queue exactly when its body is a well-formed
        envelope, it has a receipt, and neither the dispatch nor the acknowledgement
        fails; and what happens is Handle, then, if that completed, Acknowledge. */
    method Process(message: Message, ghost task: TaskId, fault: Fault)
      requires queue.Valid() && task in queue.state.tasks && queue.state.tasks[task] == Task(message, Received)
      modifies queue`queued, queue`deleted, queue`state
      ensures queue.Valid() && HandledBySteps(old(queue.state), task, fault, queue.state)
      ensures
        if message.body.Envelope? && message.receipt.Some? && !fault.dispatchFails && !fault.acknowledgeFails
        then queue.queued == old(queue.queued) - {message.id} && queue.deleted == old(queue.deleted) + {message.id}
        else queue.queued == old(queue.queued) && queue.deleted == old(queue.deleted)
      ensures queue.state.bodies == old(queue.state).bodies
      ensures queue.state.tasks.Keys == old(queue.state).tasks.Keys
      ensures forall t <- queue.state.tasks | t != task :: queue.state.tasks[t] == old(queue.state).tasks[t]
    {
      if message.receipt.Some? { ReceiptIsKnown(queue.state, task); }
      StepKeepsInv(queue.state, Handle(task, fault.dispatchFails));
      hide Inv;
      queue.state := Next(queue.state, Handle(task, fault.dispatchFails));
      if message.body == Absent || message.receipt.None? { return; }
      if message.body.Malformed? { return; }
      if fault.dispatchFails { return; }
      var _ := queue.Acknowledge(message.receipt.value, task, fault.acknowledgeFails);
    }

    /** One poll: the messages of the batch that leave the queue are exactly the
        complete, well-formed ones whose own dispatch and acknowledgement went
        through, whatever became of the others. */
    method PollOnce(deliveries: seq<Delivery>, faults: seq<Fault>) returns (received: nat)
      requires queue.Valid() && Runs(queue.state, StepsOf(deliveries)) && |faults| == |deliveries| <= maxMessages
      modifies queue`queued, queue`deleted, queue`receipts, queue`state
      ensures queue.Valid() && Becomes(old(queue.state), queue.state) && received == |deliveries|
      ensures Polled(old(queue.state), Poll(deliveries, faults), queue.state)
      ensures forall i | 0 <= i < |deliveries| :: deliveries[i].id in queue.bodies
      ensures queue.deleted == old(queue.deleted) + set i |
        && 0 <= i < |deliveries| && queue.bodies[deliveries[i].id].Envelope?
        && !deliveries[i].lostBody && !deliveries[i].lostReceipt
        && !faults[i].dispatchFails && !faults[i].acknowledgeFails :: deliveries[i].id
      ensures queue.queued == old(queue.queued) - set i |
        && 0 <= i < |deliveries| && queue.bodies[deliveries[i].id].Envelope?
        && !deliveries[i].lostBody && !deliveries[i].lostReceipt
        && !faults[i].dispatchFails && !faults[i].acknowledgeFails :: deliveries[i].id
    {
      hide Inv, Runs, MessageQueue.Run, HandledBySteps, Becomes, Next, At, AllHandled;
      var batch := queue.Receive(deliveries);
      ReceivedBecomes(old(queue.state), deliveries);
      ghost var s := queue.state;
      NoneHandled(s, deliveries, faults);
      var i := 0;
      while i < |batch|
        invariant 0 <= i <= |batch| == |deliveries| && queue.Valid() && Becomes(old(queue.state), queue.state)
        invariant AllHandled(s, deliveries, faults, i, queue.state)
        invariant queue.state.bodies == s.bodies && queue.state.tasks.Keys == s.tasks.Keys
        invariant forall j | i <= j < |batch| :: queue.state.tasks[deliveries[j].task] == s.tasks[deliveries[j].task]
        invariant queue.deleted == old(queue.deleted) + Through(s.bodies, deliveries, faults, i)
        invariant queue.queued == old(queue.queued) - Through(s.bodies, deliveries, faults, i)
      {
        ghost var was := queue.state;
        Process(batch[i], deliveries[i].task, faults[i]);
        HandledBecomes(was, deliveries[i].task, faults[i], queue.state);
        BecomesOn(old(queue.state), was, queue.state);
        OneMoreHandled(s, deliveries, faults, i, was, queue.state);
        ThroughStep(s.bodies, deliveries, faults, i);
        i := i + 1;
      }
      received := |batch|;
    }

    /** Polls until the signal is raised, here after the given polls: a message leaves
        the queue if and only if it went through in one of them. */
    method Run(polls: seq<Poll>)
      requires queue.Valid() && CanRun(queue.state, polls, maxMessages)
      requires forall k | 0 <= k < |polls| :: |polls[k].faults| == |polls[k].deliveries|
      modifies queue`queued, queue`deleted, queue`receipts, queue`state
      ensures queue.Valid() && Becomes(old(queue.state), queue.state)
      ensures forall id ::
        id in queue.deleted <==> id in old(queue.deleted) || LeavesIn(queue.bodies, polls, |polls|, id)
      ensures forall id ::
        id in queue.queued <==> id in old(queue.queued) && !LeavesIn(queue.bodies, polls, |polls|, id)
    {
      hide Inv, Runs, MessageQueue.Run, Becomes, Polled, CanPoll, Through;
      BecomesSelf(queue.state);
      assert polls[0..] == polls;
      var n := 0;
      while n < |polls|
        invariant 0 <= n <= |polls| && queue.Valid() && Becomes(old(queue.state), queue.state)
        invariant CanRun(queue.state, polls[n..], maxMessages)
        invariant forall id ::
          id in queue.deleted <==> id in old(queue.deleted) || LeavesIn(queue.bodies, polls, n, id)
        invariant forall id ::
          id in queue.queued <==> id in old(queue.queued) && !LeavesIn(queue.bodies, polls, n, id)
      {
        assert polls[n..][0] == polls[n] && polls[n..][1..] == polls[n + 1..];
        ghost var was := queue.state;
        CanPollNow(was, polls[n], maxMessages);
        var _ := PollOnce(polls[n].deliveries, polls[n].faults);
        assert Poll(polls[n].deliveries, polls[n].faults) == polls[n];
        BecomesOn(old(queue.state), was, queue.state);
        ThroughAll(queue.bodies, polls[n].deliveries, polls[n].faults);
        n := n + 1;
      }
    }
  }

  lemma CanPollNow(s: State, poll: Poll, maxMessages: nat)
    requires CanPoll(s, poll, maxMessages)
    ensures Runs(s, StepsOf(poll.deliveries)) && |poll.faults| == |poll.deliveries| <= maxMessages
  {
  }

  lemma ThroughAll(bodies: map<MessageId, Body>, deliveries: seq<Delivery>, faults: seq<Fault>)
    requires |faults| == |deliveries| && forall i | 0 <= i < |deliveries| :: deliveries[i].id in bodies
    ensures Through(bodies, deliveries, faults, |deliveries|) == set i |
        && 0 <= i < |deliveries| && bodies[deliveries[i].id].Envelope?
        && !deliveries[i].lostBody && !deliveries[i].lostReceipt
        && !faults[i].dispatchFails && !faults[i].acknowledgeFails :: deliveries[i].id
  {
  }

  lemma NoneHandled(s: State, deliveries: seq<Delivery>, faults: seq<Fault>)
    requires |faults| == |deliveries|
    ensures AllHandled(s, deliveries, faults, 0, s)
  {
  }

  lemma OneMoreHandled(s: State, deliveries: seq<Delivery>, faults: seq<Fault>, n: nat, t: State, u: State)
    requires n < |deliveries| == |faults| && AllHandled(s, deliveries, faults, n, t)
    requires HandledBySteps(t, deliveries[n].task, faults[n], u)
    ensures AllHandled(s, deliveries, faults, n + 1, u)
  {
  }

  /** Those of the first n that leave the queue. */
  ghost function Through(bodies: map<MessageId, Body>, deliveries: seq<Delivery>, faults: seq<Fault>, n: nat)
    : set<MessageId>
    requires n <= |deliveries| == |faults|
  {
    set i | 0 <= i < n && deliveries[i].id in bodies && bodies[deliveries[i].id].Envelope?
            && !deliveries[i].lostBody && !deliveries[i].lostReceipt
            && !faults[i].dispatchFails && !faults[i].acknowledgeFails :: deliveries[i].id
  }

  lemma ThroughStep(bodies: map<MessageId, Body>, deliveries: seq<Delivery>, faults: seq<Fault>, n: nat)
    requires n < |deliveries| == |faults| && deliveries[n].id in bodies
    ensures var d, f := deliveries[n], faults[n];
      Through(bodies, deliveries, faults, n + 1) == Through(bodies, deliveries, faults, n)
        + if bodies[d.id].Envelope? && !d.lostBody && !d.lostReceipt && !f.dispatchFails && !f.acknowledgeFails
          then {d.id} else {}
  {
  }

  lemma ReceivedBecomes(s: State, deliveries: seq<Delivery>)
    requires Runs(s, StepsOf(deliveries))
    ensures Becomes(s, Run(s, StepsOf(deliveries)))
  {
  }
}
