/**
 What the exit of a service sends. Clear drops the queue with its lock held, but the notices it sends
 are calls of Send like any other, and other threads move in between.
 */
module ProtocolClear {
  import opened Protocol
  import opened ProtocolInvariant
  import MessageQueue

  /** The call of Send that thread t turns to in a step. */
  function Begun(st: State, st': State, t: ThreadId): seq<(Id, Message)> {
    if t in st.threads && t in st'.threads && st.threads[t].call == NoCall
    then MessageQueue.Sending(st'.threads[t].call)
    else []
  }

  /** And in all steps of a run. */
  ghost function BegunIn(st: State, steps: seq<Step>, t: ThreadId): seq<(Id, Message)>
    requires Run(st, steps).Some?
  {
    if steps == [] then []
    else
      var front := steps[..|steps| - 1];
      BegunIn(st, front, t) + Begun(Run(st, front).value, Run(st, steps).value, t)
  }

  /** Thread t has the queue of s locked for dropping it. */
  ghost predicate Clears(st: State, t: ThreadId, s: Id) {
    t in st.threads && s in st.services && st.threads[t].work == Clearing(s) && st.services[s].queueLock == Some(t)
  }

  /** The same messages dropped and waiting. */
  ghost predicate SameQueue(st: State, st': State, s: Id) {
    && s in st.services && s in st'.services && st'.services[s].queue == st.services[s].queue
    && st'.services[s].dropped == st.services[s].dropped
  }

  lemma OthersCall(st: State, u: ThreadId, st': State, t: ThreadId, s: Id)
    requires Clears(st, t, s) && u in st.threads && StepCall(st, u, st.threads[u]) == Some(st')
    ensures SameQueue(st, st', s) && t in st'.threads && st'.threads[t].work == Clearing(s)
    ensures u == t ==> st.threads[t].call != NoCall
    ensures u != t ==> st'.threads[t] == st.threads[t]
  {
  }

  lemma OthersWork(st: State, u: ThreadId, st': State, t: ThreadId, s: Id)
    requires Clears(st, t, s) && u in st.threads && u != t && ThreadOk(st, u)
    requires StepWork(st, u, st.threads[u]) == Some(st')
    ensures SameQueue(st, st', s) && t in st'.threads && st'.threads[t] == st.threads[t]
  {
  }

  /** No step but the thread's own next one in the loop of Clear changes the queue or what it sends. */
  lemma OthersWait(st: State, step: Step, st': State, t: ThreadId, s: Id)
    requires Inv(st) && Clears(st, t, s) && Next(st, step) == Some(st') && step != InWork(t)
    ensures SameQueue(st, st', s) && t in st'.threads && st'.threads[t].work == Clearing(s) && Begun(st, st', t) == []
  {
    match step
    case NewService => assert ServiceOk(st, s);
    case BeginSend(u, _, _) =>
    case BeginKill(u, _) =>
    case InCall(u) => OthersCall(st, u, st', t, s);
    case InWork(u) =>
      assert ThreadOk(st, u);
      OthersWork(st, u, st', t, s);
  }

  /** The thread's own step: the front message goes, and its notice; or the queue is empty and the lock is
      released. */
  lemma OneDropped(st: State, t: ThreadId, st': State, s: Id)
    requires Clears(st, t, s) && Next(st, InWork(t)) == Some(st')
    ensures s in st'.services && t in st'.threads
    ensures st.services[s].queue == [] ==>
              st'.threads[t].work == Seeking && SameQueue(st, st', s) && Begun(st, st', t) == []
    ensures st.services[s].queue != [] ==>
              && st'.threads[t].work == Clearing(s)
              && st'.services[s].dropped + st'.services[s].queue == st.services[s].dropped + st.services[s].queue
              && Begun(st, st', t) + MessageQueue.Notices(st'.services[s].queue)
                 == MessageQueue.Notices(st.services[s].queue)
  {
  }

  /** What the thread has sent and what is still to send for the waiting messages are the notices of the
      queue as it was; at the release nothing is left. */
  ghost predicate OnTheWay(queue: seq<Message>, dropped: seq<Message>, sent: seq<(Id, Message)>,
                           st: State, t: ThreadId, s: Id) {
    && s in st.services && t in st.threads
    && st.services[s].dropped + st.services[s].queue == dropped + queue
    && sent + MessageQueue.Notices(st.services[s].queue) == MessageQueue.Notices(queue)
    && (st.threads[t].work != Clearing(s) ==> st.services[s].queue == [] && sent == MessageQueue.Notices(queue))
  }

  lemma StaysOnTheWay(queue: seq<Message>, dropped: seq<Message>, sent: seq<(Id, Message)>, st: State, step: Step,
                      st': State, t: ThreadId, s: Id)
    requires Inv(st) && Clears(st, t, s) && OnTheWay(queue, dropped, sent, st, t, s) && Next(st, step) == Some(st')
    ensures OnTheWay(queue, dropped, sent + Begun(st, st', t), st', t, s)
  {
    hide Next, Inv;
    if step == InWork(t) {
      OneDropped(st, t, st', s);
    } else {
      OthersWait(st, step, st', t, s);
    }
    hide Begun;
    assert MessageQueue.Notices([]) == [];
    assert sent + [] == sent;
  }

  lemma AtLock(st: State, t: ThreadId, s: Id)
    requires Clears(st, t, s)
    ensures OnTheWay(st.services[s].queue, st.services[s].dropped, [], st, t, s)
  {
  }

  /** Before each of the steps the thread has not yet released the lock. */
  ghost predicate Throughout(st: State, steps: seq<Step>, t: ThreadId, s: Id) {
    forall k | 0 <= k < |steps| :: Run(st, steps[..k]).Some? && Clears(Run(st, steps[..k]).value, t, s)
  }

  lemma FrontToo(st: State, steps: seq<Step>, t: ThreadId, s: Id)
    requires steps != [] && Throughout(st, steps, t, s)
    ensures var front := steps[..|steps| - 1];
            Throughout(st, front, t, s) && Run(st, front).Some? && Clears(Run(st, front).value, t, s)
  {
    hide Run, Clears;
    var front := steps[..|steps| - 1];
    assert forall k | 0 <= k < |front| :: front[..k] == steps[..k];
  }

  /** From the moment the lock is taken until it is released, whatever the other threads do: what the
      thread has sent are the notices of what it has dropped, and what it drops is the queue, front to
      back; at the release that is all of it. */
  lemma {:induction false} ClearSendsNotices(st: State, steps: seq<Step>, t: ThreadId, s: Id)
    requires Inv(st) && Clears(st, t, s) && Run(st, steps).Some? && Throughout(st, steps, t, s)
    ensures OnTheWay(st.services[s].queue, st.services[s].dropped, BegunIn(st, steps, t), Run(st, steps).value, t, s)
  {
    var queue, dropped := st.services[s].queue, st.services[s].dropped;
    hide Next, Inv, Begun, OnTheWay, Clears, BegunIn, Run, Throughout;
    if steps == [] {
      NoSteps(st, t);
      AtLock(st, t, s);
    } else {
      var n := |steps| - 1;
      LastStep(st, steps, t);
      FrontToo(st, steps, t, s);
      ClearSendsNotices(st, steps[..n], t, s);
      KeepsInv(st, steps[..n]);
      StaysOnTheWay(queue, dropped, BegunIn(st, steps[..n], t), Run(st, steps[..n]).value, steps[n],
                    Run(st, steps).value, t, s);
    }
  }

  lemma NoSteps(st: State, t: ThreadId)
    ensures Run(st, []) == Some(st) && BegunIn(st, [], t) == []
  {
  }

  lemma LastStep(st: State, steps: seq<Step>, t: ThreadId)
    requires steps != [] && Run(st, steps).Some?
    ensures var front, last := steps[..|steps| - 1], steps[|steps| - 1];
            && Run(st, front).Some? && Next(Run(st, front).value, last) == Some(Run(st, steps).value)
            && BegunIn(st, steps, t)
               == BegunIn(st, front, t) + Begun(Run(st, front).value, Run(st, steps).value, t)
  {
    hide Next, Begun;
  }

  lemma {:induction false} KeepsInv(st: State, steps: seq<Step>)
    requires Inv(st) && Run(st, steps).Some?
    ensures Inv(Run(st, steps).value)
  {
    hide Inv, Next;
    if steps != [] {
      KeepsInv(st, steps[..|steps| - 1]);
      NextKeeps(Run(st, steps[..|steps| - 1]).value, steps[|steps| - 1], Run(st, steps).value);
    }
  }
}
