/**
 The two-level message queue as its threads see it: every thread advances in steps, one per lock
 region. A region that takes no further lock is one step, enabled while its lock is free; the two
 locks that are held across other lock regions, a service's queueLock (in Clear and
 FinishDispatch) and its inGlobalLock (in TryEnterGlobal), are part of the state.
 */
module Protocol {

  type Id = nat
  type ThreadId = nat

  datatype Option<T> = None | Some(value: T)

  datatype Kind = Lua | Response | Socket | Error

  datatype Message = Message(kind: Kind, source: Id, session: int)

  /** Where the one token of a service is: the right to pop and run its messages. */
  datatype Place = Nowhere | Queued | With(t: ThreadId)

  /** A service and its StarnetMQ. The last four fields are history: they record what happened and
      no step depends on them. */
  datatype Service = Service(
    queue: seq<Message>,
    inGlobal: bool,
    queueLock: Option<ThreadId>,
    flagLock: Option<ThreadId>,
    exiting: bool,
    exited: bool,
    place: Place,
    pushed: seq<Message>,
    handled: seq<Message>,
    dropped: seq<Message>,
    onExits: nat)

  /** Where a worker stands in its loop; `s` is the service it has popped. */
  datatype Work =
    | Outside
    | Seeking
    | Counting(s: Id)
    | Batch(s: Id, todo: nat, done: nat, length: nat)
    | Running(s: Id, todo: nat, done: nat, length: nat)
    | Checking(s: Id)
    | OnExit(s: Id)
    | ClearWait(s: Id)
    | Clearing(s: Id)
    | FinishWait(s: Id)
    | Resetting(s: Id)

  /** The call of Send or KillService a thread is in the middle of. */
  datatype Call =
    | NoCall
    | SendLook(to: Id, msg: Message)
    | SendPush(to: Id, msg: Message)
    | SendEnter(to: Id)
    | KillLook(to: Id)
    | KillErase(to: Id)
    | KillMark(to: Id)
    | KillTest(to: Id)
    | KillEnter(to: Id)
    | EnterSet(to: Id)

  datatype Thread = Thread(weight: int, work: Work, call: Call)

  /** One pass of the worker loop over a service. */
  datatype Pass = Pass(s: Id, weight: int, length: nat, handled: nat)

  /** erasedAt records, for every service taken out of the map, when that was. */
  datatype State = State(
    services: map<Id, Service>,
    registered: set<Id>,
    erasedAt: map<Id, nat>,
    epoch: nat,
    maxId: nat,
    global: seq<Id>,
    threads: map<ThreadId, Thread>,
    passes: seq<Pass>)

  datatype Step =
    | NewService
    | BeginSend(t: ThreadId, to: Id, msg: Message)
    | BeginKill(t: ThreadId, id: Id)
    | InCall(t: ThreadId)
    | InWork(t: ThreadId)

  const NEW_SERVICE := Service([], false, None, None, false, false, Nowhere, [], [], [], 0)

  /** n >> w */
  function ShiftRight(n: nat, w: nat): nat {
    if w == 0 then n else ShiftRight(n / 2, w - 1)
  }

  /** The size of a pass: one message for a negative weight, length >> weight otherwise. */
  function PassSize(length: nat, weight: int): nat {
    if weight < 0 then 1 else ShiftRight(length, weight)
  }

  /** dropMessage: nobody is told about a socket message or one without a sender. */
  function Notice(msg: Message): Option<Message> {
    if msg.kind == Socket || msg.source == 0 then None
    else Some(Message(Error, 0, msg.session))
  }

  function SetThread(st: State, t: ThreadId, th: Thread): State {
    st.(threads := st.threads[t := th])
  }

  function SetService(st: State, s: Id, sv: Service): State {
    st.(services := st.services[s := sv])
  }

  /** User code runs, and may call Send and KillService, outside the worker loop, inside OnMsg and
      inside OnExit. */
  predicate MayCall(th: Thread) {
    th.call == NoCall && (th.work.Outside? || th.work.Running? || th.work.OnExit?)
  }

  // ----- Send and KillService -----

  function StepSend(st: State, t: ThreadId, th: Thread, call: Call): Option<State>
    requires call.SendLook? || call.SendPush? || call.SendEnter?
  {
    match call
    case SendLook(to, msg) =>
      if to in st.registered then Some(SetThread(st, t, th.(call := SendPush(to, msg))))
      else Some(SetThread(st, t, th.(call := NoCall)))
    case SendPush(to, msg) =>
      if to !in st.services || st.services[to].queueLock != None then None else
        var sv := st.services[to];
        var sv' := sv.(queue := sv.queue + [msg], pushed := sv.pushed + [msg]);
        Some(SetThread(SetService(st, to, sv'), t, th.(call := SendEnter(to))))
    case SendEnter(to) => StepEnter(st, t, th, to)
  }

  /** TryEnterGlobal up to the push onto the global queue; the flag is set by the next step. */
  function StepEnter(st: State, t: ThreadId, th: Thread, to: Id): Option<State> {
    if to !in st.services || st.services[to].flagLock != None then None else
      var sv := st.services[to];
      if sv.inGlobal then Some(SetThread(st, t, th.(call := NoCall)))
      else
        var sv' := sv.(flagLock := Some(t), place := Queued);
        Some(SetThread(SetService(st, to, sv'), t, th.(call := EnterSet(to))).(global := st.global + [to]))
  }

  function StepSet(st: State, t: ThreadId, th: Thread, to: Id): Option<State> {
    if to !in st.services then None else
      var sv' := st.services[to].(inGlobal := true, flagLock := None);
      Some(SetThread(SetService(st, to, sv'), t, th.(call := NoCall)))
  }

  function StepKill(st: State, t: ThreadId, th: Thread, call: Call): Option<State>
    requires call.KillLook? || call.KillErase? || call.KillMark? || call.KillTest? || call.KillEnter?
  {
    match call
    case KillLook(id) =>
      Some(SetThread(st, t, th.(call := if id in st.registered then KillErase(id) else NoCall)))
    case KillErase(id) =>
      var st' := SetThread(st, t, th.(call := KillMark(id)));
      if id !in st.registered then Some(st')
      else Some(st'.(registered := st.registered - {id},
                     erasedAt := st.erasedAt[id := st.epoch], epoch := st.epoch + 1))
    case KillMark(id) =>
      if id !in st.services then None else
        Some(SetThread(SetService(st, id, st.services[id].(exiting := true)), t, th.(call := KillTest(id))))
    case KillTest(id) =>
      if id !in st.services || st.services[id].flagLock != None then None else
        Some(SetThread(st, t, th.(call := if st.services[id].inGlobal then NoCall else KillEnter(id))))
    case KillEnter(id) => StepEnter(st, t, th, id)
  }

  // ----- the worker loop -----

  function StepSeek(st: State, t: ThreadId, th: Thread): Option<State> {
    if st.global == [] || st.global[0] !in st.services then None else
      var s := st.global[0];
      Some(SetThread(SetService(st, s, st.services[s].(place := With(t))), t, th.(work := Counting(s)))
           .(global := st.global[1..]))
  }

  function StepCount(st: State, t: ThreadId, th: Thread, s: Id): Option<State> {
    if s !in st.services || st.services[s].queueLock != None then None else
      var length := |st.services[s].queue|;
      Some(SetThread(st, t, th.(work := Batch(s, PassSize(length, th.weight), 0, length))))
  }

  /** ProcessMsgs between two messages: stop after the last one or on an empty queue. */
  function StepBatch(st: State, t: ThreadId, th: Thread, w: Work): Option<State>
    requires w.Batch?
  {
    var ended := SetThread(st, t, th.(work := Checking(w.s)))
                 .(passes := st.passes + [Pass(w.s, th.weight, w.length, w.done)]);
    if w.todo == 0 then Some(ended)
    else if w.s !in st.services || st.services[w.s].queueLock != None then None
    else if st.services[w.s].queue == [] then Some(ended)
    else
      var sv := st.services[w.s];
      var sv' := sv.(queue := sv.queue[1..], handled := sv.handled + [sv.queue[0]]);
      Some(SetThread(SetService(st, w.s, sv'), t, th.(work := Running(w.s, w.todo - 1, w.done + 1, w.length))))
  }

  /** CheckAndPutGlobal: the test of isExiting and the exchange of exited. */
  function StepCheck(st: State, t: ThreadId, th: Thread, s: Id): Option<State> {
    if s !in st.services then None else
      var sv := st.services[s];
      if !sv.exiting then Some(SetThread(st, t, th.(work := FinishWait(s))))
      else if sv.exited then Some(SetThread(SetService(st, s, sv.(place := Nowhere)), t, th.(work := Seeking)))
      else Some(SetThread(SetService(st, s, sv.(exited := true, onExits := sv.onExits + 1)), t, th.(work := OnExit(s))))
  }

  function StepClearLock(st: State, t: ThreadId, th: Thread, s: Id): Option<State> {
    if s !in st.services || st.services[s].queueLock != None then None else
      Some(SetThread(SetService(st, s, st.services[s].(queueLock := Some(t))), t, th.(work := Clearing(s))))
  }

  /** One turn of the loop of Clear, with the queue locked all along. */
  function StepClear(st: State, t: ThreadId, th: Thread, s: Id): Option<State> {
    if s !in st.services then None else
      var sv := st.services[s];
      if sv.queue == [] then
        Some(SetThread(SetService(st, s, sv.(queueLock := None, place := Nowhere)), t, th.(work := Seeking)))
      else
        var sv' := sv.(queue := sv.queue[1..], dropped := sv.dropped + [sv.queue[0]]);
        var call := match Notice(sv.queue[0]) case None => NoCall case Some(err) => SendLook(sv.queue[0].source, err);
        Some(SetThread(SetService(st, s, sv'), t, th.(call := call)))
  }

  /** FinishDispatch: back to the global queue, or on to resetting the flag. */
  function StepFinish(st: State, t: ThreadId, th: Thread, s: Id): Option<State> {
    if s !in st.services || st.services[s].queueLock != None then None else
      var sv := st.services[s];
      if sv.queue != [] then
        Some(SetThread(SetService(st, s, sv.(place := Queued)), t, th.(work := Seeking)).(global := st.global + [s]))
      else
        Some(SetThread(SetService(st, s, sv.(queueLock := Some(t))), t, th.(work := Resetting(s))))
  }

  function StepReset(st: State, t: ThreadId, th: Thread, s: Id): Option<State> {
    if s !in st.services || st.services[s].flagLock != None then None else
      var sv := st.services[s];
      var sv' := sv.(inGlobal := false, queueLock := None, place := Nowhere);
      Some(SetThread(SetService(st, s, sv'), t, th.(work := Seeking)))
  }

  function StepCall(st: State, t: ThreadId, th: Thread): Option<State> {
    match th.call
    case NoCall => None
    case SendLook(_, _) => StepSend(st, t, th, th.call)
    case SendPush(_, _) => StepSend(st, t, th, th.call)
    case SendEnter(_) => StepSend(st, t, th, th.call)
    case EnterSet(to) => StepSet(st, t, th, to)
    case _ => StepKill(st, t, th, th.call)
  }

  function StepWork(st: State, t: ThreadId, th: Thread): Option<State> {
    match th.work
    case Outside => None
    case Seeking => StepSeek(st, t, th)
    case Counting(s) => StepCount(st, t, th, s)
    case Batch(_, _, _, _) => StepBatch(st, t, th, th.work)
    case Running(s, todo, done, length) => Some(SetThread(st, t, th.(work := Batch(s, todo, done, length))))
    case Checking(s) => StepCheck(st, t, th, s)
    case OnExit(s) => Some(SetThread(st, t, th.(work := ClearWait(s))))
    case ClearWait(s) => StepClearLock(st, t, th, s)
    case Clearing(s) => StepClear(st, t, th, s)
    case FinishWait(s) => StepFinish(st, t, th, s)
    case Resetting(s) => StepReset(st, t, th, s)
  }

  /** One step of one thread; None if the thread does not exist, is not there, or must wait. */
  function Next(st: State, step: Step): Option<State> {
    match step
    case NewService =>
      var id := st.maxId + 1;
      Some(SetService(st, id, NEW_SERVICE).(registered := st.registered + {id}, maxId := id))
    case BeginSend(t, to, msg) =>
      if t !in st.threads || !MayCall(st.threads[t]) then None
      else Some(SetThread(st, t, st.threads[t].(call := SendLook(to, msg))))
    case BeginKill(t, id) =>
      if t !in st.threads || !MayCall(st.threads[t]) then None
      else Some(SetThread(st, t, st.threads[t].(call := KillLook(id))))
    case InCall(t) =>
      if t !in st.threads then None else StepCall(st, t, st.threads[t])
    case InWork(t) =>
      if t !in st.threads || st.threads[t].call != NoCall then None else StepWork(st, t, st.threads[t])
  }

  /** The system before it runs: no service, and threads that are workers or not. */
  predicate Initial(st: State) {
    && st.services == map[] && st.registered == {} && st.erasedAt == map[]
    && st.epoch == 0 && st.maxId == 0 && st.global == [] && st.passes == []
    && forall t <- st.threads ::
         st.threads[t].call == NoCall && (st.threads[t].work.Outside? || st.threads[t].work.Seeking?)
  }

  function Run(st: State, steps: seq<Step>): Option<State> {
    if steps == [] then Some(st)
    else
      match Run(st, steps[..|steps| - 1])
      case None => None
      case Some(mid) => Next(mid, steps[|steps| - 1])
  }
}
