/**
 The steps of the Lua scheduler as functions of its state: what every message and every operation of
 the library does. User code is whatever sequence of these operations the executing coroutine
 performs; what it computes in between does not matter here.
 */
module SchedulerSteps {
  import opened SchedulerState

  datatype Kind = Response | ErrorNotice | Message

  datatype Op =
    | Deliver(kind: Kind, session: int, source: int, handler: bool) | SocketEvent | Drain
    | DoCall | DoSleep | DoTimeout | DoFork | DoRet | DoMakeResponse | DoUseResponse(i: nat)
    | DoPark | DoWakeup(co: Co) | DoFinish | DoFail | DoExit

  /** co_create takes the last coroutine of the pool, which must be waiting there for a function. */
  predicate CanCreate(st: State) {
    st.pool != [] ==>
      var co := st.pool[|st.pool| - 1];
      co in st.status && st.status[co] == Pooled
  }

  /** What can happen next: something from outside when nothing runs, else a step of the coroutine on
      top. Timers, forks and answers need no running coroutine. */
  predicate Enabled(st: State, op: Op) {
    match op
    case Deliver(kind, _, _, handler) => st.frames == [] && !st.dispatching
      && (kind == Message && handler ==> CanCreate(st))
    case SocketEvent => st.frames == [] && !st.dispatching && CanCreate(st)
    case Drain => st.frames == [] && st.dispatching
    case DoUseResponse(i) => i < |st.closures|
    case DoTimeout => CanCreate(st)
    case DoFork => CanCreate(st)
    case _ => st.frames != []
  }

  function Top(st: State): Co
    requires st.frames != []
  {
    st.frames[|st.frames| - 1].co
  }

  // ----- what the operations are made of -----

  /** coroutine_resume. A coroutine that runs or is dead cannot be resumed; a pooled one takes what it
      is given for its next function and yields at once; any other goes on from where it stands. */
  function ResumeIn(st: State, co: Co, from: Resumer): (r: State)
    ensures r.ledger == st.ledger && r.closures == st.closures && r.replies == st.replies
    ensures r.coSession == st.coSession && r.coAddress == st.coAddress
    ensures r.forks == st.forks && r.dispatching == st.dispatching && r.lastSession == st.lastSession
    ensures r.running == Some(co) && r.sessionCo == st.sessionCo && r.pool == st.pool && r.created == st.created
  {
    if co !in st.status || st.status[co] in {Active, Dead} then st.(running := Some(co))
    else if st.status[co] == Pooled then st.(running := Some(co), status := st.status[co := Armed])
    else st.(running := Some(co), frames := st.frames + [Frame(co, from)], status := st.status[co := Active])
  }

  /** The coroutine that co_create hands out. */
  function NewCo(st: State): Co {
    if st.pool != [] then st.pool[|st.pool| - 1] else st.created
  }

  function CreateIn(st: State): (r: State)
    ensures r.ledger == st.ledger && r.closures == st.closures && r.replies == st.replies
    ensures r.coSession == st.coSession && r.coAddress == st.coAddress
    ensures r.forks == st.forks && r.dispatching == st.dispatching && r.lastSession == st.lastSession
    ensures r.frames == st.frames && r.running == st.running
  {
    if st.pool != [] then st.(pool := st.pool[..|st.pool| - 1], status := st.status[NewCo(st) := Armed])
    else st.(created := st.created + 1, status := st.status[NewCo(st) := Armed])
  }

  ghost function StartIn(st: State, session: int, source: int): (r: State)
    ensures r.ledger.requests == st.ledger.requests + [Request(source, session)]
  {
    var co, made := NewCo(st), CreateIn(st);
    ResumeIn(made.(
      coSession := made.coSession[co := session],
      coAddress := made.coAddress[co := source],
      ledger := made.ledger.(requests := made.ledger.requests + [Request(source, session)],
                             ofCo := made.ledger.ofCo[co := |made.ledger.requests|])), co, ByDispatch)
  }

  /** The executing coroutine yields, ends or dies: back to whoever resumed it. Only starnet.wakeup
      puts running_thread back. */
  function ReturnIn(st: State, left: Status): (r: State)
    requires st.frames != []
    ensures r.ledger == st.ledger && r.closures == st.closures && r.replies == st.replies
    ensures r.coSession == st.coSession && r.coAddress == st.coAddress
    ensures r.forks == st.forks && r.dispatching == st.dispatching && r.lastSession == st.lastSession
  {
    var top := st.frames[|st.frames| - 1];
    st.(frames := st.frames[..|st.frames| - 1], status := st.status[top.co := left],
        running := if top.from.ByWakeup? then top.from.before else st.running)
  }

  function WaitIn(st: State): State
    requires st.frames != []
  {
    var session := st.lastSession + 1;
    ReturnIn(st.(lastSession := session, sessionCo := st.sessionCo[session := Top(st)]), Waiting(session))
  }

  ghost function TakeRequestIn(st: State, co: Co): State {
    st.(coSession := Without(st.coSession, co), ledger := Release(st.ledger, co))
  }

  ghost function AnswerIn(st: State, r: nat, req: Request): State {
    st.(replies := st.replies + [req], ledger := st.ledger.(replied := st.ledger.replied + [r]))
  }

  ghost function RetIn(st: State, co: Co): State {
    if co !in st.coSession || co !in st.coAddress || co !in st.ledger.ofCo then st
    else if st.coSession[co] == 0 then TakeRequestIn(st, co)
    else AnswerIn(TakeRequestIn(st, co), st.ledger.ofCo[co], Request(st.coAddress[co], st.coSession[co]))
  }

  ghost function HandOverIn(st: State, r: nat, req: Request): State {
    st.(closures := st.closures + [Closure(req.address, req.session, false)],
        ledger := st.ledger.(ofClosure := st.ledger.ofClosure + [r]))
  }

  ghost function MakeResponseIn(st: State, co: Co): State {
    if co !in st.coSession || co !in st.coAddress || co !in st.ledger.ofCo then st
    else HandOverIn(TakeRequestIn(st, co), st.ledger.ofCo[co], Request(st.coAddress[co], st.coSession[co]))
  }

  ghost function UseResponseIn(st: State, i: nat): State
    requires i < |st.closures|
  {
    var c := st.closures[i];
    if c.session == 0 || c.sent || i >= |st.ledger.ofClosure| then st
    else AnswerIn(st.(closures := st.closures[i := c.(sent := true)]), st.ledger.ofClosure[i],
                  Request(c.address, c.session))
  }

  ghost function DropContextIn(st: State, co: Co): State {
    if co !in st.coAddress then st
    else st.(coSession := Without(st.coSession, co), coAddress := Without(st.coAddress, co),
             ledger := Release(st.ledger, co))
  }

  ghost function FinishIn(st: State): State
    requires st.frames != []
  {
    var dropped := DropContextIn(st, Top(st));
    ReturnIn(dropped.(pool := st.pool + [Top(st)]), Pooled)
  }

  ghost function DeliverIn(st: State, kind: Kind, session: int, source: int, handler: bool): State {
    if kind == Message then
      if handler then StartIn(st, session, source).(dispatching := true) else st.(dispatching := true)
    else if session in st.sessionCo then
      ResumeIn(st.(sessionCo := st.sessionCo - {session}), st.sessionCo[session], ByDispatch).(dispatching := true)
    else st.(dispatching := true)
  }

  function DrainIn(st: State): State {
    if st.forks == [] then st.(dispatching := false)
    else ResumeIn(st.(forks := st.forks[1..]), st.forks[0], ByDrain)
  }

  /** An armed coroutine waits for a message of a new session. */
  function RegisterIn(st: State, co: Co): State {
    var session := st.lastSession + 1;
    st.(lastSession := session, sessionCo := st.sessionCo[session := co], status := st.status[co := Timed(session)])
  }

  function TimeoutIn(st: State): State {
    RegisterIn(CreateIn(st), NewCo(st))
  }

  function QueueIn(st: State, co: Co): State {
    st.(forks := st.forks + [co], status := st.status[co := Forked])
  }

  function ForkIn(st: State): State {
    QueueIn(CreateIn(st), NewCo(st))
  }

  /** Resume, and put running_thread back if that did not put another coroutine on top. */
  function WakeupIn(st: State, co: Co): State {
    var resumed := ResumeIn(st, co, ByWakeup(st.running));
    if |resumed.frames| > |st.frames| then resumed else resumed.(running := st.running)
  }

  /** The final yield of exit means something only to the dispatcher, which closes the coroutine. */
  function ExitIn(st: State): State
    requires st.frames != []
  {
    ReturnIn(st, if st.frames[|st.frames| - 1].from == ByDispatch then Dead else Parked)
  }

  ghost function Next(st: State, op: Op): State {
    if !Enabled(st, op) then st
    else match op
      case Deliver(kind, session, source, handler) => DeliverIn(st, kind, session, source, handler)
      case SocketEvent => StartIn(st, 0, 0)
      case Drain => DrainIn(st)
      case DoCall => WaitIn(st)
      case DoSleep => WaitIn(st)
      case DoTimeout => TimeoutIn(st)
      case DoFork => ForkIn(st)
      case DoRet => RetIn(st, Top(st))
      case DoMakeResponse => MakeResponseIn(st, Top(st))
      case DoUseResponse(i) => UseResponseIn(st, i)
      case DoPark => ReturnIn(st, Parked)
      case DoWakeup(co) => WakeupIn(st, co)
      case DoFinish => FinishIn(st)
      case DoFail => ReturnIn(st, Dead)
      case DoExit => ExitIn(st)
  }

  /** The request that a step begins: a message with a handler, or a socket event. */
  function NewRequests(st: State, op: Op): seq<Request> {
    if !Enabled(st, op) then []
    else match op
      case Deliver(Message, session, source, true) => [Request(source, session)]
      case SocketEvent => [Request(0, 0)]
      case _ => []
  }

  /** The request that a step answers. */
  ghost function Answers(st: State, op: Op): seq<nat> {
    if !Enabled(st, op) then []
    else match op
      case DoRet =>
        var co := Top(st);
        if co in st.coSession && co in st.coAddress && co in st.ledger.ofCo && st.coSession[co] != 0
          then [st.ledger.ofCo[co]]
        else []
      case DoUseResponse(i) =>
        if st.closures[i].session != 0 && !st.closures[i].sent && i < |st.ledger.ofClosure|
          then [st.ledger.ofClosure[i]]
        else []
      case _ => []
  }

  /** The steps with which the executing coroutine stops. */
  predicate Leaves(op: Op) {
    op in {DoCall, DoSleep, DoPark, DoFinish, DoFail, DoExit}
  }

  /** The steps that answer a request, hand it on or let it go. */
  predicate Settles(op: Op) {
    op in {DoRet, DoMakeResponse, DoFinish} || op.DoUseResponse?
  }

  /** The coroutines that starnet.wakeup may be called for: not one that waits in a call or a sleep, on
      a timer, in the fork queue or in the pool. */
  predicate MayWake(st: State, op: Op) {
    op.DoWakeup? && Enabled(st, op) && op.co in st.status ==>
      !st.status[op.co].Waiting? && !st.status[op.co].Timed? && st.status[op.co] !in {Forked, Pooled}
  }

  // ----- every step keeps the invariant -----

  lemma CreateKeeps(st: State)
    requires Inv(st)
    ensures Inv(CreateIn(st)) && Holds(CreateIn(st).status, NewCo(st), Armed)
    ensures NewCo(st) !in st.coAddress && CreateIn(st).coAddress == st.coAddress && CreateIn(st).running == st.running
  {
    var co := NewCo(st);
    if st.pool != [] {
      TakenFromPool(st.pool, st.forks, st.sessionCo, st.frames, st.status);
      assert Holds(st.status, co, Pooled);
    } else {
      Created(st.pool, st.forks, st.sessionCo, st.frames, st.status, co);
    }
    hide Located, Owed, Running;
  }

  /** So a coroutine can always be had, as long as the invariant holds. */
  lemma AlwaysCanCreate(st: State)
    requires Inv(st)
    ensures CanCreate(st)
  {
    assert st.pool != [] ==> st.pool[|st.pool| - 1] in st.pool;
  }

  lemma ResumeKeeps(st: State, co: Co, from: Resumer)
    requires Inv(st) && (Holds(st.status, co, Armed) || Holds(st.status, co, Parked))
    requires if st.frames == [] then !from.ByWakeup? && (from == ByDrain ==> st.dispatching)
             else from == ByWakeup(st.running)
    ensures Inv(ResumeIn(st, co, from))
    ensures ResumeIn(st, co, from).frames == st.frames + [Frame(co, from)]
  {
    Resumed(st.pool, st.forks, st.sessionCo, st.frames, st.status, Frame(co, from));
    hide Located, Owed;
  }

  lemma NewContext(coSession: map<Co, int>, coAddress: map<Co, int>, status: map<Co, Status>,
                   co: Co, session: int, source: int)
    requires Contexts(coSession, coAddress, status) && Holds(status, co, Armed)
    ensures Contexts(coSession[co := session], coAddress[co := source], status)
  {
  }

  lemma StartKeeps(st: State, session: int, source: int)
    requires Inv(st) && st.frames == []
    ensures Inv(StartIn(st, session, source)) && StartIn(st, session, source).frames == [Frame(NewCo(st), ByDispatch)]
  {
    CreateKeeps(st);
    Begun(st, session, source);
    hide CreateIn, NewCo;
    var co, made := NewCo(st), CreateIn(st);
    var begun := made.(
      coSession := made.coSession[co := session],
      coAddress := made.coAddress[co := source],
      ledger := made.ledger.(requests := made.ledger.requests + [Request(source, session)],
                             ofCo := made.ledger.ofCo[co := |made.ledger.requests|]));
    NewContext(made.coSession, made.coAddress, made.status, co, session, source);
    hide Located, Running, Contexts, Replies, ResumeIn;
    assert Inv(begun);
    hide Inv;
    ResumeKeeps(begun, co, ByDispatch);
  }

  /** A coroutine that was waiting somewhere may as well be armed first. */
  lemma ResumeArmed(st: State, co: Co, from: Resumer)
    requires co in st.status && st.status[co] !in {Active, Dead, Pooled}
    ensures ResumeIn(st, co, from) == ResumeIn(st.(status := st.status[co := Armed]), co, from)
  {
    assert st.status[co := Armed][co := Active] == st.status[co := Active];
  }

  lemma DeliverKeeps(st: State, kind: Kind, session: int, source: int, handler: bool)
    requires Inv(st) && st.frames == [] && !st.dispatching
    ensures Inv(DeliverIn(st, kind, session, source, handler))
    ensures kind == Message && handler ==>
              DeliverIn(st, kind, session, source, handler).frames == [Frame(NewCo(st), ByDispatch)]
    ensures kind != Message && session in st.sessionCo ==>
              DeliverIn(st, kind, session, source, handler).frames == [Frame(st.sessionCo[session], ByDispatch)]
  {
    if kind == Message {
      if handler {
        StartKeeps(st, session, source);
        hide StartIn;
      }
    } else if session in st.sessionCo {
      var co := st.sessionCo[session];
      TakenFromSessions(st.pool, st.forks, st.sessionCo, st.frames, st.status, session);
      var taken := st.(sessionCo := st.sessionCo - {session});
      var armed := taken.(status := st.status[co := Armed]);
      ResumeArmed(taken, co, ByDispatch);
      assert Inv(armed) by { hide Located, Owed; }
      hide Inv;
      ResumeKeeps(armed, co, ByDispatch);
      hide ResumeIn;
      NowDispatching(ResumeIn(taken, co, ByDispatch));
    }
  }

  lemma NowDispatching(st: State)
    requires Inv(st)
    ensures Inv(st.(dispatching := true))
  {
  }

  lemma DrainKeeps(st: State)
    requires Inv(st) && st.frames == [] && st.dispatching
    ensures Inv(DrainIn(st))
    ensures st.forks != [] ==> DrainIn(st).frames == [Frame(st.forks[0], ByDrain)]
  {
    if st.forks != [] {
      var co := st.forks[0];
      TakenFromForks(st.pool, st.forks, st.sessionCo, st.frames, st.status);
      var taken := st.(forks := st.forks[1..]);
      var armed := taken.(status := st.status[co := Armed]);
      ResumeArmed(taken, co, ByDrain);
      assert Inv(armed) by { hide Located, Owed; }
      hide Inv;
      ResumeKeeps(armed, co, ByDrain);
    }
  }

  lemma ReturnKeepsRunning(st: State, left: Status)
    requires Running(st.frames, st.running) && st.frames != []
    ensures Running(ReturnIn(st, left).frames, ReturnIn(st, left).running)
  {
  }

  lemma StillNoContext(st: State, co: Co, left: Status)
    requires Contexts(st.coSession, st.coAddress, st.status)
    requires left in {Parked, Dead} || left.Waiting? || co !in st.coAddress
    ensures Contexts(st.coSession, st.coAddress, st.status[co := left])
  {
  }

  lemma WaitKeeps(st: State)
    requires Inv(st) && st.frames != []
    ensures Inv(WaitIn(st))
  {
    hide Counted, Located, Replies, Running, Contexts, Holds;
    var session := st.lastSession + 1;
    SessionIsNew(st);
    TopIsKnown(st);
    WaitCounted(st);
    Suspended(st.pool, st.forks, st.sessionCo, st.frames, st.status, session);
    ReturnKeepsRunning(st.(lastSession := session, sessionCo := st.sessionCo[session := Top(st)]), Waiting(session));
    StillNoContext(st, Top(st), Waiting(session));
  }

  lemma SessionIsNew(st: State)
    requires Counted(st)
    ensures st.lastSession + 1 !in st.sessionCo
  {
  }

  lemma TopIsKnown(st: State)
    requires Located(st.pool, st.forks, st.sessionCo, st.frames, st.status) && st.frames != []
    ensures Holds(st.status, Top(st), Active) && Top(st) in st.status
  {
  }

  lemma WaitCounted(st: State)
    requires Counted(st) && st.frames != [] && Top(st) in st.status
    ensures Counted(WaitIn(st))
  {
  }

  lemma LeaveKeeps(st: State, left: Status)
    requires Inv(st) && st.frames != [] && left in {Parked, Dead}
    ensures Inv(ReturnIn(st, left))
  {
    Left(st.pool, st.forks, st.sessionCo, st.frames, st.status, left);
    ReturnKeepsRunning(st, left);
    StillNoContext(st, Top(st), left);
    hide Located, Replies, Running, Contexts;
  }

  lemma TimeoutKeeps(st: State)
    requires Inv(st)
    ensures Inv(TimeoutIn(st))
  {
    hide Inv, CreateIn, RegisterIn;
    CreateKeeps(st);
    RegisterKeeps(CreateIn(st), NewCo(st));
  }

  lemma RegisterKeeps(st: State, co: Co)
    requires Inv(st) && Holds(st.status, co, Armed) && co !in st.coAddress
    ensures Inv(RegisterIn(st, co))
  {
    var session, st' := st.lastSession + 1, RegisterIn(st, co);
    SessionIsNew(st);
    RegisterCounted(st, co);
    assert st' == st.(lastSession := session, sessionCo := st.sessionCo[session := co],
                      status := st.status[co := Timed(session)]);
    hide Counted, Located, Replies, Running, Contexts, Holds, RegisterIn;
    Registered(st.pool, st.forks, st.sessionCo, st.frames, st.status, co, session);
    StillNoContext(st, co, Timed(session));
  }

  lemma RegisterCounted(st: State, co: Co)
    requires Counted(st) && co in st.status
    ensures Counted(RegisterIn(st, co))
  {
  }

  lemma ForkKeeps(st: State)
    requires Inv(st)
    ensures Inv(ForkIn(st))
  {
    hide Inv, CreateIn, QueueIn;
    CreateKeeps(st);
    QueueKeeps(CreateIn(st), NewCo(st));
  }

  lemma QueueKeeps(st: State, co: Co)
    requires Inv(st) && Holds(st.status, co, Armed) && co !in st.coAddress
    ensures Inv(QueueIn(st, co))
  {
    Queued(st.pool, st.forks, st.sessionCo, st.frames, st.status, co);
    StillNoContext(st, co, Forked);
    hide Located, Owed, Running, Contexts;
  }

  // ----- answering -----

  lemma Taken(st: State, co: Co)
    requires Owed(st) && co in st.coSession
    ensures co in st.coAddress && co in st.ledger.ofCo && Owed(TakeRequestIn(st, co))
    ensures Unanswered(TakeRequestIn(st, co).ledger, st.ledger.ofCo[co], Request(st.coAddress[co], st.coSession[co]))
  {
  }

  lemma Answered(st: State, r: nat, req: Request)
    requires Owed(st) && Unanswered(st.ledger, r, req) && req.session != 0
    ensures Owed(AnswerIn(st, r, req))
  {
    var l := st.ledger;
    assert forall i | 0 <= i < |l.replied| :: l.replied[i] in l.replied;
    assert forall i | 0 <= i < |l.ofClosure| :: l.ofClosure[i] in l.ofClosure;
    assert forall x | x in l.replied + [r] :: x in l.replied || x == r;
  }

  lemma HandedOver(st: State, r: nat, req: Request)
    requires Owed(st) && Unanswered(st.ledger, r, req)
    ensures Owed(HandOverIn(st, r, req))
  {
    var l := st.ledger;
    assert forall i | 0 <= i < |l.ofClosure| :: l.ofClosure[i] in l.ofClosure;
    assert forall x | x in l.ofClosure + [r] :: x in l.ofClosure || x == r;
  }

  lemma RetOwed(st: State, co: Co)
    requires Owed(st)
    ensures Owed(RetIn(st, co))
  {
    if co in st.coSession {
      Taken(st, co);
      hide Owed, TakeRequestIn, AnswerIn, Unanswered;
      if st.coSession[co] != 0 {
        Answered(TakeRequestIn(st, co), st.ledger.ofCo[co], Request(st.coAddress[co], st.coSession[co]));
      }
    }
  }

  lemma MakeResponseOwed(st: State, co: Co)
    requires Owed(st)
    ensures Owed(MakeResponseIn(st, co))
  {
    if co in st.coSession {
      Taken(st, co);
      hide Owed, TakeRequestIn, HandOverIn, Unanswered;
      HandedOver(TakeRequestIn(st, co), st.ledger.ofCo[co], Request(st.coAddress[co], st.coSession[co]));
    }
  }

  lemma UseResponseOwed(st: State, i: nat)
    requires Owed(st) && i < |st.closures|
    ensures Owed(UseResponseIn(st, i))
  {
    var c, l := st.closures[i], st.ledger;
    if c.session != 0 && !c.sent {
      var r := l.ofClosure[i];
      assert r in l.ofClosure;
      assert forall j | 0 <= j < |l.replied| :: l.replied[j] in l.replied;
      assert forall x | x in l.replied + [r] :: x in l.replied || x == r;
    }
  }

  lemma DropContextOwed(st: State, co: Co)
    requires Owed(st)
    ensures Owed(DropContextIn(st, co))
  {
  }

  /** A new request: nobody has answered it, and only this coroutine can. */
  lemma Begun(st: State, session: int, source: int)
    requires Owed(st)
    ensures Owed(StartIn(st, session, source))
  {
    BegunReplies(st, NewCo(st), session, source);
    hide ResumeIn, CreateIn, NewCo, Replies;
  }

  lemma BegunReplies(st: State, co: Co, session: int, source: int)
    requires Owed(st)
    ensures var l := st.ledger;
            Replies(st.coSession[co := session], st.coAddress[co := source], st.closures, st.replies,
                    l.(requests := l.requests + [Request(source, session)], ofCo := l.ofCo[co := |l.requests|]))
  {
    var l := st.ledger;
    assert forall i | 0 <= i < |l.ofClosure| :: l.ofClosure[i] in l.ofClosure;
    assert forall i | 0 <= i < |l.replied| :: l.replied[i] in l.replied;
  }

  /** All other steps leave the requests alone. */
  lemma NothingSettled(st: State, op: Op)
    requires NewRequests(st, op) == [] && (Enabled(st, op) ==> !Settles(op))
    ensures var st' := Next(st, op);
            && st'.coSession == st.coSession && st'.coAddress == st.coAddress && st'.closures == st.closures
            && st'.replies == st.replies && st'.ledger == st.ledger
  {
    hide ResumeIn, CreateIn, ReturnIn, NewCo, StartIn, RetIn, MakeResponseIn, UseResponseIn, FinishIn;
  }

  /** Whatever user code wakes: every step keeps the record of the requests ... */
  lemma NextOwed(st: State, op: Op)
    requires Owed(st)
    ensures Owed(Next(st, op))
  {
    hide Replies, Next, Enabled, NewRequests;
    if NewRequests(st, op) != [] || (Enabled(st, op) && Settles(op)) {
      hide Owed;
      SettledOwed(st, op);
    } else {
      NothingSettled(st, op);
    }
  }

  lemma SettledOwed(st: State, op: Op)
    requires Owed(st) && (NewRequests(st, op) != [] || (Enabled(st, op) && Settles(op)))
    ensures Owed(Next(st, op))
  {
    hide Replies, ReturnIn, StartIn, RetIn, MakeResponseIn, UseResponseIn, DropContextIn;
    match op
    case Deliver(kind, session, source, handler) => Begun(st, session, source);
    case SocketEvent => Begun(st, 0, 0);
    case DoRet => RetOwed(st, Top(st));
    case DoMakeResponse => MakeResponseOwed(st, Top(st));
    case DoUseResponse(i) => UseResponseOwed(st, i);
    case DoFinish => DropContextOwed(st, Top(st));
    case _ =>
  }

  /** ... and running_thread right. */
  lemma NextRunning(st: State, op: Op)
    requires Running(st.frames, st.running)
    ensures Running(Next(st, op).frames, Next(st, op).running)
  {
    if Enabled(st, op) && Leaves(op) {
      LeavingKeepsRunning(st, op);
    } else if Enabled(st, op) {
      hide Running, Without, Release;
      match op
      case Deliver(kind, session, source, handler) =>
        if kind == Message && handler {
          StartKeepsRunning(st, session, source);
        } else if kind != Message && session in st.sessionCo {
          ResumeKeepsRunning(st.(sessionCo := st.sessionCo - {session}), st.sessionCo[session], ByDispatch);
        }
      case SocketEvent => StartKeepsRunning(st, 0, 0);
      case Drain =>
        if st.forks != [] {
          ResumeKeepsRunning(st.(forks := st.forks[1..]), st.forks[0], ByDrain);
        }
      case DoWakeup(co) => ResumeKeepsRunning(st, co, ByWakeup(st.running));
      case _ =>
    }
  }

  lemma ResumeKeepsRunning(st: State, co: Co, from: Resumer)
    requires Running(st.frames, st.running)
    requires if st.frames == [] then !from.ByWakeup? else from == ByWakeup(st.running)
    ensures var st' := ResumeIn(st, co, from);
            if |st'.frames| > |st.frames| || st.frames == [] then Running(st'.frames, st'.running)
            else Running(st'.frames, st.running)
  {
  }

  lemma StartKeepsRunning(st: State, session: int, source: int)
    requires Running(st.frames, st.running) && st.frames == []
    ensures Running(StartIn(st, session, source).frames, StartIn(st, session, source).running)
  {
    hide CreateIn, NewCo;
  }

  lemma LeavingKeepsRunning(st: State, op: Op)
    requires Running(st.frames, st.running) && Enabled(st, op) && Leaves(op)
    ensures Running(Next(st, op).frames, Next(st, op).running)
  {
    hide Without, Release;
  }

  /** Answering moves nobody. */
  lemma AnsweringKeeps(st: State, op: Op)
    requires Inv(st) && (op in {DoRet, DoMakeResponse} || op.DoUseResponse?)
    ensures Inv(Next(st, op))
  {
    NextOwed(st, op);
    hide Located, Running, Owed;
  }

  lemma DropContextKeeps(st: State, co: Co)
    requires Inv(st)
    ensures Inv(DropContextIn(st, co)) && co !in DropContextIn(st, co).coAddress
    ensures var d := DropContextIn(st, co); d.frames == st.frames && d.status == st.status && d.pool == st.pool
  {
    DropContextOwed(st, co);
    hide Located, Running, Owed;
  }

  lemma FinishKeeps(st: State)
    requires Inv(st) && st.frames != []
    ensures Inv(FinishIn(st))
  {
    hide Located, Replies, Running, Contexts, DropContextIn;
    var co := Top(st);
    DropContextKeeps(st, co);
    var d := DropContextIn(st, co);
    BackToPool(d.pool, d.forks, d.sessionCo, d.frames, d.status);
    ReturnKeepsRunning(d.(pool := d.pool + [co]), Pooled);
    StillNoContext(d, co, Pooled);
  }

  /** Every step keeps the invariant, as long as starnet.wakeup is called for coroutines it may wake. */
  lemma NextKeeps(st: State, op: Op)
    requires Inv(st) && MayWake(st, op)
    ensures Inv(Next(st, op))
  {
    if Enabled(st, op) {
      hide Inv;
      match op
      case Deliver(kind, session, source, handler) => DeliverKeeps(st, kind, session, source, handler);
      case SocketEvent => StartKeeps(st, 0, 0);
      case Drain => DrainKeeps(st);
      case DoCall => WaitKeeps(st);
      case DoSleep => WaitKeeps(st);
      case DoTimeout => TimeoutKeeps(st);
      case DoFork => ForkKeeps(st);
      case DoRet => AnsweringKeeps(st, op);
      case DoMakeResponse => AnsweringKeeps(st, op);
      case DoUseResponse(_) => AnsweringKeeps(st, op);
      case DoPark => LeaveKeeps(st, Parked);
      case DoWakeup(co) => WakeupKeeps(st, co);
      case DoFinish => FinishKeeps(st);
      case DoFail => LeaveKeeps(st, Dead);
      case DoExit => LeaveKeeps(st, if st.frames[|st.frames| - 1].from == ByDispatch then Dead else Parked);
    }
  }

  lemma WakeupKeeps(st: State, co: Co)
    requires Inv(st) && st.frames != [] && MayWake(st, DoWakeup(co))
    ensures Inv(WakeupIn(st, co))
  {
    if Holds(st.status, co, Armed) || Holds(st.status, co, Parked) {
      hide Inv;
      ResumeKeeps(st, co, ByWakeup(st.running));
    } else {
      assert WakeupIn(st, co) == st;
    }
  }

  /** That is exactly what it may be called for: of the coroutines that are suspended, waking a parked
      one leaves everybody in one place, and waking any other does not. */
  lemma WakeupKeepsPlaces(st: State, co: Co)
    requires Inv(st) && st.frames != [] && co in st.status && st.status[co] !in {Armed, Active, Dead}
    ensures var woken := WakeupIn(st, co);
            Located(woken.pool, woken.forks, woken.sessionCo, woken.frames, woken.status) <==> st.status[co] == Parked
  {
    if st.status[co] == Parked {
      WakeupKeeps(st, co);
    } else {
      var woken := WakeupIn(st, co);
      assert woken.status[co] in {Active, Armed};
      assert AtPlace(st.pool, st.forks, st.sessionCo, st.frames, st.status[co], co);
      assert st.status[co] == Pooled ==> co in woken.pool;
    }
  }
}
