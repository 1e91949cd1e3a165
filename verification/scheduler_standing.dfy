/**
 What holds of the coroutines whatever user code wakes, and what holds of one coroutine as long as user
 code wakes that one only where it may.
 */
module SchedulerStanding {
  import opened SchedulerState
  import opened SchedulerSteps

  /** The coroutine whose standing a step changes. */
  function Moved(st: State, op: Op): Option<Co> {
    if !Enabled(st, op) then None
    else match op
      case Deliver(kind, session, _, handler) =>
        if kind == Message then if handler then Some(NewCo(st)) else None
        else if session in st.sessionCo then Some(st.sessionCo[session]) else None
      case SocketEvent => Some(NewCo(st))
      case Drain => if st.forks != [] then Some(st.forks[0]) else None
      case DoTimeout => Some(NewCo(st))
      case DoFork => Some(NewCo(st))
      case DoRet => None
      case DoMakeResponse => None
      case DoUseResponse(_) => None
      case DoWakeup(co) => Some(co)
      case _ => Some(Top(st))
  }

  ghost predicate SameStatus(st: State, st': State, co: Co) {
    (co in st'.status <==> co in st.status) && (co in st.status ==> st'.status[co] == st.status[co])
  }

  lemma StatusStep(st: State, op: Op, co: Co)
    requires Moved(st, op) != Some(co)
    ensures SameStatus(st, Next(st, op), co)
  {
    hide ResumeIn, CreateIn, ReturnIn, NewCo, Without, Release;
    if Enabled(st, op) {
      match op
      case Deliver(kind, session, source, handler) =>
        if kind == Message && handler {
          StartStatus(st, session, source, co);
        } else if kind != Message && session in st.sessionCo {
          ResumeStatus(st.(sessionCo := st.sessionCo - {session}), st.sessionCo[session], ByDispatch, co);
        }
      case SocketEvent => StartStatus(st, 0, 0, co);
      case Drain =>
        if st.forks != [] {
          ResumeStatus(st.(forks := st.forks[1..]), st.forks[0], ByDrain, co);
        }
      case DoTimeout => CreateStatus(st, co);
      case DoFork => CreateStatus(st, co);
      case DoWakeup(other) => ResumeStatus(st, other, ByWakeup(st.running), co);
      case DoRet =>
      case DoMakeResponse =>
      case DoUseResponse(_) =>
      case _ => LeaveStatus(st, op, co);
    }
  }

  lemma ResumeStatus(st: State, co: Co, from: Resumer, other: Co)
    requires co != other
    ensures SameStatus(st, ResumeIn(st, co, from), other)
  {
  }

  lemma CreateStatus(st: State, co: Co)
    requires co != NewCo(st)
    ensures SameStatus(st, CreateIn(st), co)
  {
  }

  lemma StartStatus(st: State, session: int, source: int, co: Co)
    requires co != NewCo(st)
    ensures SameStatus(st, StartIn(st, session, source), co)
  {
    hide NewCo;
  }

  lemma LeaveStatus(st: State, op: Op, co: Co)
    requires st.frames != [] && Leaves(op) && co != Top(st)
    ensures SameStatus(st, Next(st, op), co)
  {
  }

  // ----- whatever user code wakes -----

  /** Whoever waits in a call or a sleep is registered under that session, apart from co. */
  ghost predicate WaitersBut(st: State, co: Option<Co>) {
    forall c | c in st.status && st.status[c].Waiting? && co != Some(c) ::
      st.status[c].session in st.sessionCo && st.sessionCo[st.status[c].session] == c
  }

  /** The coroutines on the stack are those that run, each once. */
  ghost predicate Stacked(st: State) {
    && (forall i, j | 0 <= i < j < |st.frames| :: st.frames[i].co != st.frames[j].co)
    && (forall i | 0 <= i < |st.frames| :: Holds(st.status, st.frames[i].co, Active))
  }

  ghost predicate StandingBut(st: State, co: Option<Co>) {
    Counted(st) && Stacked(st) && Contexts(st.coSession, st.coAddress, st.status) && WaitersBut(st, co)
  }

  ghost predicate Standing(st: State) {
    StandingBut(st, None)
  }

  lemma ResumeStanding(st: State, co: Co, from: Resumer)
    requires StandingBut(st, Some(co)) && (st.frames == [] && from == ByDrain ==> st.dispatching)
    ensures Standing(ResumeIn(st, co, from))
  {
    var st' := ResumeIn(st, co, from);
    assert co in st.status && st.status[co].Waiting? ==> st'.status[co] == Active;
  }

  lemma CreateStanding(st: State)
    requires Standing(st) && CanCreate(st)
    ensures Standing(CreateIn(st)) && Holds(CreateIn(st).status, NewCo(st), Armed)
    ensures NewCo(st) !in st.coAddress && (NewCo(st) in st.status ==> st.status[NewCo(st)] == Pooled)
  {
  }

  lemma StartStanding(st: State, session: int, source: int)
    requires Standing(st) && CanCreate(st)
    ensures Standing(StartIn(st, session, source))
  {
    CreateStanding(st);
    hide CreateIn, NewCo;
    var co, made := NewCo(st), CreateIn(st);
    var begun := made.(
      coSession := made.coSession[co := session],
      coAddress := made.coAddress[co := source],
      ledger := made.ledger.(requests := made.ledger.requests + [Request(source, session)],
                             ofCo := made.ledger.ofCo[co := |made.ledger.requests|]));
    NewContext(made.coSession, made.coAddress, made.status, co, session, source);
    assert StandingBut(begun, Some(co)) by { hide Contexts; }
    hide StandingBut, ResumeIn;
    ResumeStanding(begun, co, ByDispatch);
  }

  lemma LeaveStanding(st: State, left: Status)
    requires StandingBut(st, if st.frames != [] then Some(Top(st)) else None) && st.frames != []
    requires left in {Parked, Dead} || (left == Pooled && Top(st) !in st.coAddress)
             || (left.Waiting? && left.session in st.sessionCo && st.sessionCo[left.session] == Top(st))
    ensures Standing(ReturnIn(st, left))
  {
  }

  lemma WaitStanding(st: State)
    requires Standing(st) && st.frames != []
    ensures Standing(WaitIn(st))
  {
    var session := st.lastSession + 1;
    var st1 := st.(lastSession := session, sessionCo := st.sessionCo[session := Top(st)]);
    SessionIsNew(st);
    assert StandingBut(st1, Some(Top(st))) by { hide Contexts; }
    hide StandingBut, ReturnIn;
    LeaveStanding(st1, Waiting(session));
  }

  lemma FinishStanding(st: State)
    requires Standing(st) && st.frames != []
    ensures Standing(FinishIn(st))
  {
    var dropped := DropContextIn(st, Top(st));
    DropsContext(st, Top(st));
    var pooled := dropped.(pool := st.pool + [Top(st)]);
    assert StandingBut(pooled, Some(Top(st))) by { hide Contexts; }
    hide StandingBut, ReturnIn, DropContextIn;
    LeaveStanding(pooled, Pooled);
  }

  lemma DropsContext(st: State, co: Co)
    requires Contexts(st.coSession, st.coAddress, st.status)
    ensures var d := DropContextIn(st, co);
            && Contexts(d.coSession, d.coAddress, d.status) && co !in d.coAddress
            && d == st.(coSession := d.coSession, coAddress := d.coAddress, ledger := d.ledger)
  {
  }

  lemma RegisterStanding(st: State, co: Co)
    requires Standing(st) && Holds(st.status, co, Armed) && co !in st.coAddress
    ensures Standing(RegisterIn(st, co))
  {
    SessionIsNew(st);
  }

  lemma QueueStanding(st: State, co: Co)
    requires Standing(st) && Holds(st.status, co, Armed) && co !in st.coAddress
    ensures Standing(QueueIn(st, co))
  {
  }

  lemma DeliverStanding(st: State, kind: Kind, session: int, source: int, handler: bool)
    requires Standing(st) && st.frames == [] && (kind == Message && handler ==> CanCreate(st))
    ensures Standing(DeliverIn(st, kind, session, source, handler))
  {
    hide Standing, StartIn, ResumeIn;
    if kind == Message {
      if handler {
        StartStanding(st, session, source);
        DispatchStanding(StartIn(st, session, source));
      } else {
        DispatchStanding(st);
      }
    } else if session in st.sessionCo {
      var co, taken := st.sessionCo[session], st.(sessionCo := st.sessionCo - {session});
      TakenStanding(st, session);
      ResumeStanding(taken, co, ByDispatch);
      DispatchStanding(ResumeIn(taken, co, ByDispatch));
    } else {
      DispatchStanding(st);
    }
  }

  lemma DispatchStanding(st: State)
    requires Standing(st)
    ensures Standing(st.(dispatching := true))
  {
  }

  lemma TakenStanding(st: State, session: int)
    requires Standing(st) && session in st.sessionCo
    ensures StandingBut(st.(sessionCo := st.sessionCo - {session}), Some(st.sessionCo[session]))
  {
  }

  /** Whatever user code wakes, every step keeps this. */
  lemma NextStanding(st: State, op: Op)
    requires Standing(st)
    ensures Standing(Next(st, op))
  {
    if Enabled(st, op) {
      hide CreateIn, RegisterIn, QueueIn, ResumeIn, NewCo, Without, Release;
      match op
      case Deliver(kind, session, source, handler) => DeliverStanding(st, kind, session, source, handler);
      case SocketEvent => StartStanding(st, 0, 0);
      case Drain => DrainStanding(st);
      case DoCall => WaitStanding(st);
      case DoSleep => WaitStanding(st);
      case DoTimeout =>
        CreateStanding(st);
        RegisterStanding(CreateIn(st), NewCo(st));
      case DoFork =>
        CreateStanding(st);
        QueueStanding(CreateIn(st), NewCo(st));
      case DoPark => LeaveStanding(st, Parked);
      case DoWakeup(co) => WakeupStanding(st, co);
      case DoFinish => FinishStanding(st);
      case DoFail => LeaveStanding(st, Dead);
      case DoExit => LeaveStanding(st, if st.frames[|st.frames| - 1].from == ByDispatch then Dead else Parked);
      case _ => AnsweringStanding(st, op);
    }
  }

  lemma DrainStanding(st: State)
    requires Standing(st) && st.frames == [] && st.dispatching
    ensures Standing(DrainIn(st))
  {
    if st.forks != [] {
      ResumeStanding(st.(forks := st.forks[1..]), st.forks[0], ByDrain);
      hide ResumeIn;
    }
  }

  lemma WakeupStanding(st: State, co: Co)
    requires Standing(st) && st.frames != []
    ensures Standing(WakeupIn(st, co))
  {
    ResumeStanding(st, co, ByWakeup(st.running));
    hide ResumeIn;
  }

  lemma AnsweringStanding(st: State, op: Op)
    requires Standing(st) && Enabled(st, op) && (op in {DoRet, DoMakeResponse} || op.DoUseResponse?)
    ensures Standing(Next(st, op))
  {
  }

  // ----- one coroutine that is woken only where it may -----

  /** Its places, as far as it has any, are those of its status. */
  ghost predicate AtHome(st: State, co: Co) {
    && multiset(st.pool)[co] <= 1 && (co in st.pool ==> Holds(st.status, co, Pooled))
    && multiset(st.forks)[co] <= 1 && (co in st.forks ==> Holds(st.status, co, Forked))
    && (forall s | s in st.sessionCo && st.sessionCo[s] == co ::
          Holds(st.status, co, Timed(s)) || Holds(st.status, co, Waiting(s)))
  }

  /** No places but these. */
  ghost predicate Nowhere(st: State, co: Co) {
    co !in st.pool && co !in st.forks && forall s | s in st.sessionCo :: st.sessionCo[s] != co
  }

  /** st' has no more entries for co than st. */
  ghost predicate NoMore(st: State, st': State, co: Co) {
    && multiset(st'.pool)[co] <= multiset(st.pool)[co] && multiset(st'.forks)[co] <= multiset(st.forks)[co]
    && (forall s | s in st'.sessionCo && st'.sessionCo[s] == co :: s in st.sessionCo && st.sessionCo[s] == co)
  }

  lemma Counts(s: seq<Co>, more: Co, co: Co)
    ensures multiset(s + [more])[co] == multiset(s)[co] + if more == co then 1 else 0
    ensures s != [] ==> multiset(s[..|s| - 1])[co] + (if s[|s| - 1] == co then 1 else 0) == multiset(s)[co]
    ensures s != [] ==> multiset(s[1..])[co] + (if s[0] == co then 1 else 0) == multiset(s)[co]
    ensures co in s <==> multiset(s)[co] > 0
  {
    if s != [] {
      assert s == s[..|s| - 1] + [s[|s| - 1]] && s == [s[0]] + s[1..];
    }
  }

  lemma HomeAgain(st: State, st': State, co: Co)
    requires AtHome(st, co) && NoMore(st, st', co) && SameStatus(st, st', co)
    ensures AtHome(st', co)
  {
    Counts(st.pool, co, co);
    Counts(st'.pool, co, co);
    Counts(st.forks, co, co);
    Counts(st'.forks, co, co);
  }

  lemma ResumeMoves(st: State, co: Co, from: Resumer)
    ensures var st' := ResumeIn(st, co, from); (st'.pool, st'.forks, st'.sessionCo) == (st.pool, st.forks, st.sessionCo)
  {
  }

  lemma CreateMoves(st: State, co: Co)
    requires NewCo(st) != co
    ensures NoMore(st, CreateIn(st), co)
  {
    Counts(st.pool, co, co);
  }

  /** Other coroutines get no entry of this one. */
  lemma NotMoved(st: State, op: Op, co: Co)
    requires Moved(st, op) != Some(co)
    ensures NoMore(st, Next(st, op), co)
  {
    if Enabled(st, op) && Leaves(op) {
      LeaverMoves(st, op, co);
    } else if Enabled(st, op) {
      hide ResumeIn, NewCo, StartIn, RetIn, MakeResponseIn, UseResponseIn, ForkIn, DrainIn, DeliverIn, TimeoutIn;
      hide WakeupIn, NoMore;
      match op
      case Deliver(kind, session, source, handler) => DeliverMoves(st, kind, session, source, handler, co);
      case SocketEvent => StartMoves(st, 0, 0, co);
      case Drain => DrainMoves(st, co);
      case DoTimeout => TimeoutMoves(st, co);
      case DoFork => ForkMoves(st, co);
      case DoWakeup(other) => WakeupMoves(st, other, co);
      case _ => AnsweringMoves(st, op);
    } else {
      hide Enabled, Moved;
    }
  }

  lemma DeliverMoves(st: State, kind: Kind, session: int, source: int, handler: bool, co: Co)
    requires kind == Message && handler ==> NewCo(st) != co
    requires kind != Message && session in st.sessionCo ==> st.sessionCo[session] != co
    ensures NoMore(st, DeliverIn(st, kind, session, source, handler), co)
  {
    hide ResumeIn, StartIn;
    if kind == Message && handler {
      StartMoves(st, session, source, co);
    } else if kind != Message && session in st.sessionCo {
      ResumeMoves(st.(sessionCo := st.sessionCo - {session}), st.sessionCo[session], ByDispatch);
    }
  }

  lemma TimeoutMoves(st: State, co: Co)
    requires NewCo(st) != co
    ensures NoMore(st, TimeoutIn(st), co)
  {
    CreateMoves(st, co);
    hide CreateIn, NewCo;
  }

  lemma WakeupMoves(st: State, other: Co, co: Co)
    ensures NoMore(st, WakeupIn(st, other), co)
  {
    ResumeMoves(st, other, ByWakeup(st.running));
    hide ResumeIn;
  }

  lemma ForkMoves(st: State, co: Co)
    requires NewCo(st) != co
    ensures NoMore(st, ForkIn(st), co)
  {
    CreateMoves(st, co);
    hide CreateIn, NewCo;
    Counts(CreateIn(st).forks, NewCo(st), co);
  }

  lemma DrainMoves(st: State, co: Co)
    requires st.forks != [] ==> st.forks[0] != co
    ensures NoMore(st, DrainIn(st), co)
  {
    Counts(st.forks, co, co);
    if st.forks != [] {
      ResumeMoves(st.(forks := st.forks[1..]), st.forks[0], ByDrain);
    }
    hide ResumeIn;
  }

  lemma AnsweringMoves(st: State, op: Op)
    requires Enabled(st, op) && (op in {DoRet, DoMakeResponse} || op.DoUseResponse?)
    ensures var st' := Next(st, op); (st'.pool, st'.forks, st'.sessionCo) == (st.pool, st.forks, st.sessionCo)
  {
  }

  lemma LeaverMoves(st: State, op: Op, co: Co)
    requires Enabled(st, op) && Leaves(op) && Top(st) != co
    ensures NoMore(st, Next(st, op), co)
  {
    if op == DoFinish {
      FinishMoves(st, co);
    }
    hide Without, Release, DropContextIn;
  }

  lemma StartMoves(st: State, session: int, source: int, co: Co)
    requires NewCo(st) != co
    ensures NoMore(st, StartIn(st, session, source), co)
  {
    CreateMoves(st, co);
    hide CreateIn, NewCo;
  }

  lemma FinishMoves(st: State, co: Co)
    requires st.frames != [] && Top(st) != co
    ensures NoMore(st, FinishIn(st), co)
  {
    Counts(st.pool, Top(st), co);
    hide Without, Release;
  }

  lemma HasNoPlace(st: State, co: Co)
    requires AtHome(st, co)
    requires co in st.status ==> st.status[co] in {Armed, Active, Parked, Dead}
    ensures Nowhere(st, co)
  {
  }

  lemma NowhereIsHome(st: State, co: Co)
    requires Nowhere(st, co)
    ensures AtHome(st, co)
  {
    Counts(st.pool, co, co);
    Counts(st.forks, co, co);
  }

  /** A coroutine that is resumed from its one entry has none left. */
  lemma DeliveredHome(st: State, session: int, co: Co)
    requires AtHome(st, co) && session in st.sessionCo && st.sessionCo[session] == co
    ensures Nowhere(st.(sessionCo := st.sessionCo - {session}), co)
  {
  }

  lemma DrainedHome(st: State)
    requires st.forks != [] && AtHome(st, st.forks[0])
    ensures Nowhere(st.(forks := st.forks[1..]), st.forks[0])
  {
    Counts(st.forks, st.forks[0], st.forks[0]);
    Counts(st.forks[1..], st.forks[0], st.forks[0]);
  }

  lemma ResumedHome(st: State, co: Co, from: Resumer)
    requires Nowhere(st, co)
    ensures Nowhere(ResumeIn(st, co, from), co)
  {
    ResumeMoves(st, co, from);
    hide ResumeIn;
  }

  lemma CreatedHome(st: State)
    requires Standing(st) && CanCreate(st) && AtHome(st, NewCo(st))
    ensures Nowhere(CreateIn(st), NewCo(st))
  {
    CreateStanding(st);
    hide Standing;
    Counts(st.forks, NewCo(st), NewCo(st));
    if st.pool != [] {
      LastGone(st.pool);
    }
  }

  lemma LastGone(pool: seq<Co>)
    requires pool != [] && multiset(pool)[pool[|pool| - 1]] <= 1
    ensures pool[|pool| - 1] !in pool[..|pool| - 1]
  {
    var co, front := pool[|pool| - 1], pool[..|pool| - 1];
    Counts(pool, co, co);
    Counts(front, co, co);
  }

  lemma StartedHome(st: State, session: int, source: int)
    requires Standing(st) && CanCreate(st) && AtHome(st, NewCo(st))
    ensures AtHome(StartIn(st, session, source), NewCo(st))
  {
    CreatedHome(st);
    hide CreateIn, NewCo, Standing;
    var co, made := NewCo(st), CreateIn(st);
    var begun := made.(
      coSession := made.coSession[co := session],
      coAddress := made.coAddress[co := source],
      ledger := made.ledger.(requests := made.ledger.requests + [Request(source, session)],
                             ofCo := made.ledger.ofCo[co := |made.ledger.requests|]));
    hide ResumeIn;
    ResumedHome(begun, co, ByDispatch);
    NowhereIsHome(ResumeIn(begun, co, ByDispatch), co);
  }

  lemma LeftHome(st: State, op: Op)
    requires Standing(st) && Enabled(st, op) && Leaves(op) && AtHome(st, Top(st))
    ensures AtHome(Next(st, op), Top(st))
  {
    var co := Top(st);
    assert Holds(st.status, co, Active);
    HasNoPlace(st, co);
    hide Standing, AtHome, Nowhere, ReturnIn, WaitIn, FinishIn;
    match op
    case DoCall => WaitHome(st);
    case DoSleep => WaitHome(st);
    case DoFinish => FinishHome(st);
    case DoPark => ReturnHome(st, Parked);
    case DoFail => ReturnHome(st, Dead);
    case DoExit => ReturnHome(st, if st.frames[|st.frames| - 1].from == ByDispatch then Dead else Parked);
  }

  lemma ReturnHome(st: State, left: Status)
    requires st.frames != [] && Nowhere(st, Top(st))
    ensures AtHome(ReturnIn(st, left), Top(st))
  {
    NowhereIsHome(ReturnIn(st, left), Top(st));
  }

  lemma WaitHome(st: State)
    requires st.frames != [] && Nowhere(st, Top(st))
    ensures AtHome(WaitIn(st), Top(st))
  {
    NowhereIsHome(st, Top(st));
  }

  lemma FinishHome(st: State)
    requires st.frames != [] && Nowhere(st, Top(st))
    ensures AtHome(FinishIn(st), Top(st))
  {
    Counts(st.pool, Top(st), Top(st));
    Counts(st.forks, Top(st), Top(st));
    hide Without, Release;
  }

  /** A coroutine keeps to its places whatever happens, as long as it is itself woken only where it may. */
  lemma NextAtHome(st: State, op: Op, co: Co)
    requires Standing(st) && AtHome(st, co) && (op == DoWakeup(co) ==> MayWake(st, op))
    ensures AtHome(Next(st, op), co)
  {
    if Moved(st, op) != Some(co) {
      NotMoved(st, op, co);
      StatusStep(st, op, co);
      hide Next, Moved, AtHome;
      HomeAgain(st, Next(st, op), co);
    } else if Leaves(op) {
      hide Next;
      LeftHome(st, op);
    } else {
      hide AtHome, Nowhere, CreateIn, ResumeIn, NewCo, StartIn, Standing, RegisterIn, QueueIn;
      match op
      case Deliver(kind, session, source, handler) =>
        if kind == Message {
          StartedHome(st, session, source);
          SamePlaces(StartIn(st, session, source), DeliverIn(st, kind, session, source, handler), co);
        } else {
          DeliveredHome(st, session, co);
          ResumedHome(st.(sessionCo := st.sessionCo - {session}), co, ByDispatch);
          NowhereIsHome(ResumeIn(st.(sessionCo := st.sessionCo - {session}), co, ByDispatch), co);
          SamePlaces(ResumeIn(st.(sessionCo := st.sessionCo - {session}), co, ByDispatch),
                     DeliverIn(st, kind, session, source, handler), co);
        }
      case SocketEvent => StartedHome(st, 0, 0);
      case Drain =>
        DrainedHome(st);
        ResumedHome(st.(forks := st.forks[1..]), co, ByDrain);
        NowhereIsHome(ResumeIn(st.(forks := st.forks[1..]), co, ByDrain), co);
      case DoTimeout =>
        CreatedHome(st);
        RegisteredHome(CreateIn(st), co);
      case DoFork =>
        CreatedHome(st);
        QueuedHome(CreateIn(st), co);
      case DoWakeup(_) => WokenHome(st, co);
      case _ =>
    }
  }

  lemma SamePlaces(st: State, st': State, co: Co)
    requires AtHome(st, co)
    requires (st'.pool, st'.forks, st'.sessionCo, st'.status) == (st.pool, st.forks, st.sessionCo, st.status)
    ensures AtHome(st', co)
  {
  }

  lemma RegisteredHome(st: State, co: Co)
    requires Nowhere(st, co)
    ensures AtHome(RegisterIn(st, co), co)
  {
    NowhereIsHome(st, co);
  }

  lemma QueuedHome(st: State, co: Co)
    requires Nowhere(st, co)
    ensures AtHome(QueueIn(st, co), co)
  {
    NowhereIsHome(st, co);
    Counts(st.forks, co, co);
  }

  lemma WokenHome(st: State, co: Co)
    requires AtHome(st, co) && st.frames != [] && MayWake(st, DoWakeup(co))
    ensures AtHome(WakeupIn(st, co), co)
  {
    if co !in st.status || st.status[co] in {Active, Dead} {
      assert WakeupIn(st, co) == st;
    } else {
      HasNoPlace(st, co);
      hide AtHome, Nowhere, ResumeIn;
      ResumedHome(st, co, ByWakeup(st.running));
      NowhereIsHome(ResumeIn(st, co, ByWakeup(st.running)), co);
    }
  }
}
