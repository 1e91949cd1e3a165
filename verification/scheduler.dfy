/**
 The Lua scheduler as the library runs it: every message is handled in a coroutine of its own; calls,
 sleeps, timers and replies are matched by session. Each of its operations takes the state of
 SchedulerState to the one that SchedulerSteps gives; what holds over whole runs is in SchedulerRuns.
 */
module Scheduler {
  import opened SchedulerState
  import opened SchedulerSteps
  import SchedulerRuns

  datatype RetResult = NoSession | NotNeeded | Replied

  class Scheduler {
    var pool: seq<Co>
    var sessionCo: map<int, Co>
    var coSession: map<Co, int>
    var coAddress: map<Co, int>
    var forkSlots: map<int, Co>
    var forkHead: int
    var forkTail: int
    var running: Option<Co>
    var closures: seq<Closure>
    var replies: seq<Request>
    var lastSession: nat

    // the Lua machine: who resumed whom, what every coroutine is doing, and whether a message has been
    // dispatched and the fork queue not been emptied since
    var frames: seq<Frame>
    var status: map<Co, Status>
    var created: nat
    var dispatching: bool

    ghost var forks: seq<Co>
    ghost var ledger: Ledger

    /** The slots from head to tail hold the queue. */
    ghost predicate ForkQueue()
      reads this`forks, this`forkSlots, this`forkHead, this`forkTail
    {
      && forkTail - forkHead + 1 == |forks|
      && (forall i | forkHead <= i <= forkTail :: i in forkSlots && forkSlots[i] == forks[i - forkHead])
    }

    ghost function Abs(): State
      reads this
    {
      State(pool, sessionCo, coSession, coAddress, forks, running, closures, replies, lastSession,
            frames, status, created, dispatching, ledger)
    }

    ghost predicate Valid()
      reads this
    {
      ForkQueue() && Running(frames, running) && Owed(Abs())
    }

    constructor ()
      ensures Valid() && Abs() == FRESH
    {
      pool, sessionCo, coSession, coAddress, running := [], map[], map[], map[], None;
      forkSlots, forkHead, forkTail, forks := map[], 1, 0, [];
      closures, replies, lastSession := [], [], 0;
      frames, status, created, dispatching := [], map[], 0, false;
      ledger := Ledger([], map[], [], []);
    }

    predicate Ready(op: Op)
      reads this
      ensures Ready(op) == Enabled(Abs(), op)
    {
      var canCreate := pool == [] || (var co := pool[|pool| - 1]; co in status && status[co] == Pooled);
      match op
      case Deliver(kind, _, _, handler) => frames == [] && !dispatching && (kind == Message && handler ==> canCreate)
      case SocketEvent => frames == [] && !dispatching && canCreate
      case Drain => frames == [] && dispatching
      case DoUseResponse(i) => i < |closures|
      case DoTimeout => canCreate
      case DoFork => canCreate
      case _ => frames != []
    }

    /** coroutine_resume: running_thread, and then the Lua machine. */
    method Resume(co: Co, from: Resumer)
      modifies this`running, this`frames, this`status
      ensures Abs() == ResumeIn(old(Abs()), co, from)
    {
      running := Some(co);
      if co in status && status[co] == Pooled {
        status := status[co := Armed];
      } else if co in status && status[co] !in {Active, Dead} {
        frames := frames + [Frame(co, from)];
        status := status[co := Active];
      }
    }

    /** coroutine_yield, seen from outside: back to whoever resumed it. Only starnet.wakeup puts
        running_thread back. */
    method Return(left: Status)
      requires frames != []
      modifies this`frames, this`status, this`running
      ensures Abs() == ReturnIn(old(Abs()), left)
    {
      var top := frames[|frames| - 1];
      frames := frames[..|frames| - 1];
      status := status[top.co := left];
      if top.from.ByWakeup? {
        running := top.from.before;
      }
    }

    /** A pooled coroutine takes the new function and waits; running_thread is put back. */
    method CoCreate() returns (co: Co)
      requires CanCreate(Abs())
      modifies this`pool, this`running, this`frames, this`status, this`created
      ensures Abs() == CreateIn(old(Abs())) && co == NewCo(old(Abs()))
      ensures old(pool) != [] ==> co == old(pool)[|old(pool)| - 1] && pool == old(pool)[..|old(pool)| - 1]
      ensures old(pool) == [] ==> co == old(created) && pool == []
      ensures Holds(status, co, Armed) && running == old(running) && frames == old(frames)
    {
      if pool != [] {
        co := pool[|pool| - 1];
        pool := pool[..|pool| - 1];
        var before := running;
        Resume(co, ByDispatch);
        running := before;
      } else {
        co := created;
        created := created + 1;
        status := status[co := Armed];
      }
    }

    /** A new coroutine with a context: the session and the address its reply would go to. */
    method StartInCoroutine(session: int, source: int)
      requires CanCreate(Abs())
      modifies this`pool, this`running, this`frames, this`status, this`created, this`coSession, this`coAddress,
               this`ledger
      ensures Abs() == StartIn(old(Abs()), session, source)
      ensures var co := NewCo(old(Abs()));
              && running == Some(co) && frames == old(frames) + [Frame(co, ByDispatch)]
              && coSession == old(coSession)[co := session] && coAddress == old(coAddress)[co := source]
    {
      hide CreateIn, NewCo;
      var co := CoCreate();
      coSession := coSession[co := session];
      coAddress := coAddress[co := source];
      ledger := ledger.(requests := ledger.requests + [Request(source, session)],
                        ofCo := ledger.ofCo[co := |ledger.requests|]);
      Resume(co, ByDispatch);
    }

    /** A response or an error goes to whoever is registered under its session; anything else to a new
        coroutine, if there is a handler. */
    method RawDispatch(kind: Kind, session: int, source: int, handler: bool)
      requires ForkQueue() && (kind == Message && handler ==> CanCreate(Abs()))
      modifies this
      ensures ForkQueue() && Abs() == DeliverIn(old(Abs()), kind, session, source, handler)
      ensures kind != Message ==> sessionCo == old(sessionCo) - {session}
      ensures kind != Message ==> replies == old(replies) && ledger == old(ledger)
      ensures kind != Message && session in old(sessionCo) ==> running == Some(old(sessionCo)[session])
      ensures kind != Message && session !in old(sessionCo) ==> running == old(running) && frames == old(frames)
      ensures kind == Message && handler ==> ledger.requests == old(ledger.requests) + [Request(source, session)]
    {
      hide ResumeIn, StartIn;
      assert session !in sessionCo ==> sessionCo - {session} == sessionCo;
      if kind == Message {
        if handler {
          StartInCoroutine(session, source);
        }
      } else if session in sessionCo {
        var co := sessionCo[session];
        sessionCo := sessionCo - {session};
        Resume(co, ByDispatch);
      }
      dispatching := true;
    }

    /** One round of the loop that runs what was forked; with nothing left it is over. */
    method DrainForks()
      requires ForkQueue()
      modifies this`forkSlots, this`forkHead, this`forkTail, this`forks, this`dispatching, this`running, this`frames,
               this`status
      ensures ForkQueue() && Abs() == DrainIn(old(Abs()))
      ensures old(forks) == [] ==> !dispatching && forks == [] && frames == old(frames)
      ensures old(forks) != [] ==>
                forks == old(forks)[1..] && running == Some(old(forks)[0]) && dispatching == old(dispatching)
    {
      hide ResumeIn;
      if forkHead > forkTail {
        forkHead, forkTail := 1, 0;
        dispatching := false;
      } else {
        var co := forkSlots[forkHead];
        assert co == forks[0];
        forkSlots := forkSlots - {forkHead};
        forkHead := forkHead + 1;
        forks := forks[1..];
        Resume(co, ByDrain);
      }
    }

    // ----- what the executing coroutine does -----

    method Genid() returns (session: int)
      modifies this`lastSession
      ensures session == lastSession == old(lastSession) + 1
    {
      lastSession := lastSession + 1;
      session := lastSession;
    }

    /** A request goes out under a new session, and the caller waits for that session. */
    method Call()
      requires frames != [] && Running(frames, running)
      modifies this`lastSession, this`sessionCo, this`frames, this`status, this`running
      ensures Abs() == WaitIn(old(Abs()))
      ensures var co, session := old(running.value), old(lastSession) + 1;
              sessionCo == old(sessionCo)[session := co] && Holds(status, co, Waiting(session))
    {
      var session := Genid();
      YieldFor(session);
    }

    method Sleep()
      requires frames != [] && Running(frames, running)
      modifies this`lastSession, this`sessionCo, this`frames, this`status, this`running
      ensures Abs() == WaitIn(old(Abs()))
      ensures var co, session := old(running.value), old(lastSession) + 1;
              sessionCo == old(sessionCo)[session := co] && Holds(status, co, Waiting(session))
    {
      var session := Genid();
      YieldFor(session);
    }

    /** Wait for a message of that session: registered under running_thread, then suspended. */
    method YieldFor(session: int)
      requires frames != [] && Running(frames, running)
      modifies this`sessionCo, this`frames, this`status, this`running
      ensures Abs() == ReturnIn(old(Abs().(sessionCo := sessionCo[session := Top(Abs())])), Waiting(session))
    {
      hide ReturnIn;
      sessionCo := sessionCo[session := running.value];
      Return(Waiting(session));
    }

    /** A new coroutine registered under a new session. */
    method Timeout() returns (co: Co)
      requires CanCreate(Abs())
      modifies this`lastSession, this`pool, this`running, this`frames, this`status, this`created, this`sessionCo
      ensures Abs() == TimeoutIn(old(Abs())) && co == NewCo(old(Abs()))
      ensures sessionCo == old(sessionCo)[lastSession := co] && running == old(running) && frames == old(frames)
    {
      var session := Genid();
      co := CoCreate();
      sessionCo := sessionCo[session := co];
      status := status[co := Timed(session)];
    }

    /** A new coroutine at the end of the fork queue. */
    method Fork() returns (co: Co)
      requires ForkQueue() && CanCreate(Abs())
      modifies this`pool, this`running, this`frames, this`status, this`created, this`forkSlots, this`forkTail,
               this`forks
      ensures ForkQueue() && Abs() == ForkIn(old(Abs())) && co == NewCo(old(Abs()))
      ensures forks == old(forks) + [co] && running == old(running) && frames == old(frames)
    {
      hide CreateIn, NewCo;
      co := CoCreate();
      forkSlots := forkSlots[forkTail + 1 := co];
      forkTail := forkTail + 1;
      forks := forks + [co];
      status := status[co := Forked];
    }

    /** Answer the request of the executing coroutine, once. */
    method Ret() returns (r: RetResult)
      requires Valid() && frames != []
      modifies this`coSession, this`replies, this`ledger
      ensures Abs() == RetIn(old(Abs()), Top(old(Abs())))
      ensures r == Replied <==> Answers(old(Abs()), DoRet) != []
      ensures r == NoSession <==> Top(old(Abs())) !in old(coSession)
      ensures var co := Top(Abs());
              && (r != Replied ==> replies == old(replies))
              && (r == Replied ==>
                    co in coAddress && replies == old(replies) + [Request(coAddress[co], old(coSession)[co])])
              && co !in coSession
    {
      RunningIsTop();
      hide Running, Replies;
      var co := running.value;
      if co !in coSession {
        return NoSession;
      }
      Owes(Abs(), co);
      var session, r' := coSession[co], ledger.ofCo[co];
      coSession := Without(coSession, co);
      ledger := Release(ledger, co);
      if session == 0 {
        return NotNeeded;
      }
      replies := replies + [Request(coAddress[co], session)];
      ledger := ledger.(replied := ledger.replied + [r']);
      r := Replied;
    }

    lemma RunningIsTop()
      requires Valid() && frames != []
      ensures running == Some(Top(Abs()))
    {
    }

    /** The request of the executing coroutine is left to a function that answers it, once. */
    method MakeResponse() returns (ok: bool)
      requires Valid() && frames != []
      modifies this`coSession, this`closures, this`ledger
      ensures Abs() == MakeResponseIn(old(Abs()), Top(old(Abs())))
      ensures ok <==> Top(old(Abs())) in old(coSession)
      ensures Top(Abs()) !in coSession && replies == old(replies) && |closures| == |old(closures)| + if ok then 1 else 0
    {
      RunningIsTop();
      hide Running, Replies;
      var co := running.value;
      if co !in coSession {
        return false;
      }
      Owes(Abs(), co);
      closures := closures + [Closure(coAddress[co], coSession[co], false)];
      ledger := Release(ledger, co).(ofClosure := ledger.ofClosure + [ledger.ofCo[co]]);
      coSession := Without(coSession, co);
      ok := true;
    }

    /** Calling such a function, from anywhere and as often as one likes. */
    method UseResponse(i: nat) returns (sent: bool)
      requires Valid() && i < |closures|
      modifies this`closures, this`replies, this`ledger
      ensures Abs() == UseResponseIn(old(Abs()), i)
      ensures sent <==> Answers(old(Abs()), DoUseResponse(i)) != []
      ensures closures[i].session == 0 || closures[i].sent
      ensures replies == old(replies) + if sent then [Request(closures[i].address, closures[i].session)] else []
    {
      hide Running;
      if closures[i].session == 0 || closures[i].sent {
        return false;
      }
      replies := replies + [Request(closures[i].address, closures[i].session)];
      closures := closures[i := closures[i].(sent := true)];
      ledger := ledger.(replied := ledger.replied + [ledger.ofClosure[i]]);
      sent := true;
    }

    /** A plain yield, to be woken by someone who knows. */
    method Park()
      requires frames != []
      modifies this`frames, this`status, this`running
      ensures Abs() == ReturnIn(old(Abs()), Parked)
    {
      Return(Parked);
    }

    /** starnet.wakeup: the coroutine goes on from where it stands, on top of the caller. What comes
        back at once, because it could not run, leaves running_thread as it was. */
    method Wakeup(co: Co)
      modifies this`status, this`running, this`frames
      ensures Abs() == WakeupIn(old(Abs()), co)
      ensures co in old(status) && old(status[co]) !in {Active, Dead, Pooled} ==>
                running == Some(co) && frames == old(frames) + [Frame(co, ByWakeup(old(running)))]
      ensures co !in old(status) || old(status[co]) in {Active, Dead, Pooled} ==>
                running == old(running) && frames == old(frames)
    {
      var before, depth := running, |frames|;
      Resume(co, ByWakeup(before));
      if |frames| == depth {
        running := before;
      }
    }

    /** The function of the executing coroutine returns: its context is dropped and it goes to the pool. */
    method Finish()
      requires Valid() && frames != []
      modifies this`pool, this`frames, this`status, this`running, this`coSession, this`coAddress, this`ledger
      ensures Abs() == FinishIn(old(Abs()))
      ensures var co := Top(old(Abs())); pool == old(pool) + [co] && co !in coSession && co !in coAddress
    {
      hide ReturnIn, Running;
      var co := frames[|frames| - 1].co;
      if co in coAddress {
        coSession := Without(coSession, co);
        coAddress := Without(coAddress, co);
        ledger := Release(ledger, co);
      }
      pool := pool + [co];
      Return(Pooled);
    }

    /** An error that nobody caught: the coroutine is dead, and its context stays behind. */
    method Fail()
      requires frames != []
      modifies this`frames, this`status, this`running
      ensures Abs() == ReturnIn(old(Abs()), Dead)
    {
      Return(Dead);
    }

    /** exit ends in a yield that only the dispatcher understands; it closes the coroutine. Whoever else has
        resumed it takes it for suspended. */
    method Exit()
      requires frames != []
      modifies this`frames, this`status, this`running
      ensures Abs() == ExitIn(old(Abs()))
      ensures var top := old(frames)[|old(frames)| - 1];
              && frames == old(frames)[..|old(frames)| - 1]
              && (top.from == ByDispatch ==> status == old(status)[top.co := Dead])
              && (top.from != ByDispatch ==> status == old(status)[top.co := Parked])
    {
      if frames[|frames| - 1].from == ByDispatch {
        Fail();
      } else {
        Park();
      }
    }
  }

  lemma Owes(st: State, co: Co)
    requires Owed(st) && co in st.coSession
    ensures co in st.coAddress && co in st.ledger.ofCo
  {
  }

  lemma Impossible(st: State, op: Op)
    requires !Enabled(st, op)
    ensures Next(st, op) == st
  {
  }

  /** One operation of the library, as its step. */
  method Perform(s: Scheduler, op: Op)
    requires s.Valid() && Enabled(s.Abs(), op)
    modifies s
    ensures s.Valid() && s.Abs() == Next(old(s.Abs()), op)
  {
    NextOwed(s.Abs(), op);
    NextRunning(s.Abs(), op);
    hide Running, Owed, ResumeIn, CreateIn, NewCo, ReturnIn, StartIn, RetIn, MakeResponseIn, UseResponseIn, FinishIn;
    hide WaitIn, TimeoutIn, ForkIn, DeliverIn, DrainIn, WakeupIn, ExitIn, Answers, Without, Release;
    match op {
      case Deliver(kind, session, source, handler) => s.RawDispatch(kind, session, source, handler);
      case SocketEvent => s.StartInCoroutine(0, 0);
      case Drain => s.DrainForks();
      case DoTimeout => var co := s.Timeout();
      case DoFork => var co := s.Fork();
      case DoUseResponse(i) => var sent := s.UseResponse(i);
      case _ => PerformOnTop(s, op);
    }
  }

  /** A step of the executing coroutine. */
  method PerformOnTop(s: Scheduler, op: Op)
    requires s.Valid() && s.frames != [] && Enabled(s.Abs(), op)
    requires !op.DoTimeout? && !op.DoFork? && !op.DoUseResponse?
    modifies s
    ensures s.ForkQueue() && s.Abs() == Next(old(s.Abs()), op)
  {
    hide Owed, ResumeIn, CreateIn, NewCo, ReturnIn, StartIn, RetIn, MakeResponseIn, UseResponseIn, FinishIn;
    hide WaitIn, TimeoutIn, ForkIn, DeliverIn, DrainIn, WakeupIn, ExitIn, Answers, Without, Release;
    match op {
      case DoCall => s.Call();
      case DoSleep => s.Sleep();
      case DoRet => var r := s.Ret();
      case DoMakeResponse => var ok := s.MakeResponse();
      case DoPark => s.Park();
      case DoWakeup(co) => s.Wakeup(co);
      case DoFinish => s.Finish();
      case DoFail => s.Fail();
      case DoExit => s.Exit();
    }
  }

  /** After any sequence of steps the scheduler is in the state that SchedulerRuns speaks about. */
  method Run(ops: seq<Op>) returns (s: Scheduler)
    ensures fresh(s) && s.Valid() && s.Abs() == SchedulerRuns.After(ops)
  {
    s := new Scheduler();
    hide Next, Running, Owed;
    assert ops[..0] == [];
    for i := 0 to |ops|
      invariant fresh(s) && s.Valid() && s.Abs() == SchedulerRuns.After(ops[..i])
    {
      SchedulerRuns.OneMore(ops, i);
      if s.Ready(ops[i]) {
        Perform(s, ops[i]);
      } else {
        Impossible(s.Abs(), ops[i]);
      }
    }
    assert ops[..|ops|] == ops;
  }
}
