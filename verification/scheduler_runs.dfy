/**
 What the Lua scheduler guarantees over every run: one place for each coroutine, the right
 running_thread, calls resumed by their own sessions, and one answer for each request.
 */
module SchedulerRuns {
  import opened SchedulerState
  import opened SchedulerSteps
  import opened SchedulerStanding

  ghost function After(ops: seq<Op>): State {
    if ops == [] then FRESH else Next(After(ops[..|ops| - 1]), ops[|ops| - 1])
  }

  /** starnet.wakeup is called only for coroutines that it may wake. */
  ghost predicate Disciplined(ops: seq<Op>) {
    forall i | 0 <= i < |ops| :: MayWake(After(ops[..i]), ops[i])
  }

  lemma OneMore(ops: seq<Op>, i: nat)
    requires i < |ops|
    ensures After(ops[..i + 1]) == Next(After(ops[..i]), ops[i])
    ensures Disciplined(ops) ==> Disciplined(ops[..i]) && MayWake(After(ops[..i]), ops[i])
  {
    assert ops[..i + 1][..i] == ops[..i];
    hide Next, MayWake;
    if Disciplined(ops) {
      forall k | 0 <= k < i ensures MayWake(After(ops[..i][..k]), ops[..i][k]) {
        assert ops[..i][..k] == ops[..k];
      }
    }
  }

  lemma {:induction false} RunKeeps(ops: seq<Op>)
    requires Disciplined(ops)
    ensures Inv(After(ops))
  {
    hide Inv, Next, Disciplined, MayWake;
    if ops != [] {
      var n := |ops| - 1;
      OneMore(ops, n);
      assert ops[..n + 1] == ops;
      RunKeeps(ops[..n]);
      NextKeeps(After(ops[..n]), ops[n]);
    } else {
      FreshInv();
    }
  }

  lemma FreshInv()
    ensures Inv(FRESH)
  {
  }

  lemma PrefixKeeps(ops: seq<Op>, i: nat)
    requires Disciplined(ops) && i <= |ops|
    ensures Inv(After(ops[..i])) && Disciplined(ops[..i])
  {
    hide Inv, Next, Disciplined;
    if i < |ops| {
      OneMore(ops, i);
    } else {
      assert ops[..i] == ops;
    }
    RunKeeps(ops[..i]);
  }

  /** Whatever user code wakes, running_thread is the coroutine that executes. */
  lemma {:induction false} RunningIsTop(ops: seq<Op>)
    ensures Running(After(ops).frames, After(ops).running) && Owed(After(ops))
    ensures After(ops).frames != [] ==> After(ops).running == Some(Top(After(ops)))
  {
    if ops != [] {
      var st, op := After(ops[..|ops| - 1]), ops[|ops| - 1];
      RunningIsTop(ops[..|ops| - 1]);
      hide Next, Replies;
      NextOwed(st, op);
      NextRunning(st, op);
    }
  }

  /** Whatever user code wakes, the stack, the contexts and the registered waiters are right. */
  lemma {:induction false} AlwaysStanding(ops: seq<Op>)
    ensures Standing(After(ops))
  {
    if ops != [] {
      AlwaysStanding(ops[..|ops| - 1]);
      hide Next, Standing;
      NextStanding(After(ops[..|ops| - 1]), ops[|ops| - 1]);
    }
  }

  /** starnet.wakeup is called for coroutine co only where it may be; others may be woken anywhere. */
  ghost predicate DisciplinedFor(ops: seq<Op>, co: Co) {
    forall i | 0 <= i < |ops| && ops[i] == DoWakeup(co) :: MayWake(After(ops[..i]), ops[i])
  }

  lemma {:induction false} StaysAtHome(ops: seq<Op>, n: nat, co: Co)
    requires DisciplinedFor(ops, co) && n <= |ops|
    ensures AtHome(After(ops[..n]), co)
  {
    if n > 0 {
      StaysAtHome(ops, n - 1, co);
      OneMore(ops, n - 1);
      AlwaysStanding(ops[..n - 1]);
      hide Next, Standing, AtHome, MayWake, After;
      NextAtHome(After(ops[..n - 1]), ops[n - 1], co);
    }
  }

  /** In every run a coroutine that is itself woken only where it may be is executing, or in the pool
      once, or in the fork queue once, or under one session. */
  lemma OnePlaceInRuns(ops: seq<Op>, co: Co)
    requires DisciplinedFor(ops, co)
    ensures var st := After(ops);
            && multiset(st.pool)[co] + multiset(st.forks)[co] <= 1
            && (co in st.pool + st.forks ==> forall s | s in st.sessionCo :: st.sessionCo[s] != co)
            && (co in st.pool + st.forks ==> !OnStack(st.frames, co) && co !in st.coSession && co !in st.coAddress)
            && (OnStack(st.frames, co) ==> forall s | s in st.sessionCo :: st.sessionCo[s] != co)
            && (forall s, r | s in st.sessionCo && r in st.sessionCo && st.sessionCo[s] == st.sessionCo[r] == co ::
                  s == r)
  {
    var st := After(ops);
    assert ops[..|ops|] == ops;
    StaysAtHome(ops, |ops|, co);
    AlwaysStanding(ops);
    hide After, DisciplinedFor, AtHome, Standing;
    HomeIsOne(st, co);
  }

  lemma HomeIsOne(st: State, co: Co)
    requires AtHome(st, co) && Standing(st)
    ensures multiset(st.pool)[co] + multiset(st.forks)[co] <= 1
    ensures co in st.pool + st.forks ==> forall s | s in st.sessionCo :: st.sessionCo[s] != co
    ensures co in st.pool + st.forks ==> !OnStack(st.frames, co) && co !in st.coSession && co !in st.coAddress
    ensures OnStack(st.frames, co) ==> forall s | s in st.sessionCo :: st.sessionCo[s] != co
    ensures forall s, r | s in st.sessionCo && r in st.sessionCo && st.sessionCo[s] == st.sessionCo[r] == co :: s == r
  {
    Counts(st.pool, co, co);
    Counts(st.forks, co, co);
  }

  /** As long as wakeup is called only where it may be, no step is held back for want of a coroutine. */
  lemma NeverHeldBack(ops: seq<Op>)
    requires Disciplined(ops)
    ensures CanCreate(After(ops))
  {
    hide After, Disciplined, Inv;
    RunKeeps(ops);
    AlwaysCanCreate(After(ops));
  }

  ghost predicate InPlace(st: State) {
    Located(st.pool, st.forks, st.sessionCo, st.frames, st.status)
  }

  /** All coroutines are in their places all the time exactly if wakeup is never called for one that it
      may not wake. */
  lemma {:induction false} PlacesExactly(ops: seq<Op>)
    ensures Disciplined(ops) <==> forall i | 0 <= i <= |ops| :: InPlace(After(ops[..i]))
  {
    if Disciplined(ops) {
      forall i | 0 <= i <= |ops| ensures InPlace(After(ops[..i])) {
        PrefixKeeps(ops, i);
        hide After, Located;
      }
    }
    if forall i | 0 <= i <= |ops| :: InPlace(After(ops[..i])) {
      forall i | 0 <= i < |ops| ensures MayWake(After(ops[..i]), ops[i]) {
        InPlaceMayWake(ops, i);
      }
    }
  }

  lemma {:induction false} InPlaceMayWake(ops: seq<Op>, i: nat)
    requires i < |ops| && forall k | 0 <= k <= |ops| :: InPlace(After(ops[..k]))
    ensures MayWake(After(ops[..i]), ops[i])
    decreases i
  {
    hide Next, InPlace, Inv, MayWake, After;
    forall k | 0 <= k < i ensures MayWake(After(ops[..i][..k]), ops[..i][k]) {
      InPlaceMayWake(ops, k);
      assert ops[..i][..k] == ops[..k];
    }
    RunKeeps(ops[..i]);
    OneMore(ops, i);
    assert InPlace(After(ops[..i + 1]));
    MayWakeIfInPlace(After(ops[..i]), ops[i]);
  }

  lemma MayWakeIfInPlace(st: State, op: Op)
    requires Inv(st) && InPlace(Next(st, op))
    ensures MayWake(st, op)
  {
    if !MayWake(st, op) {
      WakeupKeepsPlaces(st, op.co);
      hide Located, Replies;
    }
  }

  // ----- the end of a coroutine -----

  lemma DeadStep(st: State, op: Op, co: Co)
    requires Standing(st) && Holds(st.status, co, Dead)
    ensures Holds(Next(st, op).status, co, Dead)
  {
    assert st.frames != [] ==> Holds(st.status, Top(st), Active);
    assert co < st.created;
    if Moved(st, op) != Some(co) {
      StatusStep(st, op, co);
    }
  }

  /** A dead coroutine stays dead, whatever is delivered and whoever wakes it. */
  lemma {:induction false} DeadStays(ops: seq<Op>, i: nat, j: nat, co: Co)
    requires i <= j <= |ops| && Holds(After(ops[..i]).status, co, Dead)
    ensures Holds(After(ops[..j]).status, co, Dead) && !OnStack(After(ops[..j]).frames, co)
    decreases j
  {
    AlwaysStanding(ops[..j]);
    if i < j {
      DeadStays(ops, i, j - 1, co);
      AlwaysStanding(ops[..j - 1]);
      OneMore(ops, j - 1);
      hide Next, Standing;
      DeadStep(After(ops[..j - 1]), ops[j - 1], co);
    }
    hide After;
    NotOnStack(After(ops[..j]), co);
  }

  lemma NotOnStack(st: State, co: Co)
    requires Standing(st) && Holds(st.status, co, Dead)
    ensures !OnStack(st.frames, co)
  {
  }

  /** A coroutine that calls exit never runs again if the dispatcher has resumed it; if another coroutine
      or the fork loop has, it is parked, and a wakeup makes it go on behind the call. */
  lemma QuitsExactly(ops: seq<Op>, i: nat)
    requires i < |ops| && ops[i] == DoExit && After(ops[..i]).frames != []
    ensures var top, st := After(ops[..i]).frames[|After(ops[..i]).frames| - 1], After(ops[..i + 1]);
            && (top.from == ByDispatch ==> forall j | i < j <= |ops| :: !OnStack(After(ops[..j]).frames, top.co))
            && (top.from != ByDispatch ==>
                  Holds(st.status, top.co, Parked)
                  && WakeupIn(st, top.co).frames == st.frames + [Frame(top.co, ByWakeup(st.running))])
  {
    var st := After(ops[..i]);
    var top := st.frames[|st.frames| - 1];
    OneMore(ops, i);
    hide After;
    ExitLeaves(st);
    if top.from == ByDispatch {
      forall j | i < j <= |ops| ensures !OnStack(After(ops[..j]).frames, top.co) {
        DeadStays(ops, i + 1, j, top.co);
      }
    }
  }

  lemma ExitLeaves(st: State)
    requires st.frames != []
    ensures var top := st.frames[|st.frames| - 1];
            Holds(Next(st, DoExit).status, top.co, if top.from == ByDispatch then Dead else Parked)
  {
  }

  // ----- requests and answers -----

  ghost function RequestsOf(ops: seq<Op>): seq<Request> {
    if ops == [] then []
    else RequestsOf(ops[..|ops| - 1]) + NewRequests(After(ops[..|ops| - 1]), ops[|ops| - 1])
  }

  ghost function AnswersOf(ops: seq<Op>): seq<nat> {
    if ops == [] then []
    else AnswersOf(ops[..|ops| - 1]) + Answers(After(ops[..|ops| - 1]), ops[|ops| - 1])
  }

  lemma LedgerStep(st: State, op: Op)
    ensures Next(st, op).ledger.requests == st.ledger.requests + NewRequests(st, op)
    ensures Next(st, op).ledger.replied == st.ledger.replied + Answers(st, op)
  {
    hide ResumeIn, CreateIn, ReturnIn, Without;
    assert st.ledger.requests + [] == st.ledger.requests && st.ledger.replied + [] == st.ledger.replied;
  }

  /** The record is the history: the requests are those of the delivered messages and events, in
      order, and the answers those of the steps that answered. */
  lemma {:induction false} LedgerIsHistory(ops: seq<Op>)
    ensures After(ops).ledger.requests == RequestsOf(ops)
    ensures After(ops).ledger.replied == AnswersOf(ops)
  {
    hide Next, NewRequests, Answers;
    if ops != [] {
      LedgerIsHistory(ops[..|ops| - 1]);
      LedgerStep(After(ops[..|ops| - 1]), ops[|ops| - 1]);
    }
  }

  /** Every reply goes to the address and session of the request that its step answered. */
  lemma RepliesGoBack(ops: seq<Op>)
    ensures |After(ops).replies| == |AnswersOf(ops)|
    ensures forall k | 0 <= k < |AnswersOf(ops)| ::
              && AnswersOf(ops)[k] < |RequestsOf(ops)|
              && After(ops).replies[k] == RequestsOf(ops)[AnswersOf(ops)[k]] && After(ops).replies[k].session != 0
  {
    RunningIsTop(ops);
    LedgerIsHistory(ops);
    hide After, RequestsOf, AnswersOf;
  }

  lemma {:induction false} AnswersGrow(ops: seq<Op>, i: nat, j: nat)
    requires i <= j <= |ops|
    ensures AnswersOf(ops[..i]) <= AnswersOf(ops[..j])
    decreases j
  {
    hide Answers;
    if i < j {
      AnswersGrow(ops, i, j - 1);
      assert ops[..j][..j - 1] == ops[..j - 1];
    } else {
      assert ops[..i] == ops[..j];
    }
  }

  /** No two steps of a run answer the same request. */
  lemma EachAnsweredOnce(ops: seq<Op>, i: nat, j: nat, r: nat)
    requires i < j < |ops|
    requires r in Answers(After(ops[..i]), ops[i])
    ensures r !in Answers(After(ops[..j]), ops[j])
  {
    hide Next, Answers;
    AnswersGrow(ops, i + 1, j);
    assert ops[..i + 1][..i] == ops[..i] && ops[..j + 1][..j] == ops[..j];
    var before, now := AnswersOf(ops[..j]), Answers(After(ops[..j]), ops[j]);
    assert r in before by {
      assert AnswersOf(ops[..i + 1]) == AnswersOf(ops[..i]) + Answers(After(ops[..i]), ops[i]);
      InPrefix(AnswersOf(ops[..i + 1]), before, r);
    }
    RunningIsTop(ops[..j + 1]);
    LedgerIsHistory(ops[..j + 1]);
    assert NoDup(before + now) by { hide After; }
    hide AnswersOf, After;
    NotInBoth(before, now, r);
  }

  lemma NotInBoth(a: seq<nat>, b: seq<nat>, r: nat)
    requires NoDup(a + b) && r in a
    ensures r !in b
  {
    var i :| 0 <= i < |a| && a[i] == r;
    assert (a + b)[i] == r;
    assert forall j | 0 <= j < |b| :: (a + b)[|a| + j] == b[j];
  }

  lemma InPrefix(a: seq<nat>, b: seq<nat>, r: nat)
    requires a <= b && r in a
    ensures r in b
  {
    assert b == a + b[|a|..];
  }

  // ----- who answers -----

  /** The step takes the request away from coroutine co: it answers it, hands it on, or lets it go. */
  predicate TakesFrom(st: State, op: Op, co: Co) {
    Enabled(st, op) && op in {DoRet, DoMakeResponse, DoFinish} && Top(st) == co
  }

  /** Coroutine co has the same request as before. */
  ghost predicate SameContext(st: State, st': State, co: Co) {
    && co in st'.ledger.ofCo && co in st.ledger.ofCo && st'.ledger.ofCo[co] == st.ledger.ofCo[co]
    && co in st'.coSession && co in st.coSession && st'.coSession[co] == st.coSession[co] && co in st'.coAddress
  }

  /** A coroutine keeps the request it was started with until it takes one of those steps. */
  lemma ContextStep(st: State, op: Op, co: Co)
    requires Standing(st) && Owed(st) && co in st.ledger.ofCo && !TakesFrom(st, op, co)
    ensures SameContext(st, Next(st, op), co)
  {
    assert co in st.coSession && co in st.coAddress;
    if NewRequests(st, op) != [] {
      CreateStanding(st);
      hide Standing, Owed, Replies;
      OthersKeepContext(st, op, co);
    } else if Enabled(st, op) && Settles(op) {
      hide Standing, Owed, Replies;
      SettlingKeepsOthers(st, op, co);
    } else {
      hide Standing, Owed, Next;
      NothingSettled(st, op);
    }
  }

  lemma OthersKeepContext(st: State, op: Op, co: Co)
    requires NewRequests(st, op) != [] && co in st.ledger.ofCo && co in st.coSession && co in st.coAddress
             && co != NewCo(st)
    ensures SameContext(st, Next(st, op), co)
  {
    hide ResumeIn, CreateIn, NewCo;
  }

  lemma SettlingKeepsOthers(st: State, op: Op, co: Co)
    requires co in st.ledger.ofCo && co in st.coSession && co in st.coAddress
    requires Enabled(st, op) && Settles(op) && (op.DoUseResponse? || co != Top(st))
    ensures SameContext(st, Next(st, op), co)
  {
    hide ReturnIn;
  }

  /** Whoever was started with a request is the one who answers it: at its first ret, if it did not
      hand the request on or end before, and if the request wants an answer. */
  lemma {:induction false} RetAnswersItsRequest(ops: seq<Op>, b: nat, j: nat, co: Co)
    requires b < j < |ops| && NewRequests(After(ops[..b]), ops[b]) != []
    requires co == NewCo(After(ops[..b]))
    requires forall k | b < k < j :: !TakesFrom(After(ops[..k]), ops[k], co)
    ensures var st := After(ops[..j]);
            && co in st.ledger.ofCo && st.ledger.ofCo[co] == |RequestsOf(ops[..b])|
            && co in st.coSession && co in st.coAddress
            && (TakesFrom(st, ops[j], co) && ops[j] == DoRet ==>
                  Answers(st, ops[j]) == if st.coSession[co] != 0 then [|RequestsOf(ops[..b])|] else [])
    decreases j
  {
    hide After, Standing, Owed, Replies, Next, NewRequests;
    if j == b + 1 {
      OneMore(ops, b);
      LedgerIsHistory(ops[..b]);
      BegunWith(After(ops[..b]), ops[b]);
    } else {
      RetAnswersItsRequest(ops, b, j - 1, co);
      AlwaysStanding(ops[..j - 1]);
      RunningIsTop(ops[..j - 1]);
      OneMore(ops, j - 1);
      ContextStep(After(ops[..j - 1]), ops[j - 1], co);
    }
  }

  lemma BegunWith(st: State, op: Op)
    requires NewRequests(st, op) != []
    ensures var st', co := Next(st, op), NewCo(st);
            && co in st'.ledger.ofCo && st'.ledger.ofCo[co] == |st.ledger.requests|
            && co in st'.coSession && co in st'.coAddress
            && Request(st'.coAddress[co], st'.coSession[co]) == NewRequests(st, op)[0]
  {
    hide ResumeIn, CreateIn, NewCo;
  }

  /** The function that response gives out answers at its first call, if the request wants an answer. */
  lemma {:induction false} ResponseAnswersOnce(ops: seq<Op>, b: nat, j: nat)
    requires b < j < |ops| && ops[b] == DoMakeResponse && Enabled(After(ops[..b]), ops[b])
    requires Top(After(ops[..b])) in After(ops[..b]).ledger.ofCo
    requires forall k | b < k < j :: ops[k] != DoUseResponse(|After(ops[..b]).closures|)
    ensures var was, st := After(ops[..b]), After(ops[..j]);
            var c, r := |was.closures|, was.ledger.ofCo[Top(was)];
            && c < |st.closures| == |st.ledger.ofClosure| && !st.closures[c].sent && st.ledger.ofClosure[c] == r
            && (ops[j] == DoUseResponse(c) ==> Answers(st, ops[j]) == if st.closures[c].session != 0 then [r] else [])
    decreases j
  {
    hide After, Replies, Owed, Next;
    OneMore(ops, j - 1);
    RunningIsTop(ops[..j - 1]);
    if j == b + 1 {
      HandedOut(After(ops[..b]));
    } else {
      ResponseAnswersOnce(ops, b, j - 1);
      ClosureStep(After(ops[..j - 1]), ops[j - 1], |After(ops[..b]).closures|);
    }
  }

  lemma HandedOut(st: State)
    requires Owed(st) && st.frames != [] && Top(st) in st.ledger.ofCo
    ensures var st', c := Next(st, DoMakeResponse), |st.closures|;
            && c < |st'.closures| == |st'.ledger.ofClosure| && !st'.closures[c].sent
            && st'.ledger.ofClosure[c] == st.ledger.ofCo[Top(st)]
  {
  }

  lemma ClosureStep(st: State, op: Op, c: nat)
    requires Owed(st) && c < |st.closures| && !st.closures[c].sent && op != DoUseResponse(c)
    ensures var st' := Next(st, op);
            && c < |st'.closures| == |st'.ledger.ofClosure| && st'.closures[c] == st.closures[c]
            && st'.ledger.ofClosure[c] == st.ledger.ofClosure[c]
  {
    assert |st.closures| == |st.ledger.ofClosure|;
    hide Owed, Replies;
    if op != DoMakeResponse && !op.DoUseResponse? {
      if op in {DoFinish, DoRet} {
        hide ReturnIn, NewCo, Without;
      } else if NewRequests(st, op) == [] {
        hide Next;
        NothingSettled(st, op);
      } else {
        hide ResumeIn, CreateIn, NewCo;
      }
    } else {
      hide ResumeIn, CreateIn, ReturnIn, NewCo, Without;
    }
  }

  // ----- calls and their sessions -----

  /** A response or an error of that session reaches the dispatcher. */
  predicate Delivers(st: State, op: Op, session: int) {
    Enabled(st, op) && op.Deliver? && op.kind != Message && op.session == session
  }

  lemma MovedStatus(st: State, op: Op, co: Co)
    requires Moved(st, op) == Some(co) && co in Next(st, op).status && Next(st, op).status[co].Waiting?
    ensures || Next(st, op).status[co].session > st.lastSession
            || (co in st.status && Next(st, op).status[co] == st.status[co])
  {
    hide Next, NewCo;
    if Leaves(op) {
      LeaverStatus(st, op);
    } else if NewRequests(st, op) == [] {
      OtherStatus(st, op, co);
    } else {
      StartedStatus(st, op);
    }
  }

  /** A coroutine that is resumed, armed, put on a timer or into the fork queue does not wait in a call. */
  lemma OtherStatus(st: State, op: Op, co: Co)
    requires Moved(st, op) == Some(co) && !Leaves(op) && NewRequests(st, op) == []
    ensures co in Next(st, op).status ==> !Next(st, op).status[co].Waiting?
  {
    hide CreateIn, NewCo, StartIn, RetIn, MakeResponseIn, UseResponseIn, ReturnIn, WaitIn, FinishIn, ExitIn;
  }

  lemma StartedStatus(st: State, op: Op)
    requires NewRequests(st, op) != []
    ensures Holds(Next(st, op).status, NewCo(st), Active)
  {
    hide NewCo;
  }

  lemma LeaverStatus(st: State, op: Op)
    requires st.frames != [] && Leaves(op)
    ensures var left := Next(st, op).status;
            Top(st) in left && (left[Top(st)].Waiting? ==> left[Top(st)].session == st.lastSession + 1)
  {
  }

  lemma SessionsGrow(st: State, op: Op)
    ensures st.lastSession <= Next(st, op).lastSession
  {
    hide Without, Release;
  }

  lemma DeliveredStatus(st: State, op: Op, co: Co)
    requires Enabled(st, op) && op.Deliver? && op.kind != Message && op.session in st.sessionCo
             && st.sessionCo[op.session] == co
    requires co in st.status && st.status[co].Waiting?
    ensures Holds(Next(st, op).status, co, Active) && Next(st, op).frames == [Frame(co, ByDispatch)]
  {
  }

  /** Something else makes a coroutine that waits for session s go on: it is woken, a message comes in
      for an entry that an earlier wakeup has left behind, or the loop over the fork queue comes to one. */
  predicate Jolted(st: State, op: Op, co: Co, s: int) {
    Enabled(st, op) &&
    match op
    case DoWakeup(c) => c == co
    case Deliver(kind, session, _, _) =>
      kind != Message && session != s && session in st.sessionCo && st.sessionCo[session] == co
    case Drain => st.forks != [] && st.forks[0] == co
    case _ => false
  }

  lemma MovedWaiter(st: State, op: Op, co: Co, s: int)
    requires Standing(st) && Holds(st.status, co, Waiting(s))
    ensures Moved(st, op) == Some(co) <==> Delivers(st, op, s) || Jolted(st, op, co, s)
  {
    assert st.frames != [] ==> Holds(st.status, Top(st), Active);
    assert Enabled(st, op) && Moved(st, op) == Some(NewCo(st)) && CanCreate(st) ==> co != NewCo(st) by {
      if CanCreate(st) {
        CreateStanding(st);
      }
    }
    hide CreateIn, Contexts;
  }

  lemma GoesOn(st: State, op: Op, co: Co, s: int)
    requires Standing(st) && Holds(st.status, co, Waiting(s)) && (Delivers(st, op, s) || Jolted(st, op, co, s))
    ensures Holds(Next(st, op).status, co, Active)
    ensures Delivers(st, op, s) ==> Next(st, op).frames == [Frame(co, ByDispatch)]
  {
    assert s in st.sessionCo && st.sessionCo[s] == co;
    if op.Deliver? {
      hide Standing;
      DeliveredStatus(st, op, co);
    }
  }

  /** Whatever user code wakes: a waiting coroutine goes on exactly when a message of its own session
      comes in, and then at once, or when it is jolted. */
  lemma WaiterStep(st: State, op: Op, co: Co, s: int)
    requires Standing(st) && Holds(st.status, co, Waiting(s))
    ensures Holds(Next(st, op).status, co, Waiting(s)) <==> !Delivers(st, op, s) && !Jolted(st, op, co, s)
    ensures Delivers(st, op, s) ==> Next(st, op).frames == [Frame(co, ByDispatch)]
  {
    hide Standing, Next, Moved, Delivers, Jolted;
    MovedWaiter(st, op, co, s);
    if Delivers(st, op, s) || Jolted(st, op, co, s) {
      GoesOn(st, op, co, s);
    } else {
      StatusStep(st, op, co);
    }
  }

  /** If it has been woken only where it may be, nothing is left behind that could jolt it, and only a
      message of its own session or waking it now can make it go on. */
  lemma AnsweredOrWoken(st: State, op: Op, co: Co, s: int)
    requires Standing(st) && AtHome(st, co) && Holds(st.status, co, Waiting(s))
    ensures Holds(Next(st, op).status, co, Waiting(s)) <==>
              !Delivers(st, op, s) && !(Enabled(st, op) && op == DoWakeup(co))
  {
    WaiterStep(st, op, co, s);
    hide Standing, Next;
    assert st.forks != [] && st.forks[0] == co ==> co in st.forks;
  }

  /** Sessions are never used again. */
  lemma NeverAgain(st: State, op: Op, co: Co, s: int)
    requires s <= st.lastSession && !Holds(st.status, co, Waiting(s))
    ensures !Holds(Next(st, op).status, co, Waiting(s)) && s <= Next(st, op).lastSession
  {
    hide Next, Moved;
    SessionsGrow(st, op);
    if Moved(st, op) != Some(co) {
      StatusStep(st, op, co);
    } else if Holds(Next(st, op).status, co, Waiting(s)) {
      MovedStatus(st, op, co);
    }
  }

  /** Over every run, whatever user code wakes: a coroutine that calls or sleeps waits for its new
      session exactly as long as no response or error of that session is delivered and nothing jolts it;
      and such a message resumes it before anything else runs. */
  lemma {:induction false} CallGoesOn(ops: seq<Op>, i: nat, j: nat)
    requires i < j <= |ops| && ops[i] in {DoCall, DoSleep} && Enabled(After(ops[..i]), ops[i])
    ensures var co, s := Top(After(ops[..i])), After(ops[..i]).lastSession + 1;
            && (Holds(After(ops[..j]).status, co, Waiting(s)) <==>
                  forall k | i < k < j ::
                    !Delivers(After(ops[..k]), ops[k], s) && !Jolted(After(ops[..k]), ops[k], co, s))
            && s <= After(ops[..j]).lastSession
            && (Holds(After(ops[..j]).status, co, Waiting(s)) && j < |ops| && Delivers(After(ops[..j]), ops[j], s) ==>
                  After(ops[..j + 1]).frames == [Frame(co, ByDispatch)])
    decreases j
  {
    hide After, Standing, Next, Delivers, Jolted;
    var co, s := Top(After(ops[..i])), After(ops[..i]).lastSession + 1;
    OneMore(ops, j - 1);
    if j == i + 1 {
      StartsWaiting(After(ops[..i]), ops[i]);
    } else {
      CallGoesOn(ops, i, j - 1);
      WaitsOn(ops, j - 1, co, s);
    }
    if j < |ops| && Holds(After(ops[..j]).status, co, Waiting(s)) {
      OneMore(ops, j);
      AlwaysStanding(ops[..j]);
      WaiterStep(After(ops[..j]), ops[j], co, s);
    }
  }

  lemma WaitsOn(ops: seq<Op>, k: nat, co: Co, s: int)
    requires k < |ops| && s <= After(ops[..k]).lastSession
    ensures Holds(After(ops[..k + 1]).status, co, Waiting(s)) <==>
              && Holds(After(ops[..k]).status, co, Waiting(s))
              && !Delivers(After(ops[..k]), ops[k], s) && !Jolted(After(ops[..k]), ops[k], co, s)
    ensures s <= After(ops[..k + 1]).lastSession
  {
    hide After, Standing, Next, Delivers, Jolted;
    OneMore(ops, k);
    SessionsGrow(After(ops[..k]), ops[k]);
    if Holds(After(ops[..k]).status, co, Waiting(s)) {
      AlwaysStanding(ops[..k]);
      WaiterStep(After(ops[..k]), ops[k], co, s);
    } else {
      NeverAgain(After(ops[..k]), ops[k], co, s);
    }
  }

  /** So if the coroutine is itself woken only where it may be, the messages of its session alone decide. */
  lemma {:induction false} ResumedByOwnSession(ops: seq<Op>, i: nat, j: nat)
    requires i < j <= |ops| && ops[i] in {DoCall, DoSleep} && Enabled(After(ops[..i]), ops[i])
    requires DisciplinedFor(ops, Top(After(ops[..i])))
    ensures var co, s := Top(After(ops[..i])), After(ops[..i]).lastSession + 1;
            Holds(After(ops[..j]).status, co, Waiting(s)) <==>
              forall k | i < k < j :: !Delivers(After(ops[..k]), ops[k], s)
    decreases j
  {
    hide After, Standing, Next, Delivers, Jolted, AtHome, MayWake;
    var co, s := Top(After(ops[..i])), After(ops[..i]).lastSession + 1;
    CallGoesOn(ops, i, j);
    if j > i + 1 {
      ResumedByOwnSession(ops, i, j - 1);
      CallGoesOn(ops, i, j - 1);
      WaitsOn(ops, j - 1, co, s);
      if Holds(After(ops[..j - 1]).status, co, Waiting(s)) {
        StaysAtHome(ops, j - 1, co);
        AlwaysStanding(ops[..j - 1]);
        OneMore(ops, j - 1);
        AnsweredOrWoken(After(ops[..j - 1]), ops[j - 1], co, s);
        NotWokenWaiting(After(ops[..j - 1]), ops[j - 1], co, s);
      }
    }
  }

  /** And if something else makes it go on, it is or has been woken where it may not be. */
  lemma JoltedByWakeup(ops: seq<Op>, j: nat, co: Co, s: int)
    requires j < |ops| && Holds(After(ops[..j]).status, co, Waiting(s)) && Jolted(After(ops[..j]), ops[j], co, s)
    ensures exists k :: 0 <= k <= j && ops[k] == DoWakeup(co) && !MayWake(After(ops[..k]), ops[k])
  {
    hide After, Standing, Next, Delivers, AtHome, MayWake;
    if forall k | 0 <= k <= j :: ops[k] == DoWakeup(co) ==> MayWake(After(ops[..k]), ops[k]) {
      var front := ops[..j];
      assert forall k | 0 <= k < j :: front[..k] == ops[..k] && front[k] == ops[k];
      assert front[..j] == front;
      StaysAtHome(front, j, co);
      AlwaysStanding(front);
      NotWokenWaiting(After(front), ops[j], co, s);
      WaiterStep(After(front), ops[j], co, s);
      AnsweredOrWoken(After(front), ops[j], co, s);
      JoltedElsewhere(After(front), ops[j], co, s);
    }
  }

  lemma JoltedElsewhere(st: State, op: Op, co: Co, s: int)
    requires Jolted(st, op, co, s)
    ensures !Delivers(st, op, s)
  {
  }

  lemma NotWokenWaiting(st: State, op: Op, co: Co, s: int)
    requires Holds(st.status, co, Waiting(s)) && (op == DoWakeup(co) ==> MayWake(st, op))
    ensures !(Enabled(st, op) && op == DoWakeup(co))
  {
  }

  lemma StartsWaiting(st: State, op: Op)
    requires Enabled(st, op) && op in {DoCall, DoSleep}
    ensures var s := st.lastSession + 1;
            Holds(Next(st, op).status, Top(st), Waiting(s)) && Next(st, op).lastSession == s
  {
  }

  // ----- forks -----

  ghost function ForkedOf(ops: seq<Op>): seq<Co> {
    if ops == [] then []
    else ForkedOf(ops[..|ops| - 1]) + if ops[|ops| - 1] == DoFork && CanCreate(After(ops[..|ops| - 1]))
      then [NewCo(After(ops[..|ops| - 1]))] else []
  }

  /** How many of them the dispatcher has started. */
  ghost function Drained(ops: seq<Op>): nat {
    if ops == [] then 0
    else
      var st, last := After(ops[..|ops| - 1]), ops[|ops| - 1];
      Drained(ops[..|ops| - 1]) + if last == Drain && Enabled(st, last) && st.forks != [] then 1 else 0
  }

  /** The fork queue is first in, first out: what is in it is what was forked and not yet started; and a
      dispatch is over only when it is empty, with what was forked meanwhile. */
  lemma {:induction false} ForksInOrder(ops: seq<Op>)
    ensures Drained(ops) <= |ForkedOf(ops)| && After(ops).forks == ForkedOf(ops)[Drained(ops)..]
    ensures ops != [] && After(ops[..|ops| - 1]).dispatching && !After(ops).dispatching ==> After(ops).forks == []
  {
    if ops != [] {
      var st, op, n := After(ops[..|ops| - 1]), ops[|ops| - 1], Drained(ops[..|ops| - 1]);
      ForksInOrder(ops[..|ops| - 1]);
      ForkStep(st, op);
      var forked := ForkedOf(ops[..|ops| - 1]);
      assert After(ops) == Next(st, op);
      hide Next, After;
      assert op == DoFork && CanCreate(st) ==> (forked + [NewCo(st)])[n..] == forked[n..] + [NewCo(st)];
      assert forked[n..] != [] ==> forked[n..][1..] == forked[n + 1..];
    }
  }

  lemma ForkStep(st: State, op: Op)
    ensures var st' := Next(st, op);
            && (op == DoFork && CanCreate(st) ==> st'.forks == st.forks + [NewCo(st)])
            && (op == Drain && Enabled(st, op) && st.forks != [] ==> st'.forks == st.forks[1..])
            && (!(op == DoFork && CanCreate(st)) && !(op == Drain && Enabled(st, op) && st.forks != [])
                ==> st'.forks == st.forks)
            && (st.dispatching && !st'.dispatching ==> st'.forks == [])
  {
    hide ResumeIn, CreateIn, ReturnIn, Without, Release;
  }

  // ----- starnet.wakeup without discipline -----

  /** A coroutine calls; another one wakes it before the answer is there; it calls again; then the
      answer to its first call comes in. */
  const WOKEN_EARLY: seq<Op> := [
    Deliver(Message, 5, 9, true), DoCall, Drain,
    Deliver(Message, 6, 9, true), DoWakeup(0), DoCall, DoFinish, Drain,
    Deliver(Response, 1, 0, true)]

  /** What of the state matters for that run. */
  ghost predicate Looks(st: State, frames: seq<Frame>, status: map<Co, Status>, sessions: map<int, Co>, pool: seq<Co>,
                        dispatching: bool) {
    && st.frames == frames && st.status == status && st.sessionCo == sessions && st.pool == pool
    && st.dispatching == dispatching && st.forks == [] && st.created == |status| && st.lastSession == |sessions|
    && (frames != [] ==> st.running == Some(Top(st)))
  }

  lemma AfterNext(ops: seq<Op>, i: nat)
    requires i < |ops|
    ensures After(ops[..i + 1]) == Next(After(ops[..i]), ops[i])
  {
    assert ops[..i + 1][..i] == ops[..i];
  }

  lemma FirstMessage(st: State)
    requires Looks(st, [], map[], map[], [], false)
    ensures Looks(Next(st, Deliver(Message, 5, 9, true)), [Frame(0, ByDispatch)], map[0 := Active], map[], [], true)
  {
  }

  lemma FirstCall(st: State)
    requires Looks(st, [Frame(0, ByDispatch)], map[0 := Active], map[], [], true)
    ensures Looks(Next(st, DoCall), [], map[0 := Waiting(1)], map[1 := 0], [], true)
  {
  }

  lemma Undispatched(st: State, status: map<Co, Status>, sessions: map<int, Co>, pool: seq<Co>)
    requires Looks(st, [], status, sessions, pool, true)
    ensures Looks(Next(st, Drain), [], status, sessions, pool, false)
  {
  }

  lemma SecondMessage(st: State)
    requires Looks(st, [], map[0 := Waiting(1)], map[1 := 0], [], false)
    ensures Looks(Next(st, Deliver(Message, 6, 9, true)), [Frame(1, ByDispatch)],
                  map[0 := Waiting(1), 1 := Active], map[1 := 0], [], true)
  {
  }

  lemma EarlyWakeup(st: State)
    requires Looks(st, [Frame(1, ByDispatch)], map[0 := Waiting(1), 1 := Active], map[1 := 0], [], true)
    ensures Looks(Next(st, DoWakeup(0)), [Frame(1, ByDispatch), Frame(0, ByWakeup(Some(1)))],
                  map[0 := Active, 1 := Active], map[1 := 0], [], true)
  {
  }

  lemma SecondCall(st: State)
    requires Looks(st, [Frame(1, ByDispatch), Frame(0, ByWakeup(Some(1)))], map[0 := Active, 1 := Active],
                   map[1 := 0], [], true)
    ensures Looks(Next(st, DoCall), [Frame(1, ByDispatch)], map[0 := Waiting(2), 1 := Active], map[1 := 0, 2 := 0],
                  [], true)
  {
  }

  lemma WakerEnds(st: State)
    requires Looks(st, [Frame(1, ByDispatch)], map[0 := Waiting(2), 1 := Active], map[1 := 0, 2 := 0], [], true)
    ensures Looks(Next(st, DoFinish), [], map[0 := Waiting(2), 1 := Pooled], map[1 := 0, 2 := 0], [1], true)
  {
    hide Next;
    FinishLeaves(st);
    var was := map[0 := Waiting(2), 1 := Active];
    assert was[1 := Pooled] == map[0 := Waiting(2), 1 := Pooled];
    SameSize(was, 1, Pooled);
  }

  lemma FinishLeaves(st: State)
    requires st.frames != [] && !st.frames[|st.frames| - 1].from.ByWakeup?
    ensures var st', n := Next(st, DoFinish), |st.frames| - 1;
            && st'.frames == st.frames[..n] && st'.status == st.status[Top(st) := Pooled]
            && (st'.sessionCo, st'.forks, st'.dispatching) == (st.sessionCo, st.forks, st.dispatching)
            && (st'.created, st'.lastSession) == (st.created, st.lastSession) && st'.pool == st.pool + [Top(st)]
  {
    hide Without, Release;
  }

  lemma SameSize(status: map<Co, Status>, co: Co, now: Status)
    requires co in status
    ensures |status[co := now]| == |status|
  {
    assert status[co := now].Keys == status.Keys;
    assert |status[co := now]| == |status[co := now].Keys|;
  }

  lemma NothingYet()
    ensures Looks(After(WOKEN_EARLY[..0]), [], map[], map[], [], false)
  {
    assert WOKEN_EARLY[..0] == [];
  }

  lemma WokenBetweenCalls()
    ensures Looks(After(WOKEN_EARLY[..5]), [Frame(1, ByDispatch), Frame(0, ByWakeup(Some(1)))],
                  map[0 := Active, 1 := Active], map[1 := 0], [], true)
  {
    hide After, Looks, Next;
    var o := WOKEN_EARLY;
    NothingYet();
    FirstMessage(After(o[..0])); AfterNext(o, 0);
    FirstCall(After(o[..1])); AfterNext(o, 1);
    Undispatched(After(o[..2]), map[0 := Waiting(1)], map[1 := 0], []); AfterNext(o, 2);
    SecondMessage(After(o[..3])); AfterNext(o, 3);
    EarlyWakeup(After(o[..4])); AfterNext(o, 4);
  }

  lemma WaitsAgain()
    ensures Looks(After(WOKEN_EARLY[..8]), [], map[0 := Waiting(2), 1 := Pooled], map[1 := 0, 2 := 0], [1], false)
  {
    hide After, Looks, Next;
    var o := WOKEN_EARLY;
    WokenBetweenCalls();
    SecondCall(After(o[..5])); AfterNext(o, 5);
    WakerEnds(After(o[..6])); AfterNext(o, 6);
    Undispatched(After(o[..7]), map[0 := Waiting(2), 1 := Pooled], map[1 := 0, 2 := 0], [1]); AfterNext(o, 7);
  }

  /** Then the coroutine is in two places after the wakeup, and later its second call comes back with
      the answer to the first. */
  lemma WakeupMixesUpCalls()
    ensures var woken := After(WOKEN_EARLY[..5]);
            OnStack(woken.frames, 0) && 1 in woken.sessionCo && woken.sessionCo[1] == 0
    ensures var waiting, last := After(WOKEN_EARLY[..8]), Deliver(Response, 1, 0, true);
            Holds(waiting.status, 0, Waiting(2)) && WOKEN_EARLY[8] == last && !Delivers(waiting, last, 2)
    ensures Holds(After(WOKEN_EARLY).status, 0, Active) && After(WOKEN_EARLY).frames == [Frame(0, ByDispatch)]
  {
    var o := WOKEN_EARLY;
    WokenBetweenCalls();
    WaitsAgain();
    AfterNext(o, 8);
    assert o[..9] == o;
    hide After;
    assert After(o[..5]).frames[1].co == 0;
  }
}
