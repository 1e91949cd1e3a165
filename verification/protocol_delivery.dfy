/**
 What becomes of a call of Send. Its three lock regions are steps between which all other threads may
 move; over a whole run, what a service's queue receives is what was sent to it, call for call.
 */
module ProtocolDelivery {
  import opened Protocol
  import opened ProtocolInvariant

  /** The step begins a call of Send by thread t: user code calls it, or the loop of Clear does for a message
      that it drops, unless that is a socket message or has no sender. */
  predicate BeginsSend(st: State, step: Step, t: ThreadId, to: Id, msg: Message) {
    || step == BeginSend(t, to, msg)
    || (&& step == InWork(t) && t in st.threads && st.threads[t].work.Clearing?
        && st.threads[t].work.s in st.services
        && var queue := st.services[st.threads[t].work.s].queue;
           && queue != [] && queue[0].kind != Socket && queue[0].source != 0
           && to == queue[0].source && msg == Message(Error, 0, queue[0].session))
  }

  // ----- one step -----

  /** What a step makes of the call that thread t is in, as far as Send is concerned. */
  predicate Advances(st: State, step: Step, st': State, t: ThreadId)
    requires t in st.threads && t in st'.threads
  {
    var was, now := st.threads[t].call, st'.threads[t].call;
    match was
    case SendLook(to, msg) =>
      if step != InCall(t) then now == was
      else now == (if to in st.registered then SendPush(to, msg) else NoCall) && st'.services == st.services
    case SendPush(to, msg) =>
      if step != InCall(t) then now == was
      else
        && now == SendEnter(to) && to in st.services
        && var sv := st.services[to];
           st'.services == st.services[to := sv.(queue := sv.queue + [msg], pushed := sv.pushed + [msg])]
    case _ =>
      !now.SendPush? && (now.SendLook? ==> BeginsSend(st, step, t, now.to, now.msg))
  }

  lemma CallAdvances(st: State, step: Step, st': State, t: ThreadId)
    requires t in st.threads && Next(st, step) == Some(st')
    ensures t in st'.threads && Advances(st, step, st', t)
  {
    match step
    case NewService =>
    case BeginSend(u, _, _) =>
    case BeginKill(u, _) =>
    case InCall(u) => CallOnCall(st, u, st', t);
    case InWork(u) => WorkOnCall(st, u, st', t);
  }

  lemma CallOnCall(st: State, u: ThreadId, st': State, t: ThreadId)
    requires t in st.threads && u in st.threads && StepCall(st, u, st.threads[u]) == Some(st')
    ensures t in st'.threads && Advances(st, InCall(u), st', t)
  {
    if u == t {
      OwnCall(st, t, st');
    } else {
      CallKeepsOthers(st, u, st');
      hide StepCall;
    }
  }

  lemma OwnCall(st: State, t: ThreadId, st': State)
    requires t in st.threads && StepCall(st, t, st.threads[t]) == Some(st')
    ensures t in st'.threads && Advances(st, InCall(t), st', t)
  {
  }

  lemma CallKeepsOthers(st: State, u: ThreadId, st': State)
    requires u in st.threads && StepCall(st, u, st.threads[u]) == Some(st')
    ensures u in st'.threads && st'.threads == st.threads[u := st'.threads[u]]
  {
  }

  lemma WorkOnCall(st: State, u: ThreadId, st': State, t: ThreadId)
    requires t in st.threads && u in st.threads && st.threads[u].call == NoCall
    requires StepWork(st, u, st.threads[u]) == Some(st')
    ensures t in st'.threads && Advances(st, InWork(u), st', t)
  {
    if u == t && st.threads[u].work.Clearing? {
      ClearOnCall(st, t, st');
    } else {
      WorkLeaves(st, u, st');
      hide StepWork;
    }
  }

  lemma ClearOnCall(st: State, t: ThreadId, st': State)
    requires t in st.threads && st.threads[t].work.Clearing? && st.threads[t].call == NoCall
    requires StepClear(st, t, st.threads[t], st.threads[t].work.s) == Some(st')
    ensures t in st'.threads && Advances(st, InWork(t), st', t)
  {
  }

  /** What the worker loop leaves alone. */
  predicate Leaves(st: State, st': State, u: ThreadId) {
    && u in st.threads && u in st'.threads && st'.threads == st.threads[u := st'.threads[u]]
    && (!st.threads[u].work.Clearing? ==> st'.threads[u].call == st.threads[u].call)
    && forall s <- st.services :: s in st'.services && st'.services[s].pushed == st.services[s].pushed
  }

  lemma WorkLeaves(st: State, u: ThreadId, st': State)
    requires u in st.threads && StepWork(st, u, st.threads[u]) == Some(st')
    ensures Leaves(st, st', u)
  {
    hide StepBatch, StepCheck, StepClear, StepFinish;
    match st.threads[u].work
    case Batch(_, _, _, _) => BatchLeaves(st, u, st');
    case Checking(_) => CheckLeaves(st, u, st');
    case Clearing(_) => ClearLeaves(st, u, st');
    case FinishWait(_) => FinishLeaves(st, u, st');
    case _ =>
  }

  lemma BatchLeaves(st: State, u: ThreadId, st': State)
    requires u in st.threads && st.threads[u].work.Batch?
    requires StepBatch(st, u, st.threads[u], st.threads[u].work) == Some(st')
    ensures Leaves(st, st', u)
  {
  }

  lemma CheckLeaves(st: State, u: ThreadId, st': State)
    requires u in st.threads && st.threads[u].work.Checking?
    requires StepCheck(st, u, st.threads[u], st.threads[u].work.s) == Some(st')
    ensures Leaves(st, st', u)
  {
  }

  lemma ClearLeaves(st: State, u: ThreadId, st': State)
    requires u in st.threads && st.threads[u].work.Clearing?
    requires StepClear(st, u, st.threads[u], st.threads[u].work.s) == Some(st')
    ensures Leaves(st, st', u)
  {
  }

  lemma FinishLeaves(st: State, u: ThreadId, st': State)
    requires u in st.threads && st.threads[u].work.FinishWait?
    requires StepFinish(st, u, st.threads[u], st.threads[u].work.s) == Some(st')
    ensures Leaves(st, st', u)
  {
  }

  lemma BeginsAlone(st: State, step: Step, st': State, t: ThreadId, to: Id, msg: Message)
    requires Next(st, step) == Some(st') && BeginsSend(st, step, t, to, msg)
    ensures t in st.threads && st.threads[t].call == NoCall
    ensures t in st'.threads && st'.threads[t].call == SendLook(to, msg)
  {
  }

  /** Only the push of a call of Send adds to what a service has been sent. */
  lemma OnlyPushes(st: State, step: Step, st': State, s: Id)
    requires Inv(st) && Next(st, step) == Some(st') && s in st.services
    requires !(step.InCall? && step.t in st.threads && st.threads[step.t].call.SendPush?
               && st.threads[step.t].call.to == s)
    ensures s in st'.services && st'.services[s].pushed == st.services[s].pushed
  {
    match step
    case NewService => assert ServiceOk(st, s);
    case BeginSend(_, _, _) =>
    case BeginKill(_, _) =>
    case InCall(u) => CallPushes(st, u, st', s);
    case InWork(u) => WorkLeaves(st, u, st');
  }

  lemma CallPushes(st: State, u: ThreadId, st': State, s: Id)
    requires u in st.threads && StepCall(st, u, st.threads[u]) == Some(st') && s in st.services
    requires !(st.threads[u].call.SendPush? && st.threads[u].call.to == s)
    ensures s in st'.services && st'.services[s].pushed == st.services[s].pushed
  {
  }

  // ----- runs -----

  /** The state before step i of a run, or after the last one. */
  ghost function StateAt(st0: State, steps: seq<Step>, i: nat): State
    requires i <= |steps| && Run(st0, steps[..i]).Some?
  {
    Run(st0, steps[..i]).value
  }

  /** The steps, from the first to the last, can be taken. */
  ghost predicate Runs(st0: State, steps: seq<Step>) {
    && (forall i | 0 <= i <= |steps| :: Run(st0, steps[..i]).Some?)
    && (forall i | 0 <= i < |steps| ::
          Next(StateAt(st0, steps, i), steps[i]) == Some(StateAt(st0, steps, i + 1)))
  }

  lemma {:induction false} RunRuns(st0: State, steps: seq<Step>)
    requires Run(st0, steps).Some?
    ensures Runs(st0, steps)
  {
    hide Next;
    assert steps[..|steps|] == steps;
    if steps != [] {
      var n := |steps| - 1;
      var front := steps[..n];
      RunRuns(st0, front);
      assert forall i | 0 <= i <= n :: front[..i] == steps[..i];
      forall i | 0 <= i < |steps|
        ensures Next(StateAt(st0, steps, i), steps[i]) == Some(StateAt(st0, steps, i + 1))
      {
        if i < n {
          assert Next(StateAt(st0, front, i), front[i]) == Some(StateAt(st0, front, i + 1));
        }
      }
    }
  }

  /** Between the two moments thread t makes no step of a call. */
  predicate Rests(steps: seq<Step>, t: ThreadId, i: nat, j: nat) {
    forall k | i <= k < j && k < |steps| :: steps[k] != InCall(t)
  }

  /** The call that step k begins finds its target at step a ... */
  ghost predicate Finds(st0: State, steps: seq<Step>, k: nat, a: nat, t: ThreadId, to: Id, msg: Message)
    requires Runs(st0, steps)
  {
    && k < a < |steps| && BeginsSend(StateAt(st0, steps, k), steps[k], t, to, msg)
    && Rests(steps, t, k + 1, a) && steps[a] == InCall(t)
    && to in StateAt(st0, steps, a).registered
  }

  /** ... or does not, ... */
  ghost predicate Misses(st0: State, steps: seq<Step>, k: nat, a: nat, t: ThreadId, to: Id, msg: Message)
    requires Runs(st0, steps)
  {
    && k < a < |steps| && BeginsSend(StateAt(st0, steps, k), steps[k], t, to, msg)
    && Rests(steps, t, k + 1, a) && steps[a] == InCall(t)
    && to !in StateAt(st0, steps, a).registered
  }

  /** ... and, if it does, pushes at step b. */
  ghost predicate Delivers(st0: State, steps: seq<Step>, k: nat, a: nat, b: nat, t: ThreadId, to: Id, msg: Message)
    requires Runs(st0, steps)
  {
    && Finds(st0, steps, k, a, t, to, msg)
    && a < b < |steps| && Rests(steps, t, a + 1, b) && steps[b] == InCall(t)
  }

  lemma {:induction false} StaysLooking(st0: State, steps: seq<Step>, k: nat, i: nat, t: ThreadId, to: Id,
                                        msg: Message)
    requires Runs(st0, steps) && k < i <= |steps|
    requires BeginsSend(StateAt(st0, steps, k), steps[k], t, to, msg) && Rests(steps, t, k + 1, i)
    ensures var st := StateAt(st0, steps, i); t in st.threads && st.threads[t].call == SendLook(to, msg)
    decreases i
  {
    hide Next, BeginsSend, StateAt;
    var st := StateAt(st0, steps, i - 1);
    if i == k + 1 {
      BeginsAlone(st, steps[k], StateAt(st0, steps, i), t, to, msg);
    } else {
      StaysLooking(st0, steps, k, i - 1, t, to, msg);
      CallAdvances(st, steps[i - 1], StateAt(st0, steps, i), t);
    }
  }

  lemma {:induction false} StaysFound(st0: State, steps: seq<Step>, k: nat, a: nat, i: nat, t: ThreadId, to: Id,
                                      msg: Message)
    requires Runs(st0, steps) && Finds(st0, steps, k, a, t, to, msg) && a < i <= |steps| && Rests(steps, t, a + 1, i)
    ensures var st := StateAt(st0, steps, i); t in st.threads && st.threads[t].call == SendPush(to, msg)
    decreases i
  {
    hide Next, BeginsSend, StateAt;
    var st := StateAt(st0, steps, i - 1);
    if i == a + 1 {
      StaysLooking(st0, steps, k, a, t, to, msg);
    } else {
      StaysFound(st0, steps, k, a, i - 1, t, to, msg);
    }
    CallAdvances(st, steps[i - 1], StateAt(st0, steps, i), t);
  }

  /** A call whose target is found pushes that very message, to that service and to no other; the lookup
      changes none. */
  lemma SendReachesOne(st0: State, steps: seq<Step>, k: nat, a: nat, b: nat, t: ThreadId, to: Id, msg: Message)
    requires Runs(st0, steps) && Delivers(st0, steps, k, a, b, t, to, msg)
    ensures StateAt(st0, steps, a + 1).services == StateAt(st0, steps, a).services
    ensures to in StateAt(st0, steps, b).services
    ensures var was, now := StateAt(st0, steps, b).services, StateAt(st0, steps, b + 1).services;
            now == was[to := was[to].(queue := was[to].queue + [msg], pushed := was[to].pushed + [msg])]
  {
    hide Next, BeginsSend, StateAt;
    StaysLooking(st0, steps, k, a, t, to, msg);
    CallAdvances(StateAt(st0, steps, a), steps[a], StateAt(st0, steps, a + 1), t);
    StaysFound(st0, steps, k, a, b, t, to, msg);
    CallAdvances(StateAt(st0, steps, b), steps[b], StateAt(st0, steps, b + 1), t);
  }

  /** A call whose target is not found ends there and changes no service. */
  lemma SendMisses(st0: State, steps: seq<Step>, k: nat, a: nat, t: ThreadId, to: Id, msg: Message)
    requires Runs(st0, steps) && Misses(st0, steps, k, a, t, to, msg)
    ensures var was, now := StateAt(st0, steps, a), StateAt(st0, steps, a + 1);
            now.services == was.services && t in now.threads && now.threads[t].call == NoCall
  {
    hide Next, BeginsSend, StateAt;
    StaysLooking(st0, steps, k, a, t, to, msg);
    CallAdvances(StateAt(st0, steps, a), steps[a], StateAt(st0, steps, a + 1), t);
  }

  /** A thread that is looking up the target of a call has begun that call. */
  lemma {:induction false} LookingSince(st0: State, steps: seq<Step>, i: nat, t: ThreadId) returns (k: nat)
    requires Initial(st0) && Runs(st0, steps) && i <= |steps|
    requires var st := StateAt(st0, steps, i); t in st.threads && st.threads[t].call.SendLook?
    ensures var call := StateAt(st0, steps, i).threads[t].call;
            k < i && BeginsSend(StateAt(st0, steps, k), steps[k], t, call.to, call.msg) && Rests(steps, t, k + 1, i)
    decreases i
  {
    hide Next, BeginsSend;
    assert i > 0 by { assert steps[..0] == []; }
    var st, st' := StateAt(st0, steps, i - 1), StateAt(st0, steps, i);
    hide StateAt;
    SameThreads(st, steps[i - 1], st', t);
    CallAdvances(st, steps[i - 1], st', t);
    if st.threads[t].call.SendLook? {
      k := LookingSince(st0, steps, i - 1, t);
    } else {
      k := i - 1;
    }
  }

  lemma SameThreads(st: State, step: Step, st': State, t: ThreadId)
    requires Next(st, step) == Some(st')
    ensures t in st'.threads ==> t in st.threads
  {
    match step
    case NewService =>
    case BeginSend(_, _, _) =>
    case BeginKill(_, _) =>
    case InCall(u) => CallKeepsOthers(st, u, st');
    case InWork(u) => WorkLeaves(st, u, st');
  }

  lemma RestsOn(steps: seq<Step>, t: ThreadId, i: nat, j: nat)
    requires i < j <= |steps| && Rests(steps, t, i, j - 1) && steps[j - 1] != InCall(t)
    ensures Rests(steps, t, i, j)
  {
  }

  /** A thread that has found the target has begun the call and looked. */
  lemma {:induction false} FoundSince(st0: State, steps: seq<Step>, i: nat, t: ThreadId) returns (k: nat, a: nat)
    requires Initial(st0) && Runs(st0, steps) && i <= |steps|
    requires var st := StateAt(st0, steps, i); t in st.threads && st.threads[t].call.SendPush?
    ensures var call := StateAt(st0, steps, i).threads[t].call;
            a < i && Finds(st0, steps, k, a, t, call.to, call.msg) && Rests(steps, t, a + 1, i)
    decreases i
  {
    hide Next, BeginsSend;
    assert i > 0 by { assert steps[..0] == []; }
    var st, st' := StateAt(st0, steps, i - 1), StateAt(st0, steps, i);
    hide StateAt;
    SameThreads(st, steps[i - 1], st', t);
    CallAdvances(st, steps[i - 1], st', t);
    if st.threads[t].call.SendPush? {
      hide Finds, Rests;
      k, a := FoundSince(st0, steps, i - 1, t);
      RestsOn(steps, t, a + 1, i);
    } else {
      k := LookingSince(st0, steps, i - 1, t);
      a := i - 1;
    }
  }

  /** What arrives at a service is what is sent to it, in every run: a step that some call of Send delivers
      adds its message, and no other step adds any. */
  lemma ArrivesExactly(st0: State, steps: seq<Step>, b: nat, s: Id)
    requires Initial(st0) && Runs(st0, steps) && b < |steps| && s in StateAt(st0, steps, b).services
    ensures s in StateAt(st0, steps, b + 1).services
    ensures var was, now := StateAt(st0, steps, b).services[s].pushed, StateAt(st0, steps, b + 1).services[s].pushed;
            && (forall k, a, t, msg :: Delivers(st0, steps, k, a, b, t, s, msg) ==> now == was + [msg])
            && ((forall k, a, t, msg :: !Delivers(st0, steps, k, a, b, t, s, msg)) ==> now == was)
  {
    hide Next, BeginsSend, StateAt, Inv, Initial, Finds, Rests;
    RunInv(st0, steps, b);
    var st, st' := StateAt(st0, steps, b), StateAt(st0, steps, b + 1);
    var t := if steps[b].InCall? then steps[b].t else 0;
    if steps[b] == InCall(t) && t in st.threads && st.threads[t].call.SendPush? && st.threads[t].call.to == s {
      var k, a := FoundSince(st0, steps, b, t);
      SendReachesOne(st0, steps, k, a, b, t, s, st.threads[t].call.msg);
    } else {
      OnlyPushes(st, steps[b], st', s);
    }
    forall k, a, u, msg | Delivers(st0, steps, k, a, b, u, s, msg)
      ensures st'.services[s].pushed == st.services[s].pushed + [msg]
    {
      SendReachesOne(st0, steps, k, a, b, u, s, msg);
    }
  }

  lemma RunInv(st0: State, steps: seq<Step>, i: nat)
    requires Initial(st0) && Runs(st0, steps) && i <= |steps|
    ensures Inv(StateAt(st0, steps, i))
  {
    hide Inv;
    RunKeeps(st0, steps[..i]);
  }

  /** One call, one arrival; and those of one thread in the order of its calls. */
  lemma OneToOne(st0: State, steps: seq<Step>, k: nat, a: nat, b: nat, t: ThreadId, to: Id, msg: Message,
                 k': nat, a': nat, b': nat, t': ThreadId, to': Id, msg': Message)
    requires Runs(st0, steps)
    requires Delivers(st0, steps, k, a, b, t, to, msg) && Delivers(st0, steps, k', a', b', t', to', msg')
    ensures k == k' <==> b == b'
    ensures t == t' && k < k' ==> b < k'
  {
    hide Next, StateAt;
    BeginsAlone(StateAt(st0, steps, k), steps[k], StateAt(st0, steps, k + 1), t, to, msg);
    BeginsAlone(StateAt(st0, steps, k'), steps[k'], StateAt(st0, steps, k' + 1), t', to', msg');
    if t == t' {
      if k < k' {
        NotMeanwhile(st0, steps, k, a, b, t, to, msg, k', to', msg');
      } else if k' < k {
        NotMeanwhile(st0, steps, k', a', b', t, to', msg', k, to, msg);
      }
    }
  }

  /** A thread begins no call before the one it is in has delivered. */
  lemma NotMeanwhile(st0: State, steps: seq<Step>, k: nat, a: nat, b: nat, t: ThreadId, to: Id, msg: Message,
                     k': nat, to': Id, msg': Message)
    requires Runs(st0, steps) && Delivers(st0, steps, k, a, b, t, to, msg)
    requires k < k' < |steps| && BeginsSend(StateAt(st0, steps, k'), steps[k'], t, to', msg')
    ensures b < k'
  {
    hide Next, StateAt;
    BeginsAlone(StateAt(st0, steps, k'), steps[k'], StateAt(st0, steps, k' + 1), t, to', msg');
    if k' <= a {
      hide BeginsSend;
      StaysLooking(st0, steps, k, k', t, to, msg);
    } else if k' <= b {
      hide BeginsSend;
      StaysFound(st0, steps, k, a, k', t, to, msg);
    }
  }

  // ----- KillService -----

  /** What a step makes of the call of KillService that thread t is in, up to the mark. */
  predicate KillAdvances(st: State, step: Step, st': State, t: ThreadId)
    requires t in st.threads && t in st'.threads
  {
    var was, now := st.threads[t].call, st'.threads[t].call;
    match was
    case KillLook(id) =>
      if step != InCall(t) then now == was
      else now == (if id in st.registered then KillErase(id) else NoCall) && st'.services == st.services
    case KillErase(id) =>
      if step != InCall(t) then now == was
      else now == KillMark(id) && st'.registered == st.registered - {id} && st'.services == st.services
    case KillMark(id) =>
      if step != InCall(t) then now == was
      else
        && now == KillTest(id) && id in st.services
        && st'.services == st.services[id := st.services[id].(exiting := true)]
    case _ =>
      !now.KillErase? && !now.KillMark? && (now.KillLook? ==> step == BeginKill(t, now.to))
  }

  lemma KillCallAdvances(st: State, step: Step, st': State, t: ThreadId)
    requires t in st.threads && Next(st, step) == Some(st')
    ensures t in st'.threads && KillAdvances(st, step, st', t)
  {
    match step
    case NewService =>
    case BeginSend(_, _, _) =>
    case BeginKill(_, _) =>
    case InCall(u) =>
      if u == t { OwnKill(st, t, st'); } else { CallKeepsOthers(st, u, st'); }
    case InWork(u) =>
      if u == t && st.threads[t].work.Clearing? { ClearIsNoKill(st, t, st'); } else { WorkLeaves(st, u, st'); }
  }

  lemma OwnKill(st: State, t: ThreadId, st': State)
    requires t in st.threads && StepCall(st, t, st.threads[t]) == Some(st')
    ensures t in st'.threads && KillAdvances(st, InCall(t), st', t)
  {
  }

  lemma ClearIsNoKill(st: State, t: ThreadId, st': State)
    requires t in st.threads && st.threads[t].work.Clearing? && st.threads[t].call == NoCall
    requires StepClear(st, t, st.threads[t], st.threads[t].work.s) == Some(st')
    ensures t in st'.threads && KillAdvances(st, InWork(t), st', t)
  {
  }

  predicate BeforeMark(call: Call) {
    call.KillLook? || call.KillErase? || call.KillMark?
  }

  lemma {:induction false} KillSince(st0: State, steps: seq<Step>, i: nat, t: ThreadId) returns (k: nat)
    requires Initial(st0) && Runs(st0, steps) && i <= |steps|
    requires var st := StateAt(st0, steps, i);
             t in st.threads && BeforeMark(st.threads[t].call)
    ensures k < i && steps[k] == BeginKill(t, StateAt(st0, steps, i).threads[t].call.to)
    decreases i
  {
    hide Next;
    assert i > 0 by { assert steps[..0] == []; }
    var st, st' := StateAt(st0, steps, i - 1), StateAt(st0, steps, i);
    hide StateAt;
    SameThreads(st, steps[i - 1], st', t);
    KillCallAdvances(st, steps[i - 1], st', t);
    if st'.threads[t].call.KillLook? && !st.threads[t].call.KillLook? {
      k := i - 1;
    } else {
      k := KillSince(st0, steps, i - 1, t);
    }
  }

  /** The call of thread t at moment i. */
  ghost predicate InCallAt(st0: State, steps: seq<Step>, i: nat, t: ThreadId, call: Call)
    requires Runs(st0, steps) && i <= |steps|
  {
    t in StateAt(st0, steps, i).threads && StateAt(st0, steps, i).threads[t].call == call
  }

  lemma {:induction false} KillRests(st0: State, steps: seq<Step>, i: nat, j: nat, t: ThreadId, call: Call)
    requires Runs(st0, steps) && i <= j <= |steps| && Rests(steps, t, i, j)
    requires BeforeMark(call) && InCallAt(st0, steps, i, t, call)
    ensures InCallAt(st0, steps, j, t, call)
    decreases j
  {
    hide Next, StateAt;
    if i < j {
      KillRests(st0, steps, i, j - 1, t, call);
      KillCallAdvances(StateAt(st0, steps, j - 1), steps[j - 1], StateAt(st0, steps, j), t);
    }
  }

  /** A call of KillService of a registered service takes it out of the map with its second lock region and
      marks it with its third, whatever happens in between; if there is no such service it changes none. */
  lemma KillMarks(st0: State, steps: seq<Step>, k: nat, a: nat, e: nat, m: nat, t: ThreadId, id: Id)
    requires Runs(st0, steps) && k < a < e < m < |steps| && steps[k] == BeginKill(t, id)
    requires steps[a] == InCall(t) && Rests(steps, t, k + 1, a)
    requires id in StateAt(st0, steps, a).registered
    requires steps[e] == InCall(t) && Rests(steps, t, a + 1, e)
    requires steps[m] == InCall(t) && Rests(steps, t, e + 1, m)
    ensures StateAt(st0, steps, e + 1).registered == StateAt(st0, steps, e).registered - {id}
    ensures id in StateAt(st0, steps, m).services
    ensures var was, now := StateAt(st0, steps, m).services, StateAt(st0, steps, m + 1).services;
            now == was[id := was[id].(exiting := true)]
  {
    KillLooks(st0, steps, k, a, t, id);
    hide Next, StateAt;
    KillRests(st0, steps, a + 1, e, t, KillErase(id));
    KillCallAdvances(StateAt(st0, steps, e), steps[e], StateAt(st0, steps, e + 1), t);
    KillRests(st0, steps, e + 1, m, t, KillMark(id));
    KillCallAdvances(StateAt(st0, steps, m), steps[m], StateAt(st0, steps, m + 1), t);
  }

  lemma KillLooks(st0: State, steps: seq<Step>, k: nat, a: nat, t: ThreadId, id: Id)
    requires Runs(st0, steps) && k < a < |steps| && steps[k] == BeginKill(t, id)
    requires steps[a] == InCall(t) && Rests(steps, t, k + 1, a)
    ensures StateAt(st0, steps, a + 1).services == StateAt(st0, steps, a).services
    ensures InCallAt(st0, steps, a + 1, t, if id in StateAt(st0, steps, a).registered then KillErase(id) else NoCall)
  {
    var st := StateAt(st0, steps, k);
    assert Next(st, steps[k]) == Some(StateAt(st0, steps, k + 1));
    assert InCallAt(st0, steps, k + 1, t, KillLook(id));
    hide Next, StateAt;
    KillRests(st0, steps, k + 1, a, t, KillLook(id));
    KillCallAdvances(StateAt(st0, steps, a), steps[a], StateAt(st0, steps, a + 1), t);
  }

  /** A service that is to exit has been killed: its mark was set by a call of KillService for it. */
  lemma {:induction false} MarkedByKill(st0: State, steps: seq<Step>, i: nat, s: Id) returns (t: ThreadId, k: nat)
    requires Initial(st0) && Runs(st0, steps) && i <= |steps|
    requires s in StateAt(st0, steps, i).services && StateAt(st0, steps, i).services[s].exiting
    ensures k < i && steps[k] == BeginKill(t, s)
    decreases i
  {
    hide Next;
    assert i > 0 by { assert steps[..0] == []; }
    var st, st' := StateAt(st0, steps, i - 1), StateAt(st0, steps, i);
    hide StateAt;
    if s in st.services && st.services[s].exiting {
      t, k := MarkedByKill(st0, steps, i - 1, s);
    } else {
      t := OnlyMarks(st, steps[i - 1], st', s);
      k := KillSince(st0, steps, i - 1, t);
    }
  }

  lemma OnlyMarks(st: State, step: Step, st': State, s: Id) returns (t: ThreadId)
    requires Next(st, step) == Some(st') && s in st'.services && st'.services[s].exiting
    requires s in st.services ==> !st.services[s].exiting
    ensures t in st.threads && st.threads[t].call == KillMark(s)
  {
    match step
    case NewService => assert false;
    case BeginSend(_, _, _) => assert false;
    case BeginKill(_, _) => assert false;
    case InCall(u) =>
      CallMarks(st, u, st', s);
      t := u;
    case InWork(u) =>
      WorkMarks(st, u, st', s);
      assert false;
  }

  lemma CallMarks(st: State, u: ThreadId, st': State, s: Id)
    requires u in st.threads && StepCall(st, u, st.threads[u]) == Some(st') && s in st'.services
    ensures st.threads[u].call == KillMark(s)
            || (s in st.services && st'.services[s].exiting == st.services[s].exiting)
  {
  }

  lemma WorkMarks(st: State, u: ThreadId, st': State, s: Id)
    requires u in st.threads && StepWork(st, u, st.threads[u]) == Some(st') && s in st'.services
    ensures s in st.services && st'.services[s].exiting == st.services[s].exiting
  {
  }
}
