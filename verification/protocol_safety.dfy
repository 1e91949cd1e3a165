/**
 What the queue protocol guarantees in every reachable state and over every run: one token per
 service, first in first out, no stranded message, one OnExit, exact batches, no deadlock.
 */
module ProtocolSafety {
  import opened Protocol
  import opened ProtocolInvariant
  import opened ProtocolFrames

  ghost predicate Reachable(st: State) {
    exists st0, steps :: Initial(st0) && Run(st0, steps) == Some(st)
  }

  lemma ReachableInv(st: State)
    requires Reachable(st)
    ensures Inv(st)
  {
    var st0, steps :| Initial(st0) && Run(st0, steps) == Some(st);
    RunKeeps(st0, steps);
  }

  // ----- one token -----

  ghost function Holders(st: State, s: Id): set<ThreadId> {
    set t | t in st.threads && HeldBy(st.threads[t].work) == Some(s)
  }

  /** The occurrences of s in the global queue plus the workers that have popped it. */
  ghost function Tokens(st: State, s: Id): nat {
    multiset(st.global)[s] + |Holders(st, s)|
  }

  lemma {:induction false} OccursOnce(ids: seq<Id>, s: Id)
    requires NoDuplicates(ids)
    ensures multiset(ids)[s] == if s in ids then 1 else 0
  {
    if ids != [] {
      var n := |ids| - 1;
      assert ids == ids[..n] + [ids[n]];
      OccursOnce(ids[..n], s);
    }
  }

  /** Exclusive processing: a service never has two tokens, and it has one exactly when its
      inGlobal flag is up (or being raised) and it has not been given up by its exit. */
  lemma AtMostOneToken(st: State, s: Id)
    requires Reachable(st) && s in st.services
    ensures Tokens(st, s) <= 1
    ensures Tokens(st, s) == 1 ==> Flagged(st.services[s])
    ensures Flagged(st.services[s]) && !st.services[s].exited ==> Tokens(st, s) == 1
    ensures forall t, u | t in Holders(st, s) && u in Holders(st, s) :: t == u
  {
    ReachableInv(st);
    assert ServiceOk(st, s);
    OccursOnce(st.global, s);
    forall t | t in Holders(st, s)
      ensures st.services[s].place == With(t)
    {
      assert ThreadOk(st, t);
    }
    match st.services[s].place
    case With(t) => assert Holders(st, s) == {t};
    case Queued => assert Holders(st, s) == {};
    case Nowhere => assert Holders(st, s) == {};
  }

  // ----- messages -----

  /** First in, first out: what was pushed is what was handled, then what the exit dropped, then
      what is still queued; nothing is dropped before the exit, and OnExit runs at most once. */
  lemma FirstInFirstOut(st: State, s: Id)
    requires Reachable(st) && s in st.services
    ensures var sv := st.services[s];
            && sv.pushed == sv.handled + sv.dropped + sv.queue
            && (sv.dropped != [] ==> sv.exited)
            && sv.onExits <= 1 && (sv.onExits == 1 <==> sv.exited)
  {
    ReachableInv(st);
    assert ServiceOk(st, s);
  }

  /** A queued message of a live service is never stranded: the service is in the global queue, a
      worker has it, or the sender has yet to run TryEnterGlobal. */
  lemma NoStrandedMessage(st: State, s: Id)
    requires Reachable(st) && s in st.services
    requires st.services[s].queue != [] && !st.services[s].exited
    ensures || s in st.global
            || (exists t :: t in st.threads && HeldBy(st.threads[t].work) == Some(s))
            || Announced(st, s)
  {
    ReachableInv(st);
    assert ServiceOk(st, s);
    match st.services[s].place
    case With(t) => assert HeldBy(st.threads[t].work) == Some(s);
    case _ =>
  }

  /** The global queue is first in, first out: a step leaves it alone, puts one service at its end, or is that
      of a worker that takes the front one. */
  lemma GlobalInOrder(st: State, step: Step, st': State)
    requires Next(st, step) == Some(st')
    ensures || st'.global == st.global
            || (exists s :: st'.global == st.global + [s])
            || (&& st.global != [] && st'.global == st.global[1..] && step.InWork? && step.t in st'.threads
                && st'.threads[step.t].work == Counting(st.global[0]))
  {
    match step
    case InCall(t) => CallEnters(st, t, st');
    case InWork(t) => WorkEnters(st, t, st');
    case _ =>
  }

  lemma CallEnters(st: State, t: ThreadId, st': State)
    requires t in st.threads && StepCall(st, t, st.threads[t]) == Some(st')
    ensures st'.global == st.global || exists s :: st'.global == st.global + [s]
  {
  }

  lemma WorkEnters(st: State, t: ThreadId, st': State)
    requires t in st.threads && StepWork(st, t, st.threads[t]) == Some(st')
    ensures || st'.global == st.global
            || (exists s :: st'.global == st.global + [s])
            || (&& st.global != [] && st'.global == st.global[1..] && t in st'.threads
                && st'.threads[t].work == Counting(st.global[0]))
  {
  }

  lemma WorkAfterExit(st: State, t: ThreadId, st': State, s: Id)
    requires Inv(st) && t in st.threads && StepWork(st, t, st.threads[t]) == Some(st')
    requires s in st.services && st.services[s].exited
    ensures s in st'.services
    ensures var sv, sv' := st.services[s], st'.services[s];
            sv'.handled == sv.handled && sv'.exited && sv'.onExits == sv.onExits
  {
    hide StepWork;
    WorkTouches(st, t, st');
    assert WorkOk(st, t, st.threads[t]) by {
      assert ThreadOk(st, t);
    }
  }

  /** After the exit has begun no step handles another message of the service, and no step runs
      OnExit again. */
  lemma NothingAfterExit(st: State, step: Step, st': State, s: Id)
    requires Reachable(st) && Next(st, step) == Some(st')
    requires s in st.services && st.services[s].exited
    ensures s in st'.services && st'.services[s].exited
    ensures st'.services[s].handled == st.services[s].handled
    ensures st'.services[s].onExits == st.services[s].onExits
  {
    hide Inv, Reachable, StepWork, StepCall;
    ReachableInv(st);
    match step
    case NewService => KnownIdsBelow(st, s);
    case InWork(t) => WorkAfterExit(st, t, st', s);
    case InCall(t) => CallTouches(st, t, st');
    case _ =>
  }

  lemma KnownIdsBelow(st: State, s: Id)
    requires Inv(st) && s in st.services
    ensures s <= st.maxId
  {
    assert ServiceOk(st, s);
  }

  /** A worker lets go of a service that has exited only when its queue is empty: all that was pushed until
      then has been handled or dropped. */
  lemma ExitLeavesNothing(st: State, step: Step, st': State, s: Id)
    requires Reachable(st) && Next(st, step) == Some(st') && s in st.services && st.services[s].exited
    requires st.services[s].place != Nowhere && s in st'.services && st'.services[s].place == Nowhere
    ensures var sv := st'.services[s]; sv.queue == [] && sv.pushed == sv.handled + sv.dropped
  {
    hide Inv, Reachable, StepWork, StepCall;
    ReachableInv(st);
    NextKeeps(st, step, st');
    PushedIs(st', s);
    match step
    case NewService => KnownIdsBelow(st, s);
    case InWork(t) => LastOfExit(st, t, st', s);
    case InCall(t) => CallKeepsPlace(st, t, st', s);
    case _ =>
  }

  lemma PushedIs(st: State, s: Id)
    requires Inv(st) && s in st.services
    ensures var sv := st.services[s]; sv.pushed == sv.handled + sv.dropped + sv.queue
  {
    assert ServiceOk(st, s);
  }

  lemma LastOfExit(st: State, t: ThreadId, st': State, s: Id)
    requires Inv(st) && t in st.threads && StepWork(st, t, st.threads[t]) == Some(st')
    requires s in st.services && st.services[s].exited && st.services[s].place != Nowhere
    requires s in st'.services && st'.services[s].place == Nowhere
    ensures st'.services[s].queue == []
  {
    hide StepSeek, StepBatch, StepCount, StepFinish;
    assert WorkOk(st, t, st.threads[t]) by {
      assert ThreadOk(st, t);
    }
    WorkTouches(st, t, st');
    match st.threads[t].work
    case Seeking => SeekTakes(st, t, st');
    case Batch(_, _, _, _) => BatchKeepsPlace(st, t, st');
    case _ =>
  }

  lemma SeekTakes(st: State, t: ThreadId, st': State)
    requires t in st.threads && StepSeek(st, t, st.threads[t]) == Some(st')
    ensures st.global != [] && st.global[0] in st'.services && st'.services[st.global[0]].place == With(t)
  {
  }

  lemma BatchKeepsPlace(st: State, t: ThreadId, st': State)
    requires t in st.threads && st.threads[t].work.Batch?
    requires StepBatch(st, t, st.threads[t], st.threads[t].work) == Some(st')
    ensures forall s <- st.services :: s in st'.services && st'.services[s].place == st.services[s].place
  {
  }

  lemma CallKeepsPlace(st: State, t: ThreadId, st': State, s: Id)
    requires t in st.threads && StepCall(st, t, st.threads[t]) == Some(st') && s in st.services && s in st'.services
    ensures st'.services[s].place == st.services[s].place || st'.services[s].place == Queued
  {
  }

  // ----- batches -----

  function Pow2(n: nat): (p: nat) {
    if n == 0 then 1 else 2 * Pow2(n - 1)
  }

  lemma {:induction false} ShiftRightIsFloor(n: nat, w: nat)
    ensures ShiftRight(n, w) * Pow2(w) <= n < (ShiftRight(n, w) + 1) * Pow2(w)
    decreases w
  {
    if w > 0 {
      ShiftRightIsFloor(n / 2, w - 1);
      DoubleUnit(ShiftRight(n / 2, w - 1), Pow2(w - 1), n);
    }
  }

  lemma DoubleUnit(q: nat, p: nat, n: nat)
    requires q * p <= n / 2 < (q + 1) * p
    ensures q * (2 * p) <= n < (q + 1) * (2 * p)
  {
    assert q * (2 * p) == 2 * (q * p);
    assert (q + 1) * (2 * p) == 2 * ((q + 1) * p);
  }

  /** A worker that has found messages, or whose weight is not negative, never meets an empty queue while
      its batch lasts. */
  lemma ExactBatch(st: State, t: ThreadId)
    requires Reachable(st) && t in st.threads
    requires var th := st.threads[t];
             th.work.Batch? && th.work.todo > 0 && (th.weight >= 0 || th.work.length > 0)
    ensures st.threads[t].work.s in st.services && st.services[st.threads[t].work.s].queue != []
  {
    ReachableInv(st);
    assert ThreadOk(st, t);
  }

  /** A pass of weight w >= 0 that has found n messages has handled exactly floor(n / 2^w) of them: all for
      weight 0, half of them for 1, a quarter for 2, an eighth for 3. One of a negative weight has handled
      exactly one if it has found any, and at most one that has come in since if it has not. */
  lemma ExactPasses(st: State, p: Pass)
    requires Reachable(st) && p in st.passes
    ensures p.weight >= 0 ==> p.handled * Pow2(p.weight) <= p.length < (p.handled + 1) * Pow2(p.weight)
    ensures p.weight == 0 ==> p.handled == p.length
    ensures p.weight == 1 ==> p.handled == p.length / 2
    ensures p.weight == 2 ==> p.handled == p.length / 4
    ensures p.weight == 3 ==> p.handled == p.length / 8
    ensures p.weight < 0 ==> p.handled <= 1 && (p.length > 0 ==> p.handled == 1)
  {
    hide Pow2, ShiftRight;
    RecordedPass(st, p);
    if p.weight >= 0 {
      ShiftRightIsFloor(p.length, p.weight);
      FirstPowers();
    }
  }

  lemma RecordedPass(st: State, p: Pass)
    requires Reachable(st) && p in st.passes
    ensures PassOk(p)
  {
    hide ServiceOk, ThreadOk;
    ReachableInv(st);
  }

  lemma FirstPowers()
    ensures Pow2(0) == 1 && Pow2(1) == 2 && Pow2(2) == 4 && Pow2(3) == 8
  {
    assert Pow2(2) == 2 * Pow2(1);
  }

  /** A pass makes progress exactly if the queue holds at least 2^w messages, and for a negative weight
      whenever it holds any. */
  lemma PassProgress(st: State, p: Pass)
    requires Reachable(st) && p in st.passes
    ensures p.weight >= 0 ==> (p.handled > 0 <==> p.length >= Pow2(p.weight))
    ensures p.weight < 0 && p.length > 0 ==> p.handled > 0
  {
    ExactPasses(st, p);
    if p.weight < 0 {
    } else if p.handled == 0 {
      assert (p.handled + 1) * Pow2(p.weight) == Pow2(p.weight);
    } else {
      assert p.handled * Pow2(p.weight) >= Pow2(p.weight) by {
        MultiplePositive(p.handled, Pow2(p.weight));
      }
    }
  }

  lemma MultiplePositive(a: nat, b: nat)
    requires a > 0
    ensures a * b >= b
  {
    assert a * b == (a - 1) * b + b;
  }

  // ----- deadlock freedom -----

  datatype Lock = QueueLock(s: Id) | FlagLock(s: Id)

  /** The lock the next step of a thread has to take, among those held across other steps. */
  function Wanted(th: Thread): Option<Lock> {
    match th.call
    case SendPush(to, _) => Some(QueueLock(to))
    case SendEnter(to) => Some(FlagLock(to))
    case KillTest(to) => Some(FlagLock(to))
    case KillEnter(to) => Some(FlagLock(to))
    case NoCall =>
      (match th.work
       case Counting(s) => Some(QueueLock(s))
       case Batch(s, todo, _, _) => if todo == 0 then None else Some(QueueLock(s))
       case ClearWait(s) => Some(QueueLock(s))
       case FinishWait(s) => Some(QueueLock(s))
       case Resetting(s) => Some(FlagLock(s))
       case _ => None)
    case _ => None
  }

  function Owner(st: State, l: Lock): Option<ThreadId> {
    if l.s !in st.services then None
    else if l.QueueLock? then st.services[l.s].queueLock
    else st.services[l.s].flagLock
  }

  /** t spins on a lock that u (perhaps t itself) holds. */
  predicate Waits(st: State, t: ThreadId, u: ThreadId) {
    && t in st.threads && Wanted(st.threads[t]).Some?
    && Owner(st, Wanted(st.threads[t]).value) == Some(u)
  }

  /** Queue locks come first, the earlier erased the higher; then the flag locks. */
  function Height(st: State, t: ThreadId): int {
    if t !in st.threads then 0 else
      match Wanted(st.threads[t])
      case None => 0
      case Some(FlagLock(_)) => 1
      case Some(QueueLock(s)) => if s in st.erasedAt then 2 + st.epoch - st.erasedAt[s] else 2
  }

  /** Waiting always goes downwards. The one thread that holds a queue lock while it asks for
      another is in Clear; its own service was erased before it asked, and whatever it found
      registered then can only have been erased later. */
  lemma WaitingDescends(st: State, t: ThreadId, u: ThreadId)
    requires Inv(st) && Waits(st, t, u)
    ensures u in st.threads && 0 <= Height(st, u) < Height(st, t)
  {
    var l := Wanted(st.threads[t]).value;
    assert ServiceOk(st, l.s);
    assert ThreadOk(st, t);
    assert u in st.threads && ThreadOk(st, u);
    assert forall s <- st.erasedAt :: st.erasedAt[s] < st.epoch;
    OwnerIsLower(st, t, u);
  }

  lemma OwnerIsLower(st: State, t: ThreadId, u: ThreadId)
    requires Waits(st, t, u) && ServiceOk(st, Wanted(st.threads[t]).value.s) && u in st.threads && ThreadOk(st, u)
    requires ThreadOk(st, t) && forall s <- st.erasedAt :: st.erasedAt[s] < st.epoch
    ensures 0 <= Height(st, u) < Height(st, t)
  {
    var l := Wanted(st.threads[t]).value;
    if st.threads[u].call.SendPush? && st.threads[u].call.to in st.erasedAt {
      assert st.erasedAt[st.threads[u].call.to] < st.epoch;
    }
    if l.s in st.erasedAt {
      assert st.erasedAt[l.s] < st.epoch;
    }
  }

  /** A chain of threads each of which waits for the next. */
  predicate WaitingChain(st: State, chain: seq<ThreadId>) {
    forall i | 0 <= i < |chain| - 1 :: Waits(st, chain[i], chain[i + 1])
  }

  lemma {:induction false} ChainDescends(st: State, chain: seq<ThreadId>)
    requires Inv(st) && WaitingChain(st, chain) && |chain| >= 2
    ensures Height(st, chain[|chain| - 1]) < Height(st, chain[0])
  {
    var n := |chain| - 1;
    assert Waits(st, chain[n - 1], chain[n - 1 + 1]);
    WaitingDescends(st, chain[n - 1], chain[n]);
    if n > 1 {
      var front := chain[..n];
      assert WaitingChain(st, front) by {
        forall i | 0 <= i < |front| - 1
          ensures Waits(st, front[i], front[i + 1])
        {
          assert Waits(st, chain[i], chain[i + 1]);
        }
      }
      ChainDescends(st, front);
    }
  }

  /** No deadlock: in no reachable state do threads wait for each other in a circle, not even one
      thread for itself. */
  lemma NoWaitingCycle(st: State, chain: seq<ThreadId>)
    requires Reachable(st) && WaitingChain(st, chain) && |chain| >= 2
    ensures chain[0] != chain[|chain| - 1]
  {
    ReachableInv(st);
    ChainDescends(st, chain);
  }

  /** In the middle of a call or of a service's turn. */
  predicate Busy(th: Thread) {
    th.call != NoCall || HeldBy(th.work).Some?
  }

  /** A busy thread that waits for nobody can make its next step. */
  lemma UnblockedSteps(st: State, t: ThreadId)
    requires Inv(st) && t in st.threads && Busy(st.threads[t])
    requires forall u :: !Waits(st, t, u)
    ensures Next(st, if st.threads[t].call != NoCall then InCall(t) else InWork(t)).Some?
  {
    assert ThreadOk(st, t);
    hide Inv;
    if st.threads[t].call != NoCall {
      UnblockedCalls(st, t);
    } else {
      UnblockedWorks(st, t);
    }
  }

  lemma UnblockedCalls(st: State, t: ThreadId)
    requires t in st.threads && ThreadOk(st, t) && st.threads[t].call != NoCall
    requires forall u :: !Waits(st, t, u)
    ensures Next(st, InCall(t)).Some?
  {
    if Wanted(st.threads[t]).Some? {
      OwnerIsWaitedFor(st, t);
    }
  }

  lemma UnblockedWorks(st: State, t: ThreadId)
    requires t in st.threads && ThreadOk(st, t) && st.threads[t].call == NoCall && HeldBy(st.threads[t].work).Some?
    requires forall u :: !Waits(st, t, u)
    ensures Next(st, InWork(t)).Some?
  {
    if Wanted(st.threads[t]).Some? {
      OwnerIsWaitedFor(st, t);
    }
  }

  lemma OwnerIsWaitedFor(st: State, t: ThreadId)
    requires t in st.threads && Wanted(st.threads[t]).Some? && forall u :: !Waits(st, t, u)
    ensures Owner(st, Wanted(st.threads[t]).value) == None
  {
    var l := Wanted(st.threads[t]).value;
    if Owner(st, l).Some? {
      assert Waits(st, t, Owner(st, l).value);
    }
  }

  /** The locks are respected: a busy thread can make its next step exactly if it waits for nobody. */
  lemma StepsExactly(st: State, t: ThreadId)
    requires Reachable(st) && t in st.threads && Busy(st.threads[t])
    ensures Next(st, if st.threads[t].call != NoCall then InCall(t) else InWork(t)).Some?
            <==> forall u :: !Waits(st, t, u)
  {
    ReachableInv(st);
    if u :| Waits(st, t, u) {
      hide Inv;
      WaitersStay(st, t, u);
    } else {
      hide Inv, Waits;
      UnblockedSteps(st, t);
    }
  }

  lemma WaitersStay(st: State, t: ThreadId, u: ThreadId)
    requires Waits(st, t, u)
    ensures Next(st, if st.threads[t].call != NoCall then InCall(t) else InWork(t)) == None
  {
  }

  /** Whoever is stuck is, through whoever it waits for, stuck behind a thread that can move. */
  lemma {:induction false} SomeoneMoves(st: State, t: ThreadId) returns (chain: seq<ThreadId>, step: Step)
    requires Reachable(st) && t in st.threads && Busy(st.threads[t])
    ensures |chain| > 0 && chain[0] == t && WaitingChain(st, chain)
    ensures step == InCall(chain[|chain| - 1]) || step == InWork(chain[|chain| - 1])
    ensures Next(st, step).Some?
    decreases Height(st, t)
  {
    ReachableInv(st);
    if u :| Waits(st, t, u) {
      WaitingDescends(st, t, u);
      assert ServiceOk(st, Wanted(st.threads[t]).value.s);
      var rest, step' := SomeoneMoves(st, u);
      chain, step := [t] + rest, step';
      forall i | 0 <= i < |chain| - 1
        ensures Waits(st, chain[i], chain[i + 1])
      {
        if i > 0 {
          assert Waits(st, rest[i - 1], rest[i - 1 + 1]);
        }
      }
    } else {
      UnblockedSteps(st, t);
      chain := [t];
      step := if st.threads[t].call != NoCall then InCall(t) else InWork(t);
    }
  }
}
