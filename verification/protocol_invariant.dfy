/**
 The inductive invariant of the queue protocol, and its preservation by every step.
 */
module ProtocolInvariant {
  import opened Protocol

  /** The service a worker has popped and not given back. */
  function HeldBy(w: Work): Option<Id> {
    match w
    case Outside => None
    case Seeking => None
    case _ => Some(w.s)
  }

  /** A call that already holds a pointer to its target. */
  predicate Pointed(c: Call) {
    !c.NoCall? && !c.SendLook? && !c.KillLook?
  }

  /** inGlobal, or about to be set by a thread inside TryEnterGlobal. */
  predicate Flagged(sv: Service) {
    sv.inGlobal || sv.flagLock.Some?
  }

  /** Some sender has pushed to s and has not yet run TryEnterGlobal. */
  ghost predicate Announced(st: State, s: Id) {
    exists t :: t in st.threads && st.threads[t].call == SendEnter(s)
  }

  /** Some killer has marked s and not yet looked at inGlobal. */
  ghost predicate Testing(st: State, s: Id) {
    exists t :: t in st.threads && st.threads[t].call == KillTest(s)
  }

  /** The worker will not look at isExiting again in this turn. */
  predicate PastTest(w: Work) {
    w.FinishWait? || w.Resetting?
  }

  /** x is still registered, or was erased after s was. */
  predicate Later(st: State, x: Id, s: Id) {
    s in st.erasedAt && (x !in st.erasedAt || st.erasedAt[s] < st.erasedAt[x])
  }

  ghost predicate TokenOk(st: State, s: Id, sv: Service) {
    && (sv.place == Queued <==> s in st.global)
    && (sv.place.With? ==> sv.place.t in st.threads && HeldBy(st.threads[sv.place.t].work) == Some(s))
    && (sv.place != Nowhere ==> Flagged(sv))
    && (Flagged(sv) ==> sv.place != Nowhere || sv.exited)
    && (sv.exited ==> Flagged(sv) && sv.exiting && sv.place != Queued)
  }

  ghost predicate LocksOk(st: State, s: Id, sv: Service) {
    && (sv.flagLock.Some? ==> sv.flagLock.value in st.threads && st.threads[sv.flagLock.value].call == EnterSet(s))
    && (sv.queueLock.Some? ==>
          && sv.queueLock.value in st.threads
          && (st.threads[sv.queueLock.value].work == Clearing(s)
              || st.threads[sv.queueLock.value].work == Resetting(s)))
  }

  ghost predicate HistoryOk(st: State, s: Id, sv: Service) {
    && sv.pushed == sv.handled + sv.dropped + sv.queue
    && (!sv.exited ==> sv.dropped == [])
    && sv.onExits == (if sv.exited then 1 else 0)
  }

  ghost predicate ErasureOk(st: State, s: Id, sv: Service) {
    && s <= st.maxId
    && (sv.exiting ==> s in st.erasedAt)
    && (s in st.registered <==> s !in st.erasedAt)
  }

  ghost predicate NotStranded(st: State, s: Id, sv: Service) {
    && (sv.queue != [] && !sv.exited ==> sv.place != Nowhere || Announced(st, s))
    && (sv.exiting && sv.flagLock.Some? && sv.place.With? && sv.place.t in st.threads
        && PastTest(st.threads[sv.place.t].work)
        ==> Testing(st, s))
  }

  ghost predicate ServiceOk(st: State, s: Id)
    requires s in st.services
  {
    && TokenOk(st, s, st.services[s])
    && LocksOk(st, s, st.services[s])
    && HistoryOk(st, s, st.services[s])
    && ErasureOk(st, s, st.services[s])
    && NotStranded(st, s, st.services[s])
  }

  ghost predicate WorkOk(st: State, t: ThreadId, th: Thread) {
    var w := th.work;
    HeldBy(w).Some? ==>
      && w.s in st.services
      && var sv := st.services[w.s];
         && sv.place == With(t)
         && (sv.exited <==> w.OnExit? || w.ClearWait? || w.Clearing?)
         && (w.Clearing? || w.Resetting? ==> sv.queueLock == Some(t))
         && (w.Resetting? ==> sv.queue == [])
         && (w.Batch? || w.Running? ==> w.todo + w.done == PassSize(w.length, th.weight))
         && (w.Batch? || w.Running? ==> th.weight >= 0 || w.length > 0 ==> w.todo <= |sv.queue|)
  }

  ghost predicate CallOk(st: State, t: ThreadId, th: Thread) {
    && (th.call != NoCall ==> th.work.Outside? || th.work.Running? || th.work.OnExit? || th.work.Clearing?)
    && (Pointed(th.call) ==> th.call.to in st.services)
    && (th.call.EnterSet? ==> st.services[th.call.to].flagLock == Some(t))
    && (th.call.KillMark? ==> th.call.to in st.erasedAt)
    && (th.work.Clearing? ==>
          th.call.NoCall? || th.call.SendLook? || th.call.SendPush? || th.call.SendEnter? || th.call.EnterSet?)
    && (th.work.Clearing? && th.call.SendPush? ==> Later(st, th.call.to, th.work.s))
  }

  ghost predicate ThreadOk(st: State, t: ThreadId)
    requires t in st.threads
  {
    WorkOk(st, t, st.threads[t]) && CallOk(st, t, st.threads[t])
  }

  predicate NoDuplicates(ids: seq<Id>) {
    forall i, j | 0 <= i < j < |ids| :: ids[i] != ids[j]
  }

  /** A pass of weight w >= 0 that found n messages handled exactly n >> w of them; one of a negative weight
      handled one if it found any. */
  predicate PassOk(p: Pass) {
    if p.weight >= 0 then p.handled == ShiftRight(p.length, p.weight)
    else p.handled <= 1 && (p.length > 0 ==> p.handled == 1)
  }

  ghost predicate MapsOk(st: State) {
    && st.registered <= st.services.Keys
    && st.erasedAt.Keys <= st.services.Keys
    && (forall s <- st.erasedAt :: st.erasedAt[s] < st.epoch)
    && (forall s <- st.global :: s in st.services)
    && NoDuplicates(st.global)
    && (forall p <- st.passes :: PassOk(p))
  }

  ghost predicate Inv(st: State) {
    && MapsOk(st)
    && (forall s <- st.services :: ServiceOk(st, s))
    && (forall t <- st.threads :: ThreadOk(st, t))
  }

  lemma InitialInv(st: State)
    requires Initial(st)
    ensures Inv(st)
  {
  }

  // ----- what a step of thread t does not touch -----

  /** Nothing that the invariant says about service s depends on what changed. */
  ghost predicate SameService(st: State, st': State, t: ThreadId, s: Id)
    requires t in st.threads && t in st'.threads
  {
    && s in st.services && s in st'.services && st'.services[s] == st.services[s]
    && (s in st'.global <==> s in st.global)
    && (s in st'.registered <==> s in st.registered) && st.maxId <= st'.maxId
    && (s in st'.erasedAt <==> s in st.erasedAt)
    && Unconcerned(st.threads[t].call, st'.threads[t].call, s)
    && (st.threads[t].call == EnterSet(s) ==> st'.threads[t].call == EnterSet(s))
    && (HeldBy(st.threads[t].work) == Some(s) ==>
          HeldBy(st'.threads[t].work) == Some(s) && (PastTest(st'.threads[t].work) ==> PastTest(st.threads[t].work)))
    && (st.threads[t].work == Clearing(s) || st.threads[t].work == Resetting(s)
        ==> st'.threads[t].work == st.threads[t].work)
  }

  /** Replacing one call by the other changes nobody's standing towards s. */
  predicate Unconcerned(was: Call, now: Call, s: Id) {
    was == now || (was != SendEnter(s) && was != KillTest(s))
  }

  /** Only thread t moved. */
  predicate OnlyThread(st: State, st': State, t: ThreadId) {
    && t in st.threads && t in st'.threads
    && st'.threads == st.threads[t := st'.threads[t]]
  }

  lemma ServiceFrame(st: State, st': State, t: ThreadId, s: Id)
    requires OnlyThread(st, st', t) && SameService(st, st', t, s)
    requires ServiceOk(st, s)
    ensures ServiceOk(st', s)
  {
    StandingKept(st, st', t, s);
  }

  lemma StandingKept(st: State, st': State, t: ThreadId, s: Id)
    requires OnlyThread(st, st', t) && Unconcerned(st.threads[t].call, st'.threads[t].call, s)
    ensures Announced(st, s) ==> Announced(st', s)
    ensures Testing(st, s) ==> Testing(st', s)
  {
    if Announced(st, s) {
      var u :| u in st.threads && st.threads[u].call == SendEnter(s);
      assert u in st'.threads && st'.threads[u].call == SendEnter(s);
    }
    if Testing(st, s) {
      var u :| u in st.threads && st.threads[u].call == KillTest(s);
      assert u in st'.threads && st'.threads[u].call == KillTest(s);
    }
  }

  /** What thread u relies on: its own service and lock, and the erasure times. */
  ghost predicate SameForThread(st: State, st': State, u: ThreadId)
    requires u in st.threads
  {
    var th := st.threads[u];
    && u in st'.threads && st'.threads[u] == th
    && st.services.Keys <= st'.services.Keys
    && (forall s <- st.services :: KeptFor(st.services[s], st'.services[s], u))
    && (forall s <- st.erasedAt :: s in st'.erasedAt && st'.erasedAt[s] == st.erasedAt[s])
    && (forall s <- st'.erasedAt :: s in st.erasedAt || st'.erasedAt[s] >= st.epoch)
  }

  predicate KeptFor(sv: Service, sv': Service, u: ThreadId) {
    && (sv.place == With(u) ==> sv'.place == With(u) && sv'.exited == sv.exited && |sv.queue| <= |sv'.queue|)
    && (sv.queueLock == Some(u) ==> sv'.queueLock == Some(u) && sv'.queue == sv.queue)
    && (sv.flagLock == Some(u) ==> sv'.flagLock == Some(u))
  }

  lemma ThreadFrame(st: State, st': State, u: ThreadId)
    requires MapsOk(st) && u in st.threads && SameForThread(st, st', u)
    requires ThreadOk(st, u)
    ensures ThreadOk(st', u)
  {
    var th := st.threads[u];
    if HeldBy(th.work).Some? {
      assert KeptFor(st.services[th.work.s], st'.services[th.work.s], u);
    }
    if Pointed(th.call) {
      assert KeptFor(st.services[th.call.to], st'.services[th.call.to], u);
    }
  }

  /** The step belongs to service s: thread t was, and is, concerned with s alone. */
  predicate ConcernsOnly(was: Thread, now: Thread, s: Id) {
    && (was.call == now.call || !Pointed(was.call) || was.call.to == s)
    && (was.work == now.work
        || ((HeldBy(was.work) == None || HeldBy(was.work) == Some(s))
            && (HeldBy(now.work) == None || HeldBy(now.work) == Some(s))))
  }

  /** Besides thread t and service s only the global queue and the log of passes change. */
  ghost predicate LocalStep(st: State, st': State, t: ThreadId, s: Id) {
    && OnlyThread(st, st', t)
    && s in st.services && s in st'.services && st'.services == st.services[s := st'.services[s]]
    && st'.registered == st.registered && st'.maxId == st.maxId
    && st'.erasedAt == st.erasedAt && st'.epoch == st.epoch
    && (forall x :: x != s ==> (x in st'.global <==> x in st.global))
    && ConcernsOnly(st.threads[t], st'.threads[t], s)
    && (forall u :: u != t ==> KeptFor(st.services[s], st'.services[s], u))
  }

  /** A step that touches no service but s, and is fine for its thread and for s, keeps everything. */
  lemma StepFrame(st: State, st': State, t: ThreadId, s: Id)
    requires Inv(st) && LocalStep(st, st', t, s) && MapsOk(st')
    requires ServiceOk(st', s) && ThreadOk(st', t)
    ensures Inv(st')
  {
    hide ServiceOk, ThreadOk;
    forall x | x in st'.services
      ensures ServiceOk(st', x)
    {
      if x != s {
        assert ServiceOk(st, x);
        ServiceFrame(st, st', t, x);
      }
    }
    forall u | u in st'.threads
      ensures ThreadOk(st', u)
    {
      if u != t {
        assert ThreadOk(st, u);
        ThreadFrame(st, st', u);
      }
    }
  }

  /** A step of thread t that touches no service at all. */
  lemma ThreadStepFrame(st: State, st': State, t: ThreadId)
    requires Inv(st) && OnlyThread(st, st', t) && MapsOk(st')
    requires st' == st.(threads := st'.threads, passes := st'.passes)
    requires st.threads[t].work == st'.threads[t].work
             || HeldBy(st.threads[t].work) == HeldBy(st'.threads[t].work) != None
    requires st.threads[t].work.Clearing? || st.threads[t].work.Resetting? ==> st.threads[t].work == st'.threads[t].work
    requires PastTest(st'.threads[t].work) ==> PastTest(st.threads[t].work)
    requires st.threads[t].call == st'.threads[t].call || !Pointed(st.threads[t].call)
    requires ThreadOk(st', t)
    ensures Inv(st')
  {
    forall x | x in st'.services
      ensures ServiceOk(st', x)
    {
      assert ServiceOk(st, x);
      ServiceFrame(st, st', t, x);
    }
    forall u | u in st'.threads
      ensures ThreadOk(st', u)
    {
      if u != t {
        assert ThreadOk(st, u);
        ThreadFrame(st, st', u);
      }
    }
  }

  lemma BeginKeeps(st: State, step: Step, st': State)
    requires Inv(st) && (step.BeginSend? || step.BeginKill?)
    requires Next(st, step) == Some(st')
    ensures Inv(st')
  {
    assert ThreadOk(st, step.t);
    ThreadStepFrame(st, st', step.t);
  }

  // ----- steps of Send -----

  lemma LookKeeps(st: State, t: ThreadId, st': State)
    requires Inv(st) && t in st.threads && st.threads[t].call.SendLook?
    requires StepSend(st, t, st.threads[t], st.threads[t].call) == Some(st')
    ensures Inv(st')
  {
    assert ThreadOk(st, t);
    var to := st.threads[t].call.to;
    if to in st.registered {
      assert ServiceOk(st, to);
      if st.threads[t].work.Clearing? {
        assert ServiceOk(st, st.threads[t].work.s);
      }
    }
    ThreadStepFrame(st, st', t);
  }

  lemma PushLocal(st: State, t: ThreadId, st': State)
    requires Inv(st) && t in st.threads && st.threads[t].call.SendPush?
    requires StepSend(st, t, st.threads[t], st.threads[t].call) == Some(st')
    ensures var to := st.threads[t].call.to; to in st'.services && ServiceOk(st', to)
  {
    var to := st.threads[t].call.to;
    assert ThreadOk(st, t);
    assert ServiceOk(st, to);
    assert Announced(st', to) by {
      assert st'.threads[t].call == SendEnter(to);
    }
    StandingKept(st, st', t, to);
  }

  lemma PushMover(st: State, t: ThreadId, st': State)
    requires Inv(st) && t in st.threads && st.threads[t].call.SendPush?
    requires StepSend(st, t, st.threads[t], st.threads[t].call) == Some(st')
    ensures LocalStep(st, st', t, st.threads[t].call.to)
    ensures t in st'.threads && ThreadOk(st', t)
  {
    var to := st.threads[t].call.to;
    assert ThreadOk(st, t);
    assert ServiceOk(st, to);
  }

  lemma PushKeeps(st: State, t: ThreadId, st': State)
    requires Inv(st) && t in st.threads && st.threads[t].call.SendPush?
    requires StepSend(st, t, st.threads[t], st.threads[t].call) == Some(st')
    ensures Inv(st')
  {
    hide ServiceOk, ThreadOk;
    PushLocal(st, t, st');
    PushMover(st, t, st');
    StepFrame(st, st', t, st.threads[t].call.to);
  }

  /** TryEnterGlobal, from Send or from KillService: a flag that is down means there is no token. */
  lemma EnterLocal(st: State, t: ThreadId, st': State)
    requires Inv(st) && t in st.threads && (st.threads[t].call.SendEnter? || st.threads[t].call.KillEnter?)
    requires StepEnter(st, t, st.threads[t], st.threads[t].call.to) == Some(st')
    ensures var to := st.threads[t].call.to; to in st'.services && ServiceOk(st', to)
  {
    var to := st.threads[t].call.to;
    assert ThreadOk(st, t);
    assert ServiceOk(st, to);
  }

  lemma EnterMover(st: State, t: ThreadId, st': State)
    requires Inv(st) && t in st.threads && (st.threads[t].call.SendEnter? || st.threads[t].call.KillEnter?)
    requires StepEnter(st, t, st.threads[t], st.threads[t].call.to) == Some(st')
    ensures LocalStep(st, st', t, st.threads[t].call.to)
    ensures t in st'.threads && ThreadOk(st', t)
    ensures !st.services[st.threads[t].call.to].inGlobal ==> st.threads[t].call.to !in st.global
  {
    assert ThreadOk(st, t);
    assert ServiceOk(st, st.threads[t].call.to);
    EntererMoves(st, t, st');
  }

  lemma EntererMoves(st: State, t: ThreadId, st': State)
    requires t in st.threads && (st.threads[t].call.SendEnter? || st.threads[t].call.KillEnter?) && ThreadOk(st, t)
    requires st.threads[t].call.to in st.services && ServiceOk(st, st.threads[t].call.to)
    requires StepEnter(st, t, st.threads[t], st.threads[t].call.to) == Some(st')
    ensures LocalStep(st, st', t, st.threads[t].call.to)
    ensures t in st'.threads && ThreadOk(st', t)
    ensures !st.services[st.threads[t].call.to].inGlobal ==> st.threads[t].call.to !in st.global
  {
  }

  lemma EnterKeeps(st: State, t: ThreadId, st': State)
    requires Inv(st) && t in st.threads && (st.threads[t].call.SendEnter? || st.threads[t].call.KillEnter?)
    requires StepEnter(st, t, st.threads[t], st.threads[t].call.to) == Some(st')
    ensures Inv(st')
  {
    hide ServiceOk, ThreadOk;
    EnterLocal(st, t, st');
    EnterMover(st, t, st');
    StepFrame(st, st', t, st.threads[t].call.to);
  }

  lemma SetServed(st: State, t: ThreadId, st': State)
    requires t in st.threads && st.threads[t].call.EnterSet?
    requires st.threads[t].call.to in st.services && ServiceOk(st, st.threads[t].call.to) && ThreadOk(st, t)
    requires StepSet(st, t, st.threads[t], st.threads[t].call.to) == Some(st')
    ensures st.threads[t].call.to in st'.services && ServiceOk(st', st.threads[t].call.to)
  {
    var to := st.threads[t].call.to;
    StandingKept(st, st', t, to);
  }

  lemma SetMover(st: State, t: ThreadId, st': State)
    requires t in st.threads && st.threads[t].call.EnterSet? && ThreadOk(st, t)
    requires StepSet(st, t, st.threads[t], st.threads[t].call.to) == Some(st')
    ensures LocalStep(st, st', t, st.threads[t].call.to)
    ensures t in st'.threads && ThreadOk(st', t)
  {
  }

  lemma SetLocal(st: State, t: ThreadId, st': State)
    requires Inv(st) && t in st.threads && st.threads[t].call.EnterSet?
    requires StepSet(st, t, st.threads[t], st.threads[t].call.to) == Some(st')
    ensures var to := st.threads[t].call.to; to in st'.services && ServiceOk(st', to)
    ensures LocalStep(st, st', t, st.threads[t].call.to)
    ensures t in st'.threads && ThreadOk(st', t)
  {
    assert ThreadOk(st, t);
    assert ServiceOk(st, st.threads[t].call.to);
    SetMover(st, t, st');
    SetServed(st, t, st');
  }

  lemma SetKeeps(st: State, t: ThreadId, st': State)
    requires Inv(st) && t in st.threads && st.threads[t].call.EnterSet?
    requires StepSet(st, t, st.threads[t], st.threads[t].call.to) == Some(st')
    ensures Inv(st')
  {
    hide ServiceOk, ThreadOk;
    SetLocal(st, t, st');
    StepFrame(st, st', t, st.threads[t].call.to);
  }

  // ----- steps of KillService -----

  lemma KillLookKeeps(st: State, t: ThreadId, st': State)
    requires Inv(st) && t in st.threads && st.threads[t].call.KillLook?
    requires StepKill(st, t, st.threads[t], st.threads[t].call) == Some(st')
    ensures Inv(st')
  {
    assert ThreadOk(st, t);
    ThreadStepFrame(st, st', t);
  }

  /** Erasing takes the next erasure time, so it is later than every erasure before it. */
  lemma KillEraseKeeps(st: State, t: ThreadId, st': State)
    requires Inv(st) && t in st.threads && st.threads[t].call.KillErase?
    requires StepKill(st, t, st.threads[t], st.threads[t].call) == Some(st')
    ensures Inv(st')
  {
    var id := st.threads[t].call.to;
    assert ThreadOk(st, t);
    assert ServiceOk(st, id);
    forall x | x in st'.services
      ensures ServiceOk(st', x)
    {
      assert ServiceOk(st, x);
      StandingKept(st, st', t, x);
    }
    forall u | u in st'.threads
      ensures ThreadOk(st', u)
    {
      if u != t {
        assert ThreadOk(st, u);
        ThreadFrame(st, st', u);
      }
    }
  }

  lemma KillMarkServed(st: State, t: ThreadId, st': State)
    requires t in st.threads && st.threads[t].call.KillMark?
    requires st.threads[t].call.to in st.services && ServiceOk(st, st.threads[t].call.to) && ThreadOk(st, t)
    requires StepKill(st, t, st.threads[t], st.threads[t].call) == Some(st')
    ensures st.threads[t].call.to in st'.services && ServiceOk(st', st.threads[t].call.to)
  {
    var id := st.threads[t].call.to;
    StandingKept(st, st', t, id);
    assert Testing(st', id) by {
      assert st'.threads[t].call == KillTest(id);
    }
  }

  lemma KillMarkLocal(st: State, t: ThreadId, st': State)
    requires Inv(st) && t in st.threads && st.threads[t].call.KillMark?
    requires StepKill(st, t, st.threads[t], st.threads[t].call) == Some(st')
    ensures var id := st.threads[t].call.to; id in st'.services && ServiceOk(st', id)
    ensures LocalStep(st, st', t, st.threads[t].call.to)
    ensures t in st'.threads && ThreadOk(st', t)
  {
    var id := st.threads[t].call.to;
    assert ThreadOk(st, t);
    assert ServiceOk(st, id);
    KillMarkServed(st, t, st');
    hide ServiceOk;
  }

  lemma KillMarkKeeps(st: State, t: ThreadId, st': State)
    requires Inv(st) && t in st.threads && st.threads[t].call.KillMark?
    requires StepKill(st, t, st.threads[t], st.threads[t].call) == Some(st')
    ensures Inv(st')
  {
    hide ServiceOk, ThreadOk;
    KillMarkLocal(st, t, st');
    StepFrame(st, st', t, st.threads[t].call.to);
  }

  lemma KillTestServed(st: State, t: ThreadId, st': State)
    requires t in st.threads && st.threads[t].call.KillTest?
    requires st.threads[t].call.to in st.services && ServiceOk(st, st.threads[t].call.to) && ThreadOk(st, t)
    requires StepKill(st, t, st.threads[t], st.threads[t].call) == Some(st')
    ensures st.threads[t].call.to in st'.services && ServiceOk(st', st.threads[t].call.to)
  {
    var id := st.threads[t].call.to;
    if Announced(st, id) {
      var u :| u in st.threads && st.threads[u].call == SendEnter(id);
      assert u in st'.threads && st'.threads[u].call == SendEnter(id);
    }
  }

  lemma KillTestMover(st: State, t: ThreadId, st': State)
    requires t in st.threads && st.threads[t].call.KillTest? && ThreadOk(st, t)
    requires StepKill(st, t, st.threads[t], st.threads[t].call) == Some(st')
    ensures LocalStep(st, st', t, st.threads[t].call.to)
    ensures t in st'.threads && ThreadOk(st', t)
  {
  }

  lemma KillTestLocal(st: State, t: ThreadId, st': State)
    requires Inv(st) && t in st.threads && st.threads[t].call.KillTest?
    requires StepKill(st, t, st.threads[t], st.threads[t].call) == Some(st')
    ensures var id := st.threads[t].call.to; id in st'.services && ServiceOk(st', id)
    ensures LocalStep(st, st', t, st.threads[t].call.to)
    ensures t in st'.threads && ThreadOk(st', t)
  {
    assert ThreadOk(st, t);
    assert ServiceOk(st, st.threads[t].call.to);
    KillTestMover(st, t, st');
    KillTestServed(st, t, st');
  }

  lemma KillTestKeeps(st: State, t: ThreadId, st': State)
    requires Inv(st) && t in st.threads && st.threads[t].call.KillTest?
    requires StepKill(st, t, st.threads[t], st.threads[t].call) == Some(st')
    ensures Inv(st')
  {
    hide ServiceOk, ThreadOk;
    KillTestLocal(st, t, st');
    StepFrame(st, st', t, st.threads[t].call.to);
  }

  // ----- steps of the worker loop -----

  lemma SeekLocal(st: State, t: ThreadId, st': State)
    requires Inv(st) && t in st.threads && st.threads[t].work.Seeking? && st.threads[t].call == NoCall
    requires StepSeek(st, t, st.threads[t]) == Some(st')
    ensures var s := st.global[0]; s in st'.services && ServiceOk(st', s)
  {
    var s := st.global[0];
    assert ThreadOk(st, t);
    assert ServiceOk(st, s);
    StandingKept(st, st', t, s);
    RestOfQueue(st.global);
  }

  lemma SeekMover(st: State, t: ThreadId, st': State)
    requires Inv(st) && t in st.threads && st.threads[t].work.Seeking? && st.threads[t].call == NoCall
    requires StepSeek(st, t, st.threads[t]) == Some(st')
    ensures LocalStep(st, st', t, st.global[0])
    ensures t in st'.threads && ThreadOk(st', t)
  {
    var s := st.global[0];
    assert ThreadOk(st, t);
    assert ServiceOk(st, s);
    RestOfQueue(st.global);
  }

  lemma SeekKeeps(st: State, t: ThreadId, st': State)
    requires Inv(st) && t in st.threads && st.threads[t].work.Seeking? && st.threads[t].call == NoCall
    requires StepSeek(st, t, st.threads[t]) == Some(st')
    ensures Inv(st')
  {
    hide ServiceOk, ThreadOk;
    SeekLocal(st, t, st');
    SeekMover(st, t, st');
    RestOfQueue(st.global);
    StepFrame(st, st', t, st.global[0]);
  }

  lemma RestOfQueue(ids: seq<Id>)
    requires ids != [] && NoDuplicates(ids)
    ensures NoDuplicates(ids[1..]) && ids[0] !in ids[1..]
    ensures forall x :: x != ids[0] ==> (x in ids[1..] <==> x in ids)
  {
    assert ids == [ids[0]] + ids[1..];
  }

  lemma ShiftRightShrinks(n: nat, w: nat)
    ensures ShiftRight(n, w) <= n
  {
  }

  lemma CountKeeps(st: State, t: ThreadId, st': State)
    requires Inv(st) && t in st.threads && st.threads[t].work.Counting? && st.threads[t].call == NoCall
    requires StepCount(st, t, st.threads[t], st.threads[t].work.s) == Some(st')
    ensures Inv(st')
  {
    assert ThreadOk(st, t);
    if st.threads[t].weight >= 0 {
      ShiftRightShrinks(|st.services[st.threads[t].work.s].queue|, st.threads[t].weight);
    }
    ThreadStepFrame(st, st', t);
  }

  lemma BatchEndKeeps(st: State, t: ThreadId, st': State)
    requires Inv(st) && t in st.threads && st.threads[t].work.Batch? && st.threads[t].call == NoCall
    requires var w := st.threads[t].work; w.todo == 0 || st.services[w.s].queue == []
    requires StepBatch(st, t, st.threads[t], st.threads[t].work) == Some(st')
    ensures Inv(st')
  {
    assert ThreadOk(st, t);
    var w := st.threads[t].work;
    assert PassOk(Pass(w.s, st.threads[t].weight, w.length, w.done));
    ThreadStepFrame(st, st', t);
  }

  lemma BatchPopServed(st: State, t: ThreadId, st': State)
    requires t in st.threads && st.threads[t].work.Batch? && st.threads[t].call == NoCall
    requires st.threads[t].work.s in st.services && ServiceOk(st, st.threads[t].work.s) && ThreadOk(st, t)
    requires var w := st.threads[t].work; w.todo != 0 && st.services[w.s].queue != []
    requires StepBatch(st, t, st.threads[t], st.threads[t].work) == Some(st')
    ensures st.threads[t].work.s in st'.services && ServiceOk(st', st.threads[t].work.s)
  {
    var s := st.threads[t].work.s;
    StandingKept(st, st', t, s);
  }

  lemma BatchPopLocal(st: State, t: ThreadId, st': State)
    requires Inv(st) && t in st.threads && st.threads[t].work.Batch? && st.threads[t].call == NoCall
    requires var w := st.threads[t].work; w.todo != 0 && st.services[w.s].queue != []
    requires StepBatch(st, t, st.threads[t], st.threads[t].work) == Some(st')
    ensures var s := st.threads[t].work.s; s in st'.services && ServiceOk(st', s)
  {
    var s := st.threads[t].work.s;
    assert ThreadOk(st, t);
    assert ServiceOk(st, s);
    BatchPopServed(st, t, st');
  }

  lemma BatchPopMover(st: State, t: ThreadId, st': State)
    requires Inv(st) && t in st.threads && st.threads[t].work.Batch? && st.threads[t].call == NoCall
    requires var w := st.threads[t].work; w.todo != 0 && st.services[w.s].queue != []
    requires StepBatch(st, t, st.threads[t], st.threads[t].work) == Some(st')
    ensures LocalStep(st, st', t, st.threads[t].work.s)
    ensures t in st'.threads && ThreadOk(st', t)
  {
    var s := st.threads[t].work.s;
    assert ThreadOk(st, t);
    assert ServiceOk(st, s);
  }

  lemma BatchPopKeeps(st: State, t: ThreadId, st': State)
    requires Inv(st) && t in st.threads && st.threads[t].work.Batch? && st.threads[t].call == NoCall
    requires var w := st.threads[t].work; w.todo != 0 && st.services[w.s].queue != []
    requires StepBatch(st, t, st.threads[t], st.threads[t].work) == Some(st')
    ensures Inv(st')
  {
    hide ServiceOk, ThreadOk;
    BatchPopLocal(st, t, st');
    BatchPopMover(st, t, st');
    StepFrame(st, st', t, st.threads[t].work.s);
  }

  lemma RunningKeeps(st: State, t: ThreadId, st': State)
    requires Inv(st) && t in st.threads && st.threads[t].call == NoCall
    requires st.threads[t].work.Running? || st.threads[t].work.OnExit?
    requires StepWork(st, t, st.threads[t]) == Some(st')
    ensures Inv(st')
  {
    assert ThreadOk(st, t);
    ThreadStepFrame(st, st', t);
  }

  lemma CheckLocal(st: State, t: ThreadId, st': State)
    requires Inv(st) && t in st.threads && st.threads[t].work.Checking? && st.threads[t].call == NoCall
    requires StepCheck(st, t, st.threads[t], st.threads[t].work.s) == Some(st')
    ensures var s := st.threads[t].work.s; s in st'.services && ServiceOk(st', s)
    ensures LocalStep(st, st', t, st.threads[t].work.s)
    ensures t in st'.threads && ThreadOk(st', t)
  {
    var s := st.threads[t].work.s;
    assert ThreadOk(st, t);
    assert ServiceOk(st, s);
    StandingKept(st, st', t, s);
  }

  lemma CheckKeeps(st: State, t: ThreadId, st': State)
    requires Inv(st) && t in st.threads && st.threads[t].work.Checking? && st.threads[t].call == NoCall
    requires StepCheck(st, t, st.threads[t], st.threads[t].work.s) == Some(st')
    ensures Inv(st')
  {
    hide ServiceOk, ThreadOk;
    CheckLocal(st, t, st');
    StepFrame(st, st', t, st.threads[t].work.s);
  }

  lemma ClearLockLocal(st: State, t: ThreadId, st': State)
    requires Inv(st) && t in st.threads && st.threads[t].work.ClearWait? && st.threads[t].call == NoCall
    requires StepClearLock(st, t, st.threads[t], st.threads[t].work.s) == Some(st')
    ensures var s := st.threads[t].work.s; s in st'.services && ServiceOk(st', s)
    ensures LocalStep(st, st', t, st.threads[t].work.s)
    ensures t in st'.threads && ThreadOk(st', t)
  {
    var s := st.threads[t].work.s;
    assert ThreadOk(st, t);
    assert ServiceOk(st, s);
    StandingKept(st, st', t, s);
  }

  lemma ClearLockKeeps(st: State, t: ThreadId, st': State)
    requires Inv(st) && t in st.threads && st.threads[t].work.ClearWait? && st.threads[t].call == NoCall
    requires StepClearLock(st, t, st.threads[t], st.threads[t].work.s) == Some(st')
    ensures Inv(st')
  {
    hide ServiceOk, ThreadOk;
    ClearLockLocal(st, t, st');
    StepFrame(st, st', t, st.threads[t].work.s);
  }

  lemma ClearServed(st: State, t: ThreadId, st': State)
    requires t in st.threads && st.threads[t].work.Clearing? && st.threads[t].call == NoCall
    requires st.threads[t].work.s in st.services && ServiceOk(st, st.threads[t].work.s) && ThreadOk(st, t)
    requires StepClear(st, t, st.threads[t], st.threads[t].work.s) == Some(st')
    ensures st.threads[t].work.s in st'.services && ServiceOk(st', st.threads[t].work.s)
  {
    StandingKept(st, st', t, st.threads[t].work.s);
  }

  lemma ClearLocal(st: State, t: ThreadId, st': State)
    requires Inv(st) && t in st.threads && st.threads[t].work.Clearing? && st.threads[t].call == NoCall
    requires StepClear(st, t, st.threads[t], st.threads[t].work.s) == Some(st')
    ensures var s := st.threads[t].work.s; s in st'.services && ServiceOk(st', s)
    ensures LocalStep(st, st', t, st.threads[t].work.s)
    ensures t in st'.threads && ThreadOk(st', t)
  {
    var s := st.threads[t].work.s;
    assert ThreadOk(st, t);
    assert ServiceOk(st, s);
    ClearServed(st, t, st');
    hide ServiceOk;
  }

  lemma ClearKeeps(st: State, t: ThreadId, st': State)
    requires Inv(st) && t in st.threads && st.threads[t].work.Clearing? && st.threads[t].call == NoCall
    requires StepClear(st, t, st.threads[t], st.threads[t].work.s) == Some(st')
    ensures Inv(st')
  {
    hide ServiceOk, ThreadOk;
    ClearLocal(st, t, st');
    StepFrame(st, st', t, st.threads[t].work.s);
  }

  lemma FinishLocal(st: State, t: ThreadId, st': State)
    requires Inv(st) && t in st.threads && st.threads[t].work.FinishWait? && st.threads[t].call == NoCall
    requires StepFinish(st, t, st.threads[t], st.threads[t].work.s) == Some(st')
    ensures var s := st.threads[t].work.s; s in st'.services && ServiceOk(st', s)
  {
    var s := st.threads[t].work.s;
    assert ThreadOk(st, t);
    assert ServiceOk(st, s);
    StandingKept(st, st', t, s);
  }

  lemma FinishMover(st: State, t: ThreadId, st': State)
    requires Inv(st) && t in st.threads && st.threads[t].work.FinishWait? && st.threads[t].call == NoCall
    requires StepFinish(st, t, st.threads[t], st.threads[t].work.s) == Some(st')
    ensures LocalStep(st, st', t, st.threads[t].work.s)
    ensures t in st'.threads && ThreadOk(st', t)
    ensures st.threads[t].work.s !in st.global
  {
    assert ThreadOk(st, t);
    assert ServiceOk(st, st.threads[t].work.s);
    FinisherMoves(st, t, st');
  }

  lemma FinisherMoves(st: State, t: ThreadId, st': State)
    requires t in st.threads && st.threads[t].work.FinishWait? && st.threads[t].call == NoCall && ThreadOk(st, t)
    requires st.threads[t].work.s in st.services && ServiceOk(st, st.threads[t].work.s)
    requires StepFinish(st, t, st.threads[t], st.threads[t].work.s) == Some(st')
    ensures LocalStep(st, st', t, st.threads[t].work.s)
    ensures t in st'.threads && ThreadOk(st', t)
    ensures st.threads[t].work.s !in st.global
  {
  }

  lemma FinishKeeps(st: State, t: ThreadId, st': State)
    requires Inv(st) && t in st.threads && st.threads[t].work.FinishWait? && st.threads[t].call == NoCall
    requires StepFinish(st, t, st.threads[t], st.threads[t].work.s) == Some(st')
    ensures Inv(st')
  {
    hide ServiceOk, ThreadOk;
    FinishLocal(st, t, st');
    FinishMover(st, t, st');
    StepFrame(st, st', t, st.threads[t].work.s);
  }

  lemma ResetServed(st: State, t: ThreadId, st': State)
    requires t in st.threads && st.threads[t].work.Resetting? && st.threads[t].call == NoCall
    requires st.threads[t].work.s in st.services && ServiceOk(st, st.threads[t].work.s) && ThreadOk(st, t)
    requires StepReset(st, t, st.threads[t], st.threads[t].work.s) == Some(st')
    ensures st.threads[t].work.s in st'.services && ServiceOk(st', st.threads[t].work.s)
  {
    var s := st.threads[t].work.s;
    StandingKept(st, st', t, s);
  }

  lemma ResetLocal(st: State, t: ThreadId, st': State)
    requires Inv(st) && t in st.threads && st.threads[t].work.Resetting? && st.threads[t].call == NoCall
    requires StepReset(st, t, st.threads[t], st.threads[t].work.s) == Some(st')
    ensures var s := st.threads[t].work.s; s in st'.services && ServiceOk(st', s)
    ensures LocalStep(st, st', t, st.threads[t].work.s)
    ensures t in st'.threads && ThreadOk(st', t)
  {
    var s := st.threads[t].work.s;
    assert ThreadOk(st, t);
    assert ServiceOk(st, s);
    ResetServed(st, t, st');
    hide ServiceOk;
  }

  lemma ResetKeeps(st: State, t: ThreadId, st': State)
    requires Inv(st) && t in st.threads && st.threads[t].work.Resetting? && st.threads[t].call == NoCall
    requires StepReset(st, t, st.threads[t], st.threads[t].work.s) == Some(st')
    ensures Inv(st')
  {
    hide ServiceOk, ThreadOk;
    ResetLocal(st, t, st');
    StepFrame(st, st', t, st.threads[t].work.s);
  }

  lemma NewServiceKeeps(st: State, st': State)
    requires Inv(st) && Next(st, NewService) == Some(st')
    ensures Inv(st')
  {
    var id := st'.maxId;
    assert id !in st.services;
    forall x | x in st'.services
      ensures ServiceOk(st', x)
    {
      if x != id {
        assert ServiceOk(st, x);
        assert Announced(st, x) ==> Announced(st', x);
        assert Testing(st, x) ==> Testing(st', x);
      }
    }
    forall u | u in st'.threads
      ensures ThreadOk(st', u)
    {
      assert ThreadOk(st, u);
      ThreadFrame(st, st', u);
    }
  }

  /** Every step keeps the invariant. */
  lemma NextKeeps(st: State, step: Step, st': State)
    requires Inv(st) && Next(st, step) == Some(st')
    ensures Inv(st')
  {
    hide Inv;
    match step
    case NewService => NewServiceKeeps(st, st');
    case BeginSend(_, _, _) => BeginKeeps(st, step, st');
    case BeginKill(_, _) => BeginKeeps(st, step, st');
    case InCall(t) =>
      match st.threads[t].call {
        case SendLook(_, _) => LookKeeps(st, t, st');
        case SendPush(_, _) => PushKeeps(st, t, st');
        case SendEnter(_) => EnterKeeps(st, t, st');
        case KillLook(_) => KillLookKeeps(st, t, st');
        case KillErase(_) => KillEraseKeeps(st, t, st');
        case KillMark(_) => KillMarkKeeps(st, t, st');
        case KillTest(_) => KillTestKeeps(st, t, st');
        case KillEnter(_) => EnterKeeps(st, t, st');
        case EnterSet(_) => SetKeeps(st, t, st');
      }
    case InWork(t) =>
      match st.threads[t].work {
        case Seeking => SeekKeeps(st, t, st');
        case Counting(_) => CountKeeps(st, t, st');
        case Batch(s, todo, _, _) =>
          if todo == 0 || st.services[s].queue == [] {
            BatchEndKeeps(st, t, st');
          } else {
            BatchPopKeeps(st, t, st');
          }
        case Running(_, _, _, _) => RunningKeeps(st, t, st');
        case Checking(_) => CheckKeeps(st, t, st');
        case OnExit(_) => RunningKeeps(st, t, st');
        case ClearWait(_) => ClearLockKeeps(st, t, st');
        case Clearing(_) => ClearKeeps(st, t, st');
        case FinishWait(_) => FinishKeeps(st, t, st');
        case Resetting(_) => ResetKeeps(st, t, st');
      }
  }

  /** Every reachable state satisfies the invariant. */
  lemma {:induction false} RunKeeps(st: State, steps: seq<Step>)
    requires Initial(st) && Run(st, steps).Some?
    ensures Inv(Run(st, steps).value)
  {
    hide Inv;
    if steps == [] {
      InitialInv(st);
    } else {
      var front := steps[..|steps| - 1];
      RunKeeps(st, front);
      NextKeeps(Run(st, front).value, steps[|steps| - 1], Run(st, steps).value);
    }
  }
}
