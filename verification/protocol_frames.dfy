/**
 What a single step of the queue protocol can change.
 */
module ProtocolFrames {
  import opened Protocol
  import opened ProtocolInvariant

  /** A step that thread t makes for service s changes no other thread and no other service, adds
      nothing to the service map, and leaves t working for s or for nobody. */
  predicate Touches(st: State, st': State, t: ThreadId, s: Id) {
    && t in st.threads && t in st'.threads && st'.threads == st.threads[t := st'.threads[t]]
    && (st'.services == st.services
        || (s in st.services && s in st'.services && st'.services == st.services[s := st'.services[s]]))
    && st'.registered <= st.registered && st'.maxId == st.maxId
    && (forall x <- st'.global :: x == s || x in st.global)
  }

  /** What a step for s leaves alone in its record unless it handles a message or takes the exit. */
  predicate SameRecord(st: State, st': State, s: Id) {
    s in st.services && s in st'.services ==>
      var sv, sv' := st.services[s], st'.services[s];
      sv'.handled == sv.handled && sv'.exited == sv.exited && sv'.onExits == sv.onExits
  }

  lemma SeekTouches(st: State, t: ThreadId, th: Thread, st': State)
    requires t in st.threads && StepSeek(st, t, th) == Some(st')
    ensures st.global != [] && Touches(st, st', t, st.global[0]) && SameRecord(st, st', st.global[0])
    ensures st'.threads[t] == th.(work := Counting(st.global[0]))
  {
  }

  lemma CountTouches(st: State, t: ThreadId, th: Thread, s: Id, st': State)
    requires t in st.threads && StepCount(st, t, th, s) == Some(st')
    ensures Touches(st, st', t, s) && SameRecord(st, st', s)
    ensures HeldBy(st'.threads[t].work) == Some(s) && st'.threads[t].call == th.call
  {
  }

  lemma BatchTouches(st: State, t: ThreadId, th: Thread, w: Work, st': State)
    requires t in st.threads && w.Batch? && StepBatch(st, t, th, w) == Some(st')
    ensures Touches(st, st', t, w.s)
    ensures w.s in st.services ==>
              var sv, sv' := st.services[w.s], st'.services[w.s];
              sv'.exited == sv.exited && sv'.onExits == sv.onExits
    ensures HeldBy(st'.threads[t].work) == Some(w.s) && st'.threads[t].call == th.call
  {
  }

  lemma CheckTouches(st: State, t: ThreadId, th: Thread, s: Id, st': State)
    requires t in st.threads && StepCheck(st, t, th, s) == Some(st')
    ensures Touches(st, st', t, s)
    ensures s in st.services ==>
              var sv, sv' := st.services[s], st'.services[s];
              sv'.handled == sv.handled
    ensures HeldBy(st'.threads[t].work) == Some(s) || HeldBy(st'.threads[t].work) == None
    ensures st'.threads[t].call == th.call
  {
  }

  lemma ClearTouches(st: State, t: ThreadId, th: Thread, s: Id, st': State)
    requires t in st.threads
    requires StepClear(st, t, th, s) == Some(st') || StepClearLock(st, t, th, s) == Some(st')
    ensures Touches(st, st', t, s) && SameRecord(st, st', s)
    ensures HeldBy(st'.threads[t].work) == None || HeldBy(st'.threads[t].work) == Some(s)
            || st'.threads[t].work == th.work
    ensures Pointed(st'.threads[t].call) ==> st'.threads[t].call == th.call
  {
  }

  lemma FinishTouches(st: State, t: ThreadId, th: Thread, s: Id, st': State)
    requires t in st.threads && StepFinish(st, t, th, s) == Some(st')
    ensures Touches(st, st', t, s) && SameRecord(st, st', s)
    ensures HeldBy(st'.threads[t].work) == Some(s) || HeldBy(st'.threads[t].work) == None
    ensures st'.threads[t].call == th.call
  {
  }

  lemma ResetTouches(st: State, t: ThreadId, th: Thread, s: Id, st': State)
    requires t in st.threads && StepReset(st, t, th, s) == Some(st')
    ensures Touches(st, st', t, s)
    ensures s in st.services ==>
              var sv, sv' := st.services[s], st'.services[s];
              sv'.handled == sv.handled && sv'.exited == sv.exited && sv'.onExits == sv.onExits
    ensures st'.threads[t] == th.(work := Seeking)
  {
  }

  /** The service a worker's next step is about. */
  function Subject(st: State, th: Thread): Id {
    match th.work
    case Outside => 0
    case Seeking => if st.global == [] then 0 else st.global[0]
    case w => w.s
  }

  /** One step of the worker loop: messages are handled only in a batch, the exit is taken only at
      the check. */
  lemma WorkTouches(st: State, t: ThreadId, st': State)
    requires t in st.threads && StepWork(st, t, st.threads[t]) == Some(st')
    ensures var th, s := st.threads[t], Subject(st, st.threads[t]);
            && Touches(st, st', t, s) && (th.work.Seeking? ==> st.global != [])
            && (!th.work.Batch? && !th.work.Checking? && !th.work.Resetting? ==> SameRecord(st, st', s))
            && (s in st.services ==>
                  var sv, sv' := st.services[s], st'.services[s];
                  && (!th.work.Batch? ==> sv'.handled == sv.handled)
                  && (!th.work.Checking? ==> sv'.exited == sv.exited && sv'.onExits == sv.onExits))
            && (HeldBy(st'.threads[t].work) == None || HeldBy(st'.threads[t].work) == Some(s))
            && (!Pointed(th.call) ==> !Pointed(st'.threads[t].call))
  {
    hide StepSeek, StepCount, StepBatch, StepCheck, StepClearLock, StepClear, StepFinish, StepReset;
    var th := st.threads[t];
    match th.work
    case Outside =>
    case Seeking => SeekTouches(st, t, th, st');
    case Counting(s) => CountTouches(st, t, th, s, st');
    case Batch(_, _, _, _) => BatchTouches(st, t, th, th.work, st');
    case Running(_, _, _, _) =>
    case Checking(s) => CheckTouches(st, t, th, s, st');
    case OnExit(_) =>
    case ClearWait(s) => ClearTouches(st, t, th, s, st');
    case Clearing(s) => ClearTouches(st, t, th, s, st');
    case FinishWait(s) => FinishTouches(st, t, th, s, st');
    case Resetting(s) => ResetTouches(st, t, th, s, st');
  }

  /** One step of Send or KillService leaves every record alone, and never changes its target,
      which it got from the map of registered services. */
  lemma CallTouches(st: State, t: ThreadId, st': State)
    requires t in st.threads && StepCall(st, t, st.threads[t]) == Some(st')
    ensures var th := st.threads[t];
            && !th.call.NoCall?
            && Touches(st, st', t, th.call.to) && SameRecord(st, st', th.call.to)
            && st'.threads[t].work == th.work
            && (Pointed(st'.threads[t].call) ==>
                  st'.threads[t].call.to == th.call.to && (Pointed(th.call) || th.call.to in st.registered))
            && (!Pointed(th.call) ==> st'.services == st.services && st'.global == st.global)
  {
    var th := st.threads[t];
    if th.call.SendEnter? || th.call.KillEnter? {
      EnterTouches(st, t, th, th.call.to, st');
    }
  }

  lemma EnterTouches(st: State, t: ThreadId, th: Thread, to: Id, st': State)
    requires t in st.threads && st.threads[t] == th && StepEnter(st, t, th, to) == Some(st')
    ensures Touches(st, st', t, to) && SameRecord(st, st', to)
  {
  }
}
