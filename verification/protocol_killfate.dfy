/**
 What becomes of a killed service. It is not true that it always exits: KillService leaves it to the
 worker that has it when it finds inGlobal up, and that worker may already be past its last look at
 isExiting. This is exactly when a kill is lost.
 */
module ProtocolKillFate {
  import opened Protocol
  import opened ProtocolInvariant
  import opened ProtocolFrames
  import opened ProtocolSafety

  /** Some thread is in the middle of a call and has a pointer to s. */
  ghost predicate Addressed(st: State, s: Id) {
    exists t :: t in st.threads && AddressedBy(st, t, s)
  }

  predicate AddressedBy(st: State, t: ThreadId, s: Id)
    requires t in st.threads
  {
    Pointed(st.threads[t].call) && st.threads[t].call.to == s
  }

  /** The worker that has s will not look at isExiting again and has nothing to put s back for. */
  predicate LettingGo(st: State, s: Id)
    requires s in st.services
  {
    var sv := st.services[s];
    && sv.place.With? && sv.place.t in st.threads
    && var w := st.threads[sv.place.t].work;
       w == Resetting(s) || (w == FinishWait(s) && sv.queue == [])
  }

  /** Killed, not exited, with nobody left to look at it. */
  ghost predicate Doomed(st: State, s: Id) {
    && s in st.services && st.services[s].exiting && !st.services[s].exited
    && !Addressed(st, s) && (st.services[s].place == Nowhere || LettingGo(st, s))
  }

  /** The losing case, by its guards: the last thread to address s, a killer at its test of inGlobal
      or any thread in TryEnterGlobal, finds the flag up and relies on a worker that is letting go. */
  ghost predicate Loses(st: State, step: Step, s: Id) {
    && s in st.services && step.InCall? && step.t in st.threads
    && st.threads[step.t].call in {SendEnter(s), KillTest(s), KillEnter(s)}
    && (forall u | u in st.threads && u != step.t :: !AddressedBy(st, u, s))
    && st.services[s].inGlobal && st.services[s].exiting && !st.services[s].exited && LettingGo(st, s)
  }

  // ----- once doomed, always doomed -----

  lemma DoomedStays(st: State, step: Step, st': State, s: Id)
    requires Inv(st) && Doomed(st, s) && Next(st, step) == Some(st')
    ensures Doomed(st', s)
  {
    assert ServiceOk(st, s);
    match step
    case InCall(t) => DoomedInCall(st, t, st', s);
    case InWork(t) => DoomedInWork(st, t, st', s);
    case NewService => SameThreads(st, st', s);
    case BeginSend(t, _, _) => OtherPointers(st, st', t, s);
    case BeginKill(t, _) => OtherPointers(st, st', t, s);
  }

  lemma SameThreads(st: State, st': State, s: Id)
    requires st'.threads == st.threads
    ensures Addressed(st', s) <==> Addressed(st, s)
  {
    assert forall t | t in st.threads :: AddressedBy(st', t, s) <==> AddressedBy(st, t, s);
  }

  lemma OtherPointers(st: State, st': State, t: ThreadId, s: Id)
    requires t in st.threads && t in st'.threads && st'.threads == st.threads[t := st'.threads[t]]
    requires AddressedBy(st', t, s) ==> AddressedBy(st, t, s)
    ensures Addressed(st', s) ==> Addressed(st, s)
  {
    forall u | u in st'.threads && AddressedBy(st', u, s)
      ensures AddressedBy(st, u, s)
    {
    }
  }

  lemma DoomedInCall(st: State, t: ThreadId, st': State, s: Id)
    requires Inv(st) && Doomed(st, s) && Next(st, InCall(t)) == Some(st')
    ensures Doomed(st', s)
  {
    hide StepCall, ServiceOk, Inv, ThreadOk;
    DoomedIsErased(st, s);
    assert !AddressedBy(st, t, s);
    CallTouches(st, t, st');
    OtherPointers(st, st', t, s);
  }

  lemma DoomedIsErased(st: State, s: Id)
    requires Inv(st) && Doomed(st, s)
    ensures s !in st.registered
  {
    assert ServiceOk(st, s);
  }

  lemma DoomedInWork(st: State, t: ThreadId, st': State, s: Id)
    requires Inv(st) && Doomed(st, s) && Next(st, InWork(t)) == Some(st')
    ensures Doomed(st', s)
  {
    assert ServiceOk(st, s);
    assert ThreadOk(st, t);
    assert !AddressedBy(st, t, s);
    if st.services[s].place == With(t) {
      HolderStaysDoomed(st, t, st', s);
    } else {
      OthersStayDoomed(st, t, st', s);
    }
  }

  lemma OthersStayDoomed(st: State, t: ThreadId, st': State, s: Id)
    requires t in st.threads && ThreadOk(st, t) && s in st.services && ServiceOk(st, s) && !AddressedBy(st, t, s)
    requires Doomed(st, s) && st.services[s].place != With(t) && Next(st, InWork(t)) == Some(st')
    ensures Doomed(st', s)
  {
    assert Subject(st, st.threads[t]) != s;
    hide StepWork;
    WorkTouches(st, t, st');
    hide ThreadOk;
    OtherPointers(st, st', t, s);
  }

  lemma HolderStaysDoomed(st: State, t: ThreadId, st': State, s: Id)
    requires t in st.threads && ThreadOk(st, t) && s in st.services && ServiceOk(st, s) && !AddressedBy(st, t, s)
    requires Doomed(st, s) && st.services[s].place == With(t) && Next(st, InWork(t)) == Some(st')
    ensures Doomed(st', s)
  {
    OtherPointers(st, st', t, s);
  }

  // ----- how it begins -----

  /** A step dooms a service exactly if it is the losing one. */
  lemma DoomBegins(st: State, step: Step, st': State, s: Id)
    requires Inv(st) && !Doomed(st, s) && Next(st, step) == Some(st')
    ensures Doomed(st', s) <==> Loses(st, step, s)
  {
    match step
    case NewService => SameThreads(st, st', s);
    case BeginSend(t, _, _) => SameAddress(st, st', t, s);
    case BeginKill(t, _) => SameAddress(st, st', t, s);
    case InWork(t) => WorkDoomsNobody(st, t, st', s);
    case InCall(t) =>
      if AddressedBy(st, t, s) {
        PointerDropped(st, t, st', s);
      } else {
        OtherCall(st, t, st', s);
      }
  }

  /** The caller says nothing new about s. */
  lemma SameAddress(st: State, st': State, t: ThreadId, s: Id)
    requires t in st.threads && t in st'.threads && st'.threads == st.threads[t := st'.threads[t]]
    requires AddressedBy(st', t, s) <==> AddressedBy(st, t, s)
    ensures Addressed(st', s) <==> Addressed(st, s)
  {
    OtherPointers(st, st', t, s);
    assert st.threads == st'.threads[t := st.threads[t]];
    OtherPointers(st', st, t, s);
  }

  lemma OtherCall(st: State, t: ThreadId, st': State, s: Id)
    requires Inv(st) && !Doomed(st, s) && Next(st, InCall(t)) == Some(st') && !AddressedBy(st, t, s)
    ensures !Doomed(st', s) && !Loses(st, InCall(t), s)
  {
    hide StepCall, Inv;
    CallTouches(st, t, st');
    if Doomed(st', s) {
      assert !AddressedBy(st', t, s);
      SameAddress(st, st', t, s);
    }
  }

  lemma PointerDropped(st: State, t: ThreadId, st': State, s: Id)
    requires Inv(st) && t in st.threads && AddressedBy(st, t, s) && Next(st, InCall(t)) == Some(st')
    ensures Doomed(st', s) <==> Loses(st, InCall(t), s)
  {
    assert ThreadOk(st, t);
    assert ServiceOk(st, s);
    hide ThreadOk, ServiceOk, Inv;
    LastPointer(st, t, st', s);
    if st.threads[t].call.EnterSet? {
      SetDoomsNobody(st, t, st', s);
    } else if AddressedBy(st', t, s) {
      assert Addressed(st', s);
      StillPointed(st, t, st', s);
    } else {
      GivesUp(st, t, st', s);
    }
  }

  /** Among the others nothing changes, so s is addressed afterwards by them or by t. */
  lemma LastPointer(st: State, t: ThreadId, st': State, s: Id)
    requires t in st.threads && Next(st, InCall(t)) == Some(st')
    ensures t in st'.threads && st'.threads == st.threads[t := st'.threads[t]]
    ensures Addressed(st', s) <==>
              AddressedBy(st', t, s) || exists u :: u in st.threads && u != t && AddressedBy(st, u, s)
  {
    hide StepCall;
    CallTouches(st, t, st');
    forall u | u in st.threads && u != t
      ensures u in st'.threads && (AddressedBy(st', u, s) <==> AddressedBy(st, u, s))
    {
    }
  }

  lemma StillPointed(st: State, t: ThreadId, st': State, s: Id)
    requires t in st.threads && AddressedBy(st, t, s) && Next(st, InCall(t)) == Some(st')
    requires t in st'.threads && AddressedBy(st', t, s)
    ensures !Loses(st, InCall(t), s)
  {
  }

  /** Whoever has just entered s is not the last: with the worker past its test, the killer that
      marked s in between is still before its own. */
  lemma SetDoomsNobody(st: State, t: ThreadId, st': State, s: Id)
    requires t in st.threads && s in st.services && ThreadOk(st, t) && ServiceOk(st, s)
    requires st.threads[t].call == EnterSet(s) && Next(st, InCall(t)) == Some(st')
    ensures !Doomed(st', s) && !Loses(st, InCall(t), s)
  {
    if Doomed(st', s) && LettingGo(st', s) {
      var u :| u in st.threads && st.threads[u].call == KillTest(s);
      assert AddressedBy(st', u, s);
    }
  }

  /** Its flag found up, an exiting service is with a worker: lost iff that one is letting go. */
  lemma GivesUp(st: State, t: ThreadId, st': State, s: Id)
    requires t in st.threads && s in st.services && ServiceOk(st, s)
    requires AddressedBy(st, t, s) && !st.threads[t].call.EnterSet? && Next(st, InCall(t)) == Some(st')
    requires t in st'.threads && st'.threads == st.threads[t := st'.threads[t]] && !AddressedBy(st', t, s)
    requires Addressed(st', s) <==> exists u :: u in st.threads && u != t && AddressedBy(st, u, s)
    ensures Doomed(st', s) <==> Loses(st, InCall(t), s)
  {
    assert st'.services == st.services && st.services[s].inGlobal;
    assert st.threads[t].call in {SendEnter(s), KillTest(s), KillEnter(s)};
    assert st'.threads[t].work == st.threads[t].work;
    assert LettingGo(st', s) <==> LettingGo(st, s);
  }

  lemma WorkDoomsNobody(st: State, t: ThreadId, st': State, s: Id)
    requires Inv(st) && !Doomed(st, s) && Next(st, InWork(t)) == Some(st')
    ensures !Doomed(st', s)
  {
    assert ThreadOk(st, t);
    if s in st.services && st.services[s].place == With(t) {
      assert ServiceOk(st, s);
      hide Inv;
      HolderDoomsNobody(st, t, st', s);
    } else if Doomed(st', s) {
      assert HeldBy(st.threads[t].work) != Some(s);
      if st.threads[t].work.Seeking? {
        hide Inv;
        SeekDoomsNobody(st, t, st', s);
      } else {
        hide StepWork, Inv;
        WorkTouches(st, t, st');
        SameAddress(st, st', t, s);
      }
    }
  }

  lemma SeekDoomsNobody(st: State, t: ThreadId, st': State, s: Id)
    requires t in st.threads && st.threads[t].work.Seeking? && Next(st, InWork(t)) == Some(st') && !Doomed(st, s)
    requires s in st.services ==> st.services[s].place != With(t)
    ensures !Doomed(st', s)
  {
    SameAddress(st, st', t, s);
  }

  /** The worker with the token still has to test, or is letting go already, or exits. */
  lemma HolderDoomsNobody(st: State, t: ThreadId, st': State, s: Id)
    requires t in st.threads && ThreadOk(st, t) && s in st.services && ServiceOk(st, s)
    requires st.services[s].place == With(t) && Next(st, InWork(t)) == Some(st') && !Doomed(st, s)
    ensures !Doomed(st', s)
  {
    assert HeldBy(st.threads[t].work) == Some(s);
    SameAddress(st, st', t, s);
  }

  // ----- whole runs -----

  /** Somewhere in the run the kill of s was lost. */
  ghost predicate LostIn(st0: State, steps: seq<Step>, s: Id) {
    exists k :: 0 <= k < |steps| && LostAt(st0, steps, k, s)
  }

  ghost predicate LostAt(st0: State, steps: seq<Step>, k: nat, s: Id)
    requires k < |steps|
  {
    Run(st0, steps[..k]).Some? && Loses(Run(st0, steps[..k]).value, steps[k], s)
  }

  /** Nobody is at work for s: no worker has it, it is not queued, and no call has a pointer to it. */
  ghost predicate Quiet(st: State, s: Id) {
    && !Addressed(st, s) && s !in st.global
    && (forall t | t in st.threads :: HeldBy(st.threads[t].work) != Some(s))
  }

  lemma {:induction false} DoomedIffLost(st0: State, steps: seq<Step>, s: Id)
    requires Initial(st0) && Run(st0, steps).Some?
    ensures Doomed(Run(st0, steps).value, s) <==> LostIn(st0, steps, s)
  {
    if steps != [] {
      var n := |steps| - 1;
      var front := steps[..n];
      DoomedIffLost(st0, front, s);
      RunKeeps(st0, front);
      var mid, st := Run(st0, front).value, Run(st0, steps).value;
      LostOneMore(st0, steps, s);
      hide Doomed, Loses, Inv, Next, LostIn;
      if Doomed(mid, s) {
        DoomedStays(mid, steps[n], st, s);
      } else {
        DoomBegins(mid, steps[n], st, s);
      }
    }
  }

  lemma LostOneMore(st0: State, steps: seq<Step>, s: Id)
    requires steps != [] && Run(st0, steps).Some?
    ensures var n := |steps| - 1;
            && Run(st0, steps[..n]).Some?
            && (LostIn(st0, steps, s) <==> LostIn(st0, steps[..n], s) || Loses(Run(st0, steps[..n]).value, steps[n], s))
  {
    hide Loses, Next, Run;
    var n := |steps| - 1;
    var front := steps[..n];
    assert Run(st0, front).Some? by { RunOfFront(st0, steps); }
    assert forall k | 0 <= k < n :: front[..k] == steps[..k] && front[k] == steps[k];
    if LostIn(st0, front, s) {
      var k :| 0 <= k < n && LostAt(st0, front, k, s);
      assert LostAt(st0, steps, k, s);
    }
    if LostIn(st0, steps, s) {
      var k :| 0 <= k < |steps| && LostAt(st0, steps, k, s);
      assert k < n ==> LostAt(st0, front, k, s);
    }
    if Loses(Run(st0, front).value, steps[n], s) {
      assert LostAt(st0, steps, n, s);
    }
  }

  lemma RunOfFront(st0: State, steps: seq<Step>)
    requires steps != [] && Run(st0, steps).Some?
    ensures Run(st0, steps[..|steps| - 1]).Some?
  {
  }

  /** Over every run: once nobody is at work for it any more, a killed service has exited if and only
      if no step of the run lost its kill. */
  lemma KilledExitsUnlessLost(st0: State, steps: seq<Step>, s: Id)
    requires Initial(st0) && Run(st0, steps).Some?
    requires var st := Run(st0, steps).value; s in st.services && st.services[s].exiting && Quiet(st, s)
    ensures Run(st0, steps).value.services[s].exited <==> !LostIn(st0, steps, s)
  {
    var st := Run(st0, steps).value;
    RunKeeps(st0, steps);
    DoomedIffLost(st0, steps, s);
    assert ServiceOk(st, s);
    hide LostIn, Run;
  }

  /** And one whose kill was lost never exits, whatever the system does from then on. */
  lemma LostForever(st0: State, steps: seq<Step>, more: seq<Step>, s: Id)
    requires Initial(st0) && LostIn(st0, steps, s) && Run(st0, steps).Some?
    requires Run(Run(st0, steps).value, more).Some?
    ensures Doomed(Run(Run(st0, steps).value, more).value, s)
  {
    var st := Run(st0, steps).value;
    RunKeeps(st0, steps);
    DoomedIffLost(st0, steps, s);
    DoomedForever(st, more, s);
  }

  lemma {:induction false} DoomedForever(st: State, more: seq<Step>, s: Id)
    requires Inv(st) && Doomed(st, s) && Run(st, more).Some?
    ensures Inv(Run(st, more).value) && Doomed(Run(st, more).value, s)
  {
    hide Doomed, Inv, Next;
    if more != [] {
      var front, last := more[..|more| - 1], more[|more| - 1];
      DoomedForever(st, front, s);
      NextKeeps(Run(st, front).value, last, Run(st, more).value);
      DoomedStays(Run(st, front).value, last, Run(st, more).value, s);
    }
  }

  /** Until then a killed service that has not exited is queued, or with a worker that will look at
      isExiting or put it back, or addressed by a thread. */
  lemma KilledServiceFate(st: State, s: Id)
    requires Reachable(st) && s in st.services && st.services[s].exiting && !st.services[s].exited
    ensures !Doomed(st, s) <==>
              || s in st.global || Addressed(st, s)
              || (exists t :: t in st.threads && HeldBy(st.threads[t].work) == Some(s) && !LettingGo(st, s))
  {
    ReachableInv(st);
    assert ServiceOk(st, s);
    forall t | t in st.threads && HeldBy(st.threads[t].work) == Some(s) ensures st.services[s].place == With(t) {
      assert ThreadOk(st, t);
    }
    if st.services[s].place.With? {
      assert HeldBy(st.threads[st.services[s].place.t].work) == Some(s);
    }
  }
}
