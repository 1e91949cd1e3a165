/**
 Two runs that show what the queue protocol does not promise: one in which KillService loses its
 kill, because the worker has passed its test of isExiting, the killer sees inGlobal still up and
 leaves the service to that worker, and the worker lowers the flag; and one in which a worker makes a
 whole pass over a waiting message without handling it.
 */
module ProtocolLostKill {
  import opened Protocol
  import opened ProtocolInvariant
  import opened ProtocolSafety
  import opened ProtocolKillFate

  const HELLO := Message(Lua, 0, 0)

  /** One service, a worker (thread 0) that stands at w, and a thread outside the loop in call c. */
  datatype Scene = Scene(sv: Service, w: Work, c: Call, erased: bool, global: seq<Id>, passes: seq<Pass>)

  function World(weight: int, x: Scene): State {
    State(map[1 := x.sv], if x.erased then {} else {1}, if x.erased then map[1 := 0] else map[],
          if x.erased then 1 else 0, 1, x.global,
          map[0 := Thread(weight, x.w, NoCall), 1 := Thread(weight, Outside, x.c)], x.passes)
  }

  function Start(weight: int): State {
    State(map[], {}, map[], 0, 0, [], map[0 := Thread(weight, Seeking, NoCall), 1 := Thread(weight, Outside, NoCall)],
          [])
  }

  const IDLE := Scene(NEW_SERVICE, Seeking, NoCall, false, [], [])
  const TOLD := NEW_SERVICE.(queue := [HELLO], pushed := [HELLO])
  const TAKEN := TOLD.(inGlobal := true, place := With(0))
  const HANDLED := TAKEN.(queue := [], handled := [HELLO])

  /** What replacing a thread or the service makes of such a state. */
  lemma Scenery(weight: int, x: Scene)
    ensures forall th: Thread | th.call == NoCall && th.weight == weight ::
              SetThread(World(weight, x), 0, th) == World(weight, x.(w := th.work))
    ensures forall th: Thread | th.work == Outside && th.weight == weight ::
              SetThread(World(weight, x), 1, th) == World(weight, x.(c := th.call))
    ensures forall sv' :: SetService(World(weight, x), 1, sv') == World(weight, x.(sv := sv'))
  {
    var st := World(weight, x);
    forall th: Thread | th.call == NoCall && th.weight == weight
      ensures SetThread(st, 0, th) == World(weight, x.(w := th.work))
    {
      assert st.threads[0 := th] == map[0 := Thread(weight, th.work, NoCall), 1 := Thread(weight, Outside, x.c)];
    }
    forall th: Thread | th.work == Outside && th.weight == weight
      ensures SetThread(st, 1, th) == World(weight, x.(c := th.call))
    {
      assert st.threads[1 := th] == map[0 := Thread(weight, x.w, NoCall), 1 := Thread(weight, Outside, th.call)];
    }
    forall sv'
      ensures SetService(st, 1, sv') == World(weight, x.(sv := sv'))
    {
      assert st.services[1 := sv'] == map[1 := sv'];
    }
  }

  /** One more step of a run. */
  lemma Then(weight: int, steps: seq<Step>, x: Scene, step: Step, y: Scene) returns (more: seq<Step>)
    requires Run(Start(weight), steps) == Some(World(weight, x))
             && Next(World(weight, x), step) == Some(World(weight, y))
    ensures Run(Start(weight), more) == Some(World(weight, y))
  {
    more := steps + [step];
    assert more[..|steps|] == steps;
  }

  lemma Created(weight: int) returns (steps: seq<Step>)
    ensures Run(Start(weight), steps) == Some(World(weight, IDLE))
  {
    var st := Start(weight);
    assert Run(st, []) == Some(st);
    assert map[1 := NEW_SERVICE] == st.services[1 := NEW_SERVICE] && st.registered + {1} == {1};
    steps := [NewService];
    assert steps[..0] == [] && Next(st, NewService) == Some(World(weight, IDLE));
  }

  lemma Sent(weight: int, before: seq<Step>) returns (steps: seq<Step>)
    requires Run(Start(weight), before) == Some(World(weight, IDLE))
    ensures Run(Start(weight), steps) == Some(World(weight, IDLE.(sv := TOLD, c := SendEnter(1))))
  {
    hide Run;
    var look, push := IDLE.(c := SendLook(1, HELLO)), IDLE.(c := SendPush(1, HELLO));
    Scenery(weight, IDLE);
    steps := Then(weight, before, IDLE, BeginSend(1, 1, HELLO), look);
    Scenery(weight, look);
    steps := Then(weight, steps, look, InCall(1), push);
    Scenery(weight, push);
    Scenery(weight, push.(sv := TOLD));
    assert [] + [HELLO] == [HELLO];
    steps := Then(weight, steps, push, InCall(1), IDLE.(sv := TOLD, c := SendEnter(1)));
  }

  lemma Entered(weight: int, before: seq<Step>) returns (steps: seq<Step>)
    requires Run(Start(weight), before) == Some(World(weight, IDLE.(sv := TOLD, c := SendEnter(1))))
    ensures Run(Start(weight), steps)
         == Some(World(weight, IDLE.(sv := TOLD.(inGlobal := true, place := Queued), global := [1])))
  {
    hide Run;
    var told := IDLE.(sv := TOLD, c := SendEnter(1));
    var entered := told.(sv := TOLD.(flagLock := Some(1), place := Queued));
    var set' := entered.(c := EnterSet(1), global := [1]);
    Scenery(weight, told);
    Scenery(weight, entered);
    assert [] + [1] == [1];
    steps := Then(weight, before, told, InCall(1), set');
    var ready := set'.(sv := TOLD.(inGlobal := true, place := Queued));
    Scenery(weight, set');
    Scenery(weight, ready);
    steps := Then(weight, steps, set', InCall(1), ready.(c := NoCall));
  }

  /** The worker has popped the service and read the length of its queue. */
  lemma Counted(weight: int) returns (steps: seq<Step>)
    ensures Run(Start(weight), steps)
            == Some(World(weight, IDLE.(sv := TAKEN, w := Batch(1, PassSize(1, weight), 0, 1))))
  {
    hide Run;
    steps := Created(weight);
    steps := Sent(weight, steps);
    steps := Entered(weight, steps);
    var ready := IDLE.(sv := TOLD.(inGlobal := true, place := Queued), global := [1]);
    var taken := IDLE.(sv := TAKEN, w := Counting(1));
    Scenery(weight, ready);
    Scenery(weight, ready.(sv := TAKEN));
    assert [1][1..] == [];
    steps := Then(weight, steps, ready, InWork(0), taken);
    Scenery(weight, taken);
    steps := Then(weight, steps, taken, InWork(0), taken.(w := Batch(1, PassSize(1, weight), 0, 1)));
  }

  /** A pass that handles nothing: with weight 1 a single waiting message is left where it is. */
  lemma PassCanHandleNothing() returns (st: State)
    ensures Reachable(st) && st.passes == [Pass(1, 1, 1, 0)] && 1 in st.services && st.services[1].queue == [HELLO]
  {
    hide Run;
    var steps := Counted(1);
    assert PassSize(1, 1) == 0;
    var counted := IDLE.(sv := TAKEN, w := Batch(1, 0, 0, 1));
    Scenery(1, counted);
    assert [] + [Pass(1, 1, 1, 0)] == [Pass(1, 1, 1, 0)];
    steps := Then(1, steps, counted, InWork(0), counted.(w := Checking(1), passes := [Pass(1, 1, 1, 0)]));
    st := World(1, counted.(w := Checking(1), passes := [Pass(1, 1, 1, 0)]));
    assert Initial(Start(1));
  }

  const PASSED := IDLE.(sv := HANDLED, w := FinishWait(1), passes := [Pass(1, -1, 1, 1)])

  lemma Handled() returns (steps: seq<Step>)
    ensures Run(Start(-1), steps) == Some(World(-1, IDLE.(sv := HANDLED, w := Running(1, 0, 1, 1))))
  {
    steps := Counted(-1);
    hide Run, Next, World, Start;
    HandlesIt();
    steps := Then(-1, steps, IDLE.(sv := TAKEN, w := Batch(1, 1, 0, 1)), InWork(0),
                  IDLE.(sv := HANDLED, w := Running(1, 0, 1, 1)));
  }

  lemma HandlesIt()
    ensures Next(World(-1, IDLE.(sv := TAKEN, w := Batch(1, 1, 0, 1))), InWork(0))
            == Some(World(-1, IDLE.(sv := HANDLED, w := Running(1, 0, 1, 1))))
  {
    var counted := IDLE.(sv := TAKEN, w := Batch(1, 1, 0, 1));
    var st, th := World(-1, counted), Thread(-1, counted.w, NoCall);
    InScene(-1, counted);
    ServiceSet(-1, counted, HANDLED);
    WorkerSet(-1, counted.(sv := HANDLED), Running(1, 0, 1, 1));
    hide World, SetThread, SetService;
    PopsFront(st, 0, th, counted.w, HELLO);
    BatchIsNext(st, 0);
  }

  lemma InScene(weight: int, x: Scene)
    ensures var st := World(weight, x);
            && 1 in st.services && st.services[1] == x.sv
            && 0 in st.threads && st.threads[0] == Thread(weight, x.w, NoCall)
  {
  }

  lemma ServiceSet(weight: int, x: Scene, sv: Service)
    ensures SetService(World(weight, x), 1, sv) == World(weight, x.(sv := sv))
  {
    Scenery(weight, x);
  }

  lemma WorkerSet(weight: int, x: Scene, w: Work)
    ensures SetThread(World(weight, x), 0, Thread(weight, w, NoCall)) == World(weight, x.(w := w))
  {
    Scenery(weight, x);
  }

  lemma BatchIsNext(st: State, t: ThreadId)
    requires t in st.threads && st.threads[t].call == NoCall && st.threads[t].work.Batch?
    ensures Next(st, InWork(t)) == StepBatch(st, t, st.threads[t], st.threads[t].work)
  {
    hide StepBatch;
  }

  lemma PopsFront(st: State, t: ThreadId, th: Thread, w: Work, msg: Message)
    requires w.Batch? && w.todo > 0 && w.s in st.services
    requires st.services[w.s].queueLock == None && st.services[w.s].queue == [msg] && st.services[w.s].handled == []
    ensures var sv' := st.services[w.s].(queue := [], handled := [msg]);
            StepBatch(st, t, th, w)
            == Some(SetThread(SetService(st, w.s, sv'), t, th.(work := Running(w.s, w.todo - 1, w.done + 1, w.length))))
  {
    assert [msg][1..] == [] && [] + [msg] == [msg];
  }

  lemma PastTheTest() returns (steps: seq<Step>)
    ensures Run(Start(-1), steps) == Some(World(-1, PASSED))
  {
    hide Run;
    steps := Handled();
    var handled := IDLE.(sv := HANDLED, w := Running(1, 0, 1, 1));
    Scenery(-1, handled);
    steps := Then(-1, steps, handled, InWork(0), handled.(w := Batch(1, 0, 1, 1)));
    Scenery(-1, handled.(w := Batch(1, 0, 1, 1)));
    assert [] + [Pass(1, -1, 1, 1)] == [Pass(1, -1, 1, 1)];
    steps := Then(-1, steps, handled.(w := Batch(1, 0, 1, 1)), InWork(0), PASSED.(w := Checking(1)));
    Scenery(-1, PASSED.(w := Checking(1)));
    steps := Then(-1, steps, PASSED.(w := Checking(1)), InWork(0), PASSED);
  }

  /** The killer erases the service and marks it, behind the worker's back. */
  lemma Erased(before: seq<Step>) returns (steps: seq<Step>)
    requires Run(Start(-1), before) == Some(World(-1, PASSED))
    ensures Run(Start(-1), steps) == Some(World(-1, PASSED.(c := KillMark(1), erased := true)))
  {
    hide Run, Next, World, Start;
    KillBegins();
    steps := Then(-1, before, PASSED, BeginKill(1, 1), PASSED.(c := KillLook(1)));
    KillLooks();
    steps := Then(-1, steps, PASSED.(c := KillLook(1)), InCall(1), PASSED.(c := KillErase(1)));
    KillErases();
    steps := Then(-1, steps, PASSED.(c := KillErase(1)), InCall(1), PASSED.(c := KillMark(1), erased := true));
  }

  lemma KillBegins()
    ensures Next(World(-1, PASSED), BeginKill(1, 1)) == Some(World(-1, PASSED.(c := KillLook(1))))
  {
    Scenery(-1, PASSED);
  }

  lemma KillLooks()
    ensures Next(World(-1, PASSED.(c := KillLook(1))), InCall(1)) == Some(World(-1, PASSED.(c := KillErase(1))))
  {
    Scenery(-1, PASSED.(c := KillLook(1)));
  }

  lemma KillErases()
    ensures Next(World(-1, PASSED.(c := KillErase(1))), InCall(1))
            == Some(World(-1, PASSED.(c := KillMark(1), erased := true)))
  {
    Scenery(-1, PASSED.(c := KillErase(1)));
    assert {1} - {1} == {} && map[][1 := 0] == map[1 := 0];
  }

  lemma Marked(before: seq<Step>) returns (steps: seq<Step>)
    requires Run(Start(-1), before) == Some(World(-1, PASSED))
    ensures Run(Start(-1), steps)
         == Some(World(-1, PASSED.(sv := HANDLED.(exiting := true), c := KillTest(1), erased := true)))
  {
    hide Run;
    steps := Erased(before);
    var erased := PASSED.(c := KillMark(1), erased := true);
    Scenery(-1, erased);
    Scenery(-1, erased.(sv := HANDLED.(exiting := true)));
    steps := Then(-1, steps, erased, InCall(1), erased.(sv := HANDLED.(exiting := true), c := KillTest(1)));
  }

  const LOST := PASSED.(sv := HANDLED.(exiting := true, inGlobal := false, place := Nowhere),
                        w := Seeking, erased := true)

  lemma Lost() returns (steps: seq<Step>)
    ensures Run(Start(-1), steps) == Some(World(-1, LOST))
  {
    hide Run;
    steps := PastTheTest();
    steps := Marked(steps);
    var marked := PASSED.(sv := HANDLED.(exiting := true), erased := true);
    Scenery(-1, marked.(c := KillTest(1)));
    steps := Then(-1, steps, marked.(c := KillTest(1)), InCall(1), marked);
    var locked := marked.(sv := marked.sv.(queueLock := Some(0)), w := Resetting(1));
    Scenery(-1, marked);
    Scenery(-1, marked.(sv := locked.sv));
    steps := Then(-1, steps, marked, InWork(0), locked);
    var lost := marked.(sv := marked.sv.(inGlobal := false, place := Nowhere), w := Seeking);
    assert lost == LOST;
    Scenery(-1, locked);
    Scenery(-1, locked.(sv := lost.sv));
    steps := Then(-1, steps, locked, InWork(0), lost);
  }

  /** The kill is lost: a reachable state in which a service has been killed and has not exited,
      although nothing is in flight; and whatever happens after it, the service never exits. */
  lemma KillCanBeLost() returns (st: State)
    ensures Reachable(st) && 1 in st.services && st.services[1].exiting && !st.services[1].exited
    ensures forall t <- st.threads :: st.threads[t].call == NoCall && HeldBy(st.threads[t].work) == None
    ensures forall more :: Run(st, more).Some? ==>
              1 in Run(st, more).value.services && !Run(st, more).value.services[1].exited
  {
    hide Run;
    var steps := Lost();
    st := World(-1, LOST);
    assert Initial(Start(-1));
    ReachableInv(st);
    forall more | Run(st, more).Some?
      ensures 1 in Run(st, more).value.services && !Run(st, more).value.services[1].exited
    {
      DoomedForever(st, more, 1);
    }
  }
}
