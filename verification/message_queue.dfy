/**
 The bodies of the lock regions as the code writes them, on the fields of the queues: each takes what
 it changes from one state of the protocol to the next. `st` is the state that the fields show before,
 `st'` the one they show afterwards, and t the thread.
 */
module MessageQueue {
  import opened Protocol
  import ProtocolSafety

  const MQ_OVERLOAD: nat := 1024

  /** Overload thresholds are MQ_OVERLOAD times a power of two. */
  predicate IsThreshold(n: nat) {
    n == MQ_OVERLOAD || (n > MQ_OVERLOAD && n % 2 == 0 && IsThreshold(n / 2))
  }

  lemma ThresholdDoubles(n: nat)
    requires IsThreshold(n)
    ensures IsThreshold(2 * n)
  {
    assert 2 * n / 2 == n;
  }

  /** Thread t takes n steps of the worker loop, and nobody else any. */
  function Alone(st: State, t: ThreadId, n: nat): Option<State> {
    if n == 0 then Some(st)
    else
      match Alone(st, t, n - 1)
      case None => None
      case Some(mid) => Next(mid, InWork(t))
  }

  lemma {:induction false} AloneTogether(st: State, t: ThreadId, n: nat, mid: State, m: nat)
    requires Alone(st, t, n) == Some(mid)
    ensures Alone(st, t, n + m) == Alone(mid, t, m)
  {
    hide Next;
    if m > 0 {
      AloneTogether(st, t, n, mid, m - 1);
    }
  }

  ghost predicate Calls(st: State, t: ThreadId, call: Call) {
    t in st.threads && st.threads[t].call == call
  }

  ghost predicate Works(st: State, t: ThreadId, work: Work) {
    t in st.threads && st.threads[t].call == NoCall && st.threads[t].work == work
  }

  /** The locks of a service are free. */
  ghost predicate Free(st: State, id: Id) {
    id in st.services && st.services[id].queueLock == None && st.services[id].flagLock == None
  }

  class GlobalQueue {
    var queue: seq<Id>

    constructor ()
      ensures queue == []
    {
      queue := [];
    }

    method Push(srv: Id)
      modifies this
      ensures queue == old(queue) + [srv]
    {
      queue := queue + [srv];
    }

    /** The worker goes on with the front service; on an empty queue it has to wait. */
    method Pop(ghost st: State, ghost t: ThreadId) returns (srv: Option<Id>, ghost st': State)
      requires queue == st.global && Works(st, t, Seeking) && (queue != [] ==> queue[0] in st.services)
      modifies this
      ensures srv == (if old(queue) == [] then None else Some(old(queue)[0]))
      ensures queue == (if old(queue) == [] then [] else old(queue)[1..]) == st'.global
      ensures srv == None ==> Next(st, InWork(t)) == None && st' == st
      ensures srv.Some? ==> Next(st, InWork(t)) == Some(st') && Works(st', t, Counting(srv.value))
    {
      if queue == [] {
        srv, st' := None, st;
      } else {
        st' := Next(st, InWork(t)).value;
        srv := Some(queue[0]);
        queue := queue[1..];
      }
    }
  }

  class StarnetMQ {
    var msgQueue: seq<Message>
    var inGlobal: bool
    var overload: nat
    var overloadThreshold: nat

    ghost predicate Valid()
      reads this
    {
      IsThreshold(overloadThreshold)
    }

    ghost predicate Shows(st: State, id: Id, globalQueue: GlobalQueue)
      reads this, globalQueue
    {
      && id in st.services && st.services[id].queue == msgQueue && st.services[id].inGlobal == inGlobal
      && st.global == globalQueue.queue
    }

    constructor ()
      ensures Valid() && msgQueue == [] && !inGlobal && overload == 0
    {
      msgQueue, inGlobal, overload, overloadThreshold := [], false, 0, MQ_OVERLOAD;
    }

    method Push(msg: Message, ghost st: State, ghost t: ThreadId, ghost id: Id, ghost globalQueue: GlobalQueue)
      returns (ghost st': State)
      requires Shows(st, id, globalQueue) && Free(st, id) && Calls(st, t, SendPush(id, msg))
      modifies this`msgQueue
      ensures msgQueue == old(msgQueue) + [msg]
      ensures Next(st, InCall(t)) == Some(st') && Shows(st', id, globalQueue)
    {
      st' := Next(st, InCall(t)).value;
      msgQueue := msgQueue + [msg];
    }

    /** Takes the front message. If more than a threshold of messages stay behind, their number is
        recorded and the threshold doubles past it; an empty queue resets the threshold. */
    method Pop() returns (msg: Option<Message>)
      requires Valid()
      modifies this`msgQueue, this`overload, this`overloadThreshold
      ensures Valid()
      ensures old(msgQueue) == [] ==>
                msg == None && msgQueue == [] && overload == old(overload) && overloadThreshold == 1024
      ensures old(msgQueue) != [] ==>
                && msg == Some(old(msgQueue)[0]) && msgQueue == old(msgQueue)[1..]
                && |msgQueue| <= overloadThreshold
                && (if |msgQueue| <= old(overloadThreshold)
                    then overload == old(overload) && overloadThreshold == old(overloadThreshold)
                    else overload == |msgQueue| && overloadThreshold < 2 * |msgQueue|)
    {
      if msgQueue != [] {
        msg := Some(msgQueue[0]);
        msgQueue := msgQueue[1..];
        var length := |msgQueue|;
        while length > overloadThreshold
          invariant Valid() && length == |msgQueue| && overloadThreshold > 0
          invariant msgQueue == old(msgQueue)[1..]
          invariant || (overloadThreshold == old(overloadThreshold) && overload == old(overload))
                    || (length > old(overloadThreshold) && overload == length && overloadThreshold < 2 * length)
          decreases length - overloadThreshold
        {
          ThresholdDoubles(overloadThreshold);
          overload := length;
          overloadThreshold := 2 * overloadThreshold;
        }
      } else {
        msg := None;
        overloadThreshold := MQ_OVERLOAD;
      }
    }

    /** Reads the recorded overload and clears it, so that each one is reported once. */
    method Overload() returns (o: nat)
      modifies this`overload
      ensures o == old(overload) && overload == 0
    {
      o := overload;
      overload := 0;
    }

    /** Enters the global queue unless the flag says that the service has its token already: one step of
        the protocol, and if the flag was down a second one. */
    method TryEnterGlobal(srv: Id, globalQueue: GlobalQueue, ghost st: State, ghost t: ThreadId)
      returns (hasPush: bool, ghost st': State)
      requires Shows(st, srv, globalQueue) && Free(st, srv)
      requires Calls(st, t, SendEnter(srv)) || Calls(st, t, KillEnter(srv))
      modifies this`inGlobal, globalQueue
      ensures hasPush == !old(inGlobal) && inGlobal && Shows(st', srv, globalQueue) && Free(st', srv)
      ensures globalQueue.queue == old(globalQueue.queue) + if hasPush then [srv] else []
      ensures Calls(st', t, NoCall) && Next(st, InCall(t)).Some?
      ensures if hasPush then Next(Next(st, InCall(t)).value, InCall(t)) == Some(st')
              else Next(st, InCall(t)) == Some(st')
    {
      hasPush := false;
      st' := Next(st, InCall(t)).value;
      if !inGlobal {
        globalQueue.Push(srv);
        inGlobal := true;
        hasPush := true;
        st' := Next(st', InCall(t)).value;
      }
    }

    /** Hands the token back: to the global queue while there is work, otherwise, in a second step, down
        with the flag. */
    method FinishDispatch(srv: Id, globalQueue: GlobalQueue, ghost st: State, ghost t: ThreadId)
      returns (ghost st': State, ghost n: nat)
      requires Shows(st, srv, globalQueue) && Free(st, srv) && Works(st, t, FinishWait(srv))
      modifies this`inGlobal, globalQueue
      ensures msgQueue != [] ==> globalQueue.queue == old(globalQueue.queue) + [srv] && inGlobal == old(inGlobal)
      ensures msgQueue == [] ==> globalQueue.queue == old(globalQueue.queue) && !inGlobal
      ensures n == (if msgQueue != [] then 1 else 2) && Alone(st, t, n) == Some(st')
      ensures Shows(st', srv, globalQueue) && Free(st', srv) && Works(st', t, Seeking)
      ensures var was, now := st.services[srv], st'.services[srv];
              (now.exiting, now.exited, now.handled, now.onExits) == (was.exiting, was.exited, was.handled, was.onExits)
    {
      assert Alone(st, t, 0) == Some(st);
      st', n := Next(st, InWork(t)).value, 1;
      if msgQueue != [] {
        globalQueue.Push(srv);
      } else {
        inGlobal := false;
        st', n := Next(st', InWork(t)).value, 2;
      }
    }

    /** Drops every message, front to back, and collects what dropMessage has to send for them. */
    method Clear() returns (notices: seq<(Id, Message)>)
      modifies this`msgQueue
      ensures msgQueue == [] && notices == Notices(old(msgQueue))
    {
      notices := [];
      NoNotices();
      hide Notice, Notices;
      while msgQueue != []
        invariant notices + Notices(msgQueue) == Notices(old(msgQueue))
        decreases |msgQueue|
      {
        FirstNotice(msgQueue);
        var msg := msgQueue[0];
        msgQueue := msgQueue[1..];
        match Notice(msg)
        case None =>
        case Some(err) => notices := notices + [(msg.source, err)];
      }
    }
  }

  /** The error notices that dropping a queue produces, in queue order. */
  function Notices(msgs: seq<Message>): seq<(Id, Message)> {
    if msgs == [] then [] else
      (match Notice(msgs[0]) case None => [] case Some(err) => [(msgs[0].source, err)]) + Notices(msgs[1..])
  }

  lemma NoNotices()
    ensures Notices([]) == []
  {
  }

  lemma FirstNotice(msgs: seq<Message>)
    requires msgs != []
    ensures Notices(msgs)
            == (match Notice(msgs[0]) case None => [] case Some(err) => [(msgs[0].source, err)]) + Notices(msgs[1..])
  {
    hide Notice;
  }

  /** The message that a call of Send has just been begun for. */
  function Sending(call: Call): seq<(Id, Message)> {
    match call
    case SendLook(to, msg) => [(to, msg)]
    case _ => []
  }

  /** OnMsg hands these kinds on to Lua and ignores all others. */
  predicate ReachesLua(msg: Message) {
    msg.kind == Lua || msg.kind == Response || msg.kind == Socket
  }

  /** The sender of a dropped message is told, with its own session, exactly if the message came
      from a service; but the notice is of a kind that OnMsg never hands to Lua, so the waiting
      call does not fail. */
  lemma {:induction false} EverySenderNotified(msgs: seq<Message>, source: Id, session: int)
    ensures (source, Message(Error, 0, session)) in Notices(msgs)
            <==> exists m :: m in msgs && m.kind != Socket && m.source == source != 0 && m.session == session
    ensures forall n <- Notices(msgs) :: n.1.kind == Error && n.1.source == 0 && !ReachesLua(n.1)
  {
    if msgs != [] {
      EverySenderNotified(msgs[1..], source, session);
      assert msgs == [msgs[0]] + msgs[1..];
    }
  }

  class Service {
    const id: Id
    const mq: StarnetMQ
    var isExiting: bool
    var exited: bool
    /** What OnMsg has been called with, and how often OnExit has. */
    var handled: seq<Message>
    var onExits: nat

    ghost predicate Shows(st: State, globalQueue: GlobalQueue)
      reads this, mq, globalQueue
    {
      && mq.Shows(st, id, globalQueue) && Free(st, id)
      && st.services[id].exiting == isExiting && st.services[id].exited == exited
      && st.services[id].handled == handled && st.services[id].onExits == onExits
    }

    constructor (id: Id)
      ensures this.id == id && fresh(mq) && mq.Valid() && mq.msgQueue == [] && !isExiting && !exited
      ensures handled == [] && onExits == 0
    {
      this.id := id;
      mq := new StarnetMQ();
      isExiting, exited, handled, onExits := false, false, [], 0;
    }

    /** Handles one message; false on an empty queue, which ends the batch. */
    method ProcessMsg(ghost st: State, ghost t: ThreadId, ghost globalQueue: GlobalQueue)
      returns (more: bool, ghost st': State)
      requires mq.Valid() && Shows(st, globalQueue) && t in st.threads
      requires st.threads[t].work.Batch? && st.threads[t].work.todo > 0 && Works(st, t, st.threads[t].work)
      requires st.threads[t].work.s == id
      modifies this`handled, mq`msgQueue, mq`overload, mq`overloadThreshold
      ensures mq.Valid() && Next(st, InWork(t)) == Some(st') && Shows(st', globalQueue)
      ensures more <==> old(mq.msgQueue) != []
      ensures handled + mq.msgQueue == old(handled + mq.msgQueue)
      ensures |handled| == old(|handled|) + if more then 1 else 0
      ensures var was := st.threads[t].work;
              Works(st', t, if more then Running(id, was.todo - 1, was.done + 1, was.length) else Checking(id))
    {
      ghost var all := handled + mq.msgQueue;
      st' := Next(st, InWork(t)).value;
      var msg := mq.Pop();
      match msg
      case Some(m) =>
        var overload := mq.Overload();
        handled := handled + [m];
        assert handled + mq.msgQueue == all;
        more := true;
      case None =>
        more := false;
    }

    /** Handles the first max messages, or all of them if there are fewer: the n steps of a batch. */
    method ProcessMsgs(max: nat, ghost st: State, ghost t: ThreadId, ghost globalQueue: GlobalQueue)
      returns (ghost st': State, ghost n: nat)
      requires mq.Valid() && Shows(st, globalQueue) && t in st.threads
      requires st.threads[t].work.Batch? && st.threads[t].work.todo == max && Works(st, t, st.threads[t].work)
      requires st.threads[t].work.s == id
      modifies this`handled, mq`msgQueue, mq`overload, mq`overloadThreshold
      ensures mq.Valid() && Alone(st, t, n) == Some(st') && Shows(st', globalQueue) && Works(st', t, Checking(id))
      ensures handled + mq.msgQueue == old(handled + mq.msgQueue)
      ensures |handled| == old(|handled|) + if max <= old(|mq.msgQueue|) then max else old(|mq.msgQueue|)
    {
      st', n := st, 0;
      hide Next, Unseen;
      for i := 0 to max
        invariant mq.Valid() && Shows(st', globalQueue) && Alone(st, t, n) == Some(st')
        invariant t in st'.threads && st'.threads[t].work.Batch? && Works(st', t, st'.threads[t].work)
        invariant st'.threads[t].work.s == id && st'.threads[t].work.todo == max - i
        invariant handled + mq.msgQueue == old(handled + mq.msgQueue)
        invariant |handled| == old(|handled|) + i
      {
        assert |handled + mq.msgQueue| == old(|handled + mq.msgQueue|);
        assert id in st'.services;
        var succ;
        succ, st' := ProcessMsg(st', t, globalQueue);
        n := n + 1;
        if !succ {
          return;
        }
        ghost var running := st';
        st' := GoesOn(running, t, id);
        StillShows(running, st', globalQueue);
        n := n + 1;
      }
      assert |handled + mq.msgQueue| == old(|handled + mq.msgQueue|);
      ghost var batch := st';
      st' := BatchEnds(batch, t, id);
      StillShows(batch, st', globalQueue);
      n := n + 1;
    }

    lemma StillShows(st: State, st': State, globalQueue: GlobalQueue)
      requires Shows(st, globalQueue) && Unseen(st, st', id)
      ensures Shows(st', globalQueue)
    {
    }

    /** One turn of a worker when nobody interferes: a batch of the size that its weight asks for, and
        then the exit, once, or the return of the token. Without an exit it is the n steps of the
        protocol that lead thread t from the count back to seeking; with one, those up to OnExit. */
    method Turn(weight: int, globalQueue: GlobalQueue, ghost st: State, ghost t: ThreadId)
      returns (notices: seq<(Id, Message)>, ghost st': State, ghost n: nat)
      requires mq.Valid() && Shows(st, globalQueue) && Works(st, t, Counting(id)) && st.threads[t].weight == weight
      modifies this`handled, this`exited, this`onExits, mq, globalQueue
      ensures mq.Valid() && Alone(st, t, n) == Some(st')
      ensures weight < 0 ==> |handled| == old(|handled|) + if old(mq.msgQueue) == [] then 0 else 1
      ensures weight >= 0 ==>
                var length, unit, done := old(|mq.msgQueue|), ProtocolSafety.Pow2(weight), |handled| - old(|handled|);
                done * unit <= length < (done + 1) * unit
      ensures old(handled) <= handled <= old(handled + mq.msgQueue)
      ensures !isExiting || old(exited) ==>
                && Works(st', t, Seeking) && Shows(st', globalQueue) && notices == []
                && handled + mq.msgQueue == old(handled + mq.msgQueue) && exited == old(exited)
                  && onExits == old(onExits)
      ensures !isExiting ==>
                (if mq.msgQueue != []
                 then globalQueue.queue == old(globalQueue.queue) + [id] && mq.inGlobal == old(mq.inGlobal)
                 else globalQueue.queue == old(globalQueue.queue) && !mq.inGlobal)
      ensures isExiting ==> globalQueue.queue == old(globalQueue.queue) && mq.inGlobal == old(mq.inGlobal)
      ensures isExiting && !old(exited) ==>
                && Works(st', t, OnExit(id)) && st'.services[id].exited
                  && st'.services[id].onExits == onExits == old(onExits) + 1
                && exited && mq.msgQueue == [] && notices == Notices(st'.services[id].queue)
                && handled + st'.services[id].queue == old(handled + mq.msgQueue)
    {
      hide Next, Notices, ProtocolSafety.Pow2;
      ghost var mid, m, k;
      mid, m := HandleBatch(weight, globalQueue, st, t);
      notices, st', k := CheckAndPutGlobal(mid, t, globalQueue);
      AloneTogether(st, t, m, mid, k);
      n := m + k;
    }

    /** As many messages as the weight asks for. */
    method HandleBatch(weight: int, globalQueue: GlobalQueue, ghost st: State, ghost t: ThreadId)
      returns (ghost st': State, ghost n: nat)
      requires mq.Valid() && Shows(st, globalQueue) && Works(st, t, Counting(id)) && st.threads[t].weight == weight
      modifies this`handled, mq`msgQueue, mq`overload, mq`overloadThreshold
      ensures mq.Valid() && Alone(st, t, n) == Some(st') && Shows(st', globalQueue) && Works(st', t, Checking(id))
      ensures weight < 0 ==> |handled| == old(|handled|) + if old(mq.msgQueue) == [] then 0 else 1
      ensures weight >= 0 ==>
                var length, unit, done := old(|mq.msgQueue|), ProtocolSafety.Pow2(weight), |handled| - old(|handled|);
                done * unit <= length < (done + 1) * unit
      ensures handled + mq.msgQueue == old(handled + mq.msgQueue)
      ensures old(handled) <= handled <= old(handled + mq.msgQueue)
    {
      hide Next, ShiftRight, ProtocolSafety.Pow2;
      st', n := Counted(st, t);
      var size := 1;
      if weight >= 0 {
        size := ShiftRight(|mq.msgQueue|, weight);
        ProtocolSafety.ShiftRightIsFloor(|mq.msgQueue|, weight);
        AtMostAll(size, ProtocolSafety.Pow2(weight), |mq.msgQueue|);
      }
      ghost var mid, m;
      mid, m := ProcessMsgs(size, st', t, globalQueue);
      AloneTogether(st, t, n, st', m);
      ghost var all := handled + mq.msgQueue;
      assert handled == all[..|handled|] && old(handled) == all[..|old(handled)|];
      st', n := mid, n + m;
    }

    /** The exit of a service that is to exit and has not, or the return of the token. */
    method CheckAndPutGlobal(ghost st: State, ghost t: ThreadId, globalQueue: GlobalQueue)
      returns (notices: seq<(Id, Message)>, ghost st': State, ghost n: nat)
      requires Shows(st, globalQueue) && Works(st, t, Checking(id))
      modifies this`exited, this`onExits, mq`msgQueue, mq`inGlobal, globalQueue
      ensures Alone(st, t, n) == Some(st')
      ensures !isExiting || old(exited) ==>
                && Works(st', t, Seeking) && Shows(st', globalQueue) && notices == []
                && mq.msgQueue == old(mq.msgQueue) && exited == old(exited) && onExits == old(onExits)
      ensures !isExiting ==>
                (if mq.msgQueue != []
                 then globalQueue.queue == old(globalQueue.queue) + [id] && mq.inGlobal == old(mq.inGlobal)
                 else globalQueue.queue == old(globalQueue.queue) && !mq.inGlobal)
      ensures isExiting ==> globalQueue.queue == old(globalQueue.queue) && mq.inGlobal == old(mq.inGlobal)
      ensures isExiting && !old(exited) ==>
                && Works(st', t, OnExit(id)) && st'.services[id].exited
                && st'.services[id].onExits == onExits == old(onExits) + 1
                && exited && mq.msgQueue == [] && notices == Notices(st'.services[id].queue)
                && st'.services[id].queue == old(mq.msgQueue)
    {
      hide Next, Notices;
      notices, n := [], 1;
      st' := Checked(st, t, id);
      if !isExiting {
        ghost var back, k;
        back, k := mq.FinishDispatch(id, globalQueue, st', t);
        AloneTogether(st, t, n, st', k);
        st', n := back, n + k;
      } else if !exited {
        exited := true;
        onExits := onExits + 1;
        notices := mq.Clear();
      }
    }
  }

  lemma AtMostAll(size: nat, unit: nat, length: nat)
    requires size * unit <= length < (size + 1) * unit
    ensures size <= length
  {
    assert unit >= 1;
    assert size * unit == size + size * (unit - 1);
  }

  /** Nothing that a queue shows changes. */
  ghost predicate Unseen(st: State, st': State, id: Id) {
    id in st.services && id in st'.services && st'.services[id] == st.services[id] && st'.global == st.global
  }

  lemma GoesOn(st: State, t: ThreadId, id: Id) returns (st': State)
    requires t in st.threads && st.threads[t].work.Running? && Works(st, t, st.threads[t].work)
    requires st.threads[t].work.s == id && id in st.services
    ensures Next(st, InWork(t)) == Some(st') && Unseen(st, st', id)
    ensures var w := st.threads[t].work; Works(st', t, Batch(id, w.todo, w.done, w.length))
  {
    st' := Next(st, InWork(t)).value;
  }

  lemma BatchEnds(st: State, t: ThreadId, id: Id) returns (st': State)
    requires t in st.threads && st.threads[t].work.Batch? && Works(st, t, st.threads[t].work)
    requires st.threads[t].work.s == id && st.threads[t].work.todo == 0 && id in st.services
    ensures Next(st, InWork(t)) == Some(st') && Unseen(st, st', id) && Works(st', t, Checking(id))
  {
    st' := Next(st, InWork(t)).value;
  }

  lemma Counted(st: State, t: ThreadId) returns (st': State, n: nat)
    requires t in st.threads && st.threads[t].work.Counting? && Works(st, t, st.threads[t].work)
    requires Free(st, st.threads[t].work.s)
    ensures n == 1 && Alone(st, t, n) == Some(st')
    ensures var s, length := st.threads[t].work.s, |st.services[st.threads[t].work.s].queue|;
            && st'.services == st.services && st'.global == st.global
            && Works(st', t, Batch(s, PassSize(length, st.threads[t].weight), 0, length))
  {
    assert Alone(st, t, 0) == Some(st);
    st', n := Next(st, InWork(t)).value, 1;
  }

  lemma Checked(st: State, t: ThreadId, id: Id) returns (st': State)
    requires Works(st, t, Checking(id)) && Free(st, id)
    ensures Next(st, InWork(t)) == Some(st') && Alone(st, t, 1) == Some(st') && Free(st', id) && st'.global == st.global
    ensures var was, now := st.services[id], st'.services[id];
            && now.queue == was.queue && now.inGlobal == was.inGlobal && now.exiting == was.exiting
              && now.handled == was.handled
            && now.exited == (was.exited || was.exiting)
            && now.onExits == was.onExits + (if was.exiting && !was.exited then 1 else 0)
            && Works(st', t, if !was.exiting then FinishWait(id) else if was.exited then Seeking else OnExit(id))
  {
    assert Alone(st, t, 0) == Some(st);
    st' := Next(st, InWork(t)).value;
  }
}
