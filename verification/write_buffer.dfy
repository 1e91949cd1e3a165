/**
 The write buffer of a connection: a high and a low priority queue in front of a socket that may
 accept any part of a write, or none.
 */
module WriteBuffer {

  type Byte = b: int | 0 <= b < 0x100

  const WARNING_SIZE: nat := 0x10_0000

  datatype Option<T> = None | Some(value: T)

  /** The outcomes of write(2) on a non-blocking socket. */
  datatype WriteResult = Wrote(n: nat) | WouldBlock | Interrupted | Failed

  /** One write(2): what it was given and what it answered. */
  datatype Offer = Offer(data: seq<Byte>, result: WriteResult)

  function Taken(r: WriteResult): nat {
    if r.Wrote? then r.n else 0
  }

  /** What went out of an offer, and of several. */
  function TakenOf(o: Offer): seq<Byte> {
    if Taken(o.result) <= |o.data| then o.data[..Taken(o.result)] else []
  }

  ghost function WireOf(offers: seq<Offer>): seq<Byte> {
    if offers == [] then [] else WireOf(offers[..|offers| - 1]) + TakenOf(offers[|offers| - 1])
  }

  lemma {:induction false} WireOfConcat(a: seq<Offer>, b: seq<Offer>)
    ensures WireOf(a + b) == WireOf(a) + WireOf(b)
  {
    hide TakenOf;
    if b == [] {
      assert a + b == a;
    } else {
      WireOfConcat(a, b[..|b| - 1]);
      assert (a + b)[..|a + b| - 1] == a + b[..|b| - 1];
    }
  }

  /** A message in a queue, of which `start` bytes have been sent. */
  datatype WriteObject = WriteObject(start: nat, buff: seq<Byte>)

  /** A message that SendBuffer has accepted, and its priority. */
  datatype Sent = Sent(bytes: seq<Byte>, low: bool)

  /** The wire is what the answers say it is. */
  ghost predicate Honest(wire: seq<Byte>, log: seq<Offer>) {
    wire == WireOf(log)
  }

  class Socket {
    /** Every byte the peer will see. */
    var wire: seq<Byte>
    /** Every write(2), and of the last one what it answered and whether it took all it was given. */
    ghost var log: seq<Offer>
    ghost var last: WriteResult
    ghost var full: bool

    constructor ()
      ensures wire == [] && log == [] && Honest(wire, log)
    {
      wire, log := [], [];
    }

    /** write(2): the kernel decides how much it takes, or why it takes nothing. */
    method Write(data: seq<Byte>) returns (r: WriteResult)
      requires Honest(wire, log)
      modifies this
      ensures Honest(wire, log)
      ensures r.Wrote? ==> r.n <= |data| && wire == old(wire) + data[..r.n]
      ensures !r.Wrote? ==> wire == old(wire)
      ensures last == r && full == (r == Wrote(|data|)) && log == old(log) + [Offer(data, r)]
    {
      var choice: nat :| choice <= |data| + 3;
      if choice <= |data| {
        wire := wire + data[..choice];
        r := Wrote(choice);
      } else if choice == |data| + 1 {
        r := WouldBlock;
      } else if choice == |data| + 2 {
        r := Interrupted;
      } else {
        r := Failed;
      }
      last, full, log := r, r == Wrote(|data|), log + [Offer(data, r)];
    }
  }

  // ----- messages, their order, and the bytes they make -----

  function BytesOf(sends: seq<Sent>, id: nat): seq<Byte> {
    if id < |sends| then sends[id].bytes else []
  }

  predicate IsLow(sends: seq<Sent>, id: nat) {
    id < |sends| && sends[id].low
  }

  function Left(o: WriteObject): seq<Byte> {
    if o.start <= |o.buff| then o.buff[o.start..] else []
  }

  /** What the queued messages still have to send. */
  ghost function Unsent(items: seq<WriteObject>): seq<Byte> {
    if items == [] then [] else Left(items[0]) + Unsent(items[1..])
  }

  /** The messages with the given numbers, whole, one after the other. */
  ghost function Whole(sends: seq<Sent>, ids: seq<nat>): seq<Byte> {
    if ids == [] then [] else BytesOf(sends, ids[0]) + Whole(sends, ids[1..])
  }

  /** Each accepted message once. */
  ghost predicate EachOnce(sends: seq<Sent>, order: seq<nat>) {
    && |order| == |sends|
    && (forall i | 0 <= i < |order| :: order[i] < |sends|)
    && (forall i, j | 0 <= i < j < |order| :: order[i] != order[j])
  }

  /** A message passes an earlier one only if it is of high and the other of low priority. */
  ghost predicate Prioritised(sends: seq<Sent>, order: seq<nat>) {
    forall i, j | 0 <= i < j < |order| && order[i] > order[j] ::
      !IsLow(sends, order[i]) && IsLow(sends, order[j])
  }

  /** So each priority class keeps its send order, and low messages never pass high ones. */
  lemma ClassesInSendOrder(sends: seq<Sent>, order: seq<nat>, i: nat, j: nat)
    requires EachOnce(sends, order) && Prioritised(sends, order)
    requires i < |order| && j < |order| && order[i] < order[j]
    requires IsLow(sends, order[i]) == IsLow(sends, order[j]) || (!IsLow(sends, order[i]) && IsLow(sends, order[j]))
    ensures i < j
  {
  }

  ghost predicate InQueue(sends: seq<Sent>, items: seq<WriteObject>, ids: seq<nat>) {
    && |ids| == |items|
    && (forall i | 0 <= i < |items| :: items[i].buff == BytesOf(sends, ids[i]) && items[i].start <= |items[i].buff|)
    && (forall i | 1 <= i < |items| :: items[i].start == 0)
  }

  /** The queues, read as one: which messages they hold, how far the front is sent, and how that
      fits the wire. */
  ghost predicate Buffered(wire: seq<Byte>, sends: seq<Sent>, done: seq<nat>, items: seq<WriteObject>, ids: seq<nat>) {
    && InQueue(sends, items, ids)
    && wire == Whole(sends, done) + if items == [] then [] else items[0].buff[..items[0].start]
  }

  lemma {:induction false} WholeConcat(sends: seq<Sent>, a: seq<nat>, b: seq<nat>)
    ensures Whole(sends, a + b) == Whole(sends, a) + Whole(sends, b)
  {
    if a == [] {
      assert a + b == b;
    } else {
      assert (a + b)[1..] == a[1..] + b;
      WholeConcat(sends, a[1..], b);
    }
  }

  lemma {:induction false} UnsentConcat(a: seq<WriteObject>, b: seq<WriteObject>)
    ensures Unsent(a + b) == Unsent(a) + Unsent(b)
  {
    if a == [] {
      assert a + b == b;
    } else {
      assert (a + b)[1..] == a[1..] + b;
      UnsentConcat(a[1..], b);
    }
  }

  lemma {:induction false} WholeMoreSends(sends: seq<Sent>, more: seq<Sent>, ids: seq<nat>)
    requires forall i | 0 <= i < |ids| :: ids[i] < |sends|
    ensures Whole(sends + more, ids) == Whole(sends, ids)
  {
    if ids != [] {
      WholeMoreSends(sends, more, ids[1..]);
    }
  }

  lemma {:induction false} UnsentOfWhole(sends: seq<Sent>, items: seq<WriteObject>, ids: seq<nat>)
    requires |ids| == |items|
    requires forall i | 0 <= i < |items| :: items[i].buff == BytesOf(sends, ids[i]) && items[i].start == 0
    ensures Unsent(items) == Whole(sends, ids)
  {
    if items != [] {
      UnsentOfWhole(sends, items[1..], ids[1..]);
      assert items[0].buff[0..] == items[0].buff;
    }
  }

  /** Wire integrity: what is on the wire and what the queues still hold are together the accepted
      messages, whole and in order; no two interleave and none has lost or gained a byte. */
  lemma WireIsPrefixOfOrder(wire: seq<Byte>, sends: seq<Sent>, done: seq<nat>, items: seq<WriteObject>, ids: seq<nat>)
    requires Buffered(wire, sends, done, items, ids)
    ensures wire + Unsent(items) == Whole(sends, done + ids)
  {
    hide Whole;
    WholeConcat(sends, done, ids);
    if items == [] {
      assert Whole(sends, ids) == [] by { UnsentOfWhole(sends, items, ids); }
    } else {
      var o, tail := items[0], Unsent(items[1..]);
      assert Whole(sends, ids) == o.buff + tail by { FrontOfWhole(sends, items, ids); }
      assert o.buff == o.buff[..o.start] + o.buff[o.start..];
      calc {
        wire + Unsent(items);
        (Whole(sends, done) + o.buff[..o.start]) + (o.buff[o.start..] + tail);
        Whole(sends, done) + (o.buff + tail);
      }
    }
  }

  lemma FrontOfWhole(sends: seq<Sent>, items: seq<WriteObject>, ids: seq<nat>)
    requires |ids| == |items| > 0 && items[0].buff == BytesOf(sends, ids[0])
    requires forall i | 1 <= i < |items| :: items[i].buff == BytesOf(sends, ids[i]) && items[i].start == 0
    ensures Whole(sends, ids) == items[0].buff + Unsent(items[1..])
  {
    UnsentOfWhole(sends, items[1..], ids[1..]);
  }

  /** The front message has been written out. */
  lemma FrontDone(wire: seq<Byte>, sends: seq<Sent>, done: seq<nat>, items: seq<WriteObject>, ids: seq<nat>)
    requires Buffered(wire, sends, done, items, ids) && items != []
    ensures Buffered(wire + Left(items[0]), sends, done + [ids[0]], items[1..], ids[1..])
    ensures done + [ids[0]] + ids[1..] == done + ids
  {
    var o := items[0];
    OneMoreWhole(sends, done, ids[0]);
    FrontOut(wire, Whole(sends, done), o);
    TailInQueue(sends, items, ids);
    hide InQueue, Whole, BytesOf;
    assert done + [ids[0]] + ids[1..] == done + ids;
  }

  lemma TailInQueue(sends: seq<Sent>, items: seq<WriteObject>, ids: seq<nat>)
    requires InQueue(sends, items, ids) && items != []
    ensures InQueue(sends, items[1..], ids[1..])
    ensures items[0].start <= |items[0].buff| && items[0].buff == BytesOf(sends, ids[0])
    ensures items[1..] != [] ==> items[1..][0].buff[..items[1..][0].start] == []
  {
    hide BytesOf;
  }

  lemma FrontOut(wire: seq<Byte>, before: seq<Byte>, o: WriteObject)
    requires o.start <= |o.buff| && wire == before + o.buff[..o.start]
    ensures wire + Left(o) == before + o.buff
  {
    assert o.buff == o.buff[..o.start] + Left(o);
  }

  lemma OneMoreWhole(sends: seq<Sent>, done: seq<nat>, id: nat)
    ensures Whole(sends, done + [id]) == Whole(sends, done) + BytesOf(sends, id)
  {
    WholeConcat(sends, done, [id]);
    assert Whole(sends, [id]) == BytesOf(sends, id) + Whole(sends, []);
  }

  /** k more bytes of it have been. */
  lemma FrontPartly(wire: seq<Byte>, sends: seq<Sent>, done: seq<nat>, items: seq<WriteObject>, ids: seq<nat>, k: nat)
    requires Buffered(wire, sends, done, items, ids) && items != [] && k <= |Left(items[0])|
    ensures Buffered(wire + Left(items[0])[..k], sends, done, items[0 := items[0].(start := items[0].start + k)], ids)
  {
    hide Whole, BytesOf;
    var o := items[0];
    assert wire + Left(o)[..k] == Whole(sends, done) + o.buff[..o.start + k];
  }

  lemma UnsentOfFront(items: seq<WriteObject>, k: nat)
    requires items != [] && k <= |Left(items[0])|
    ensures |Unsent(items[0 := items[0].(start := items[0].start + k)])| == |Unsent(items)| - k
  {
    assert items[0 := items[0].(start := items[0].start + k)][1..] == items[1..];
  }

  /** A message joins behind the high ones; `lowIds` are all of low priority, so it may. */
  lemma JoinKeepsOrder(sends: seq<Sent>, m: Sent, front: seq<nat>, lowIds: seq<nat>)
    requires EachOnce(sends, front + lowIds) && Prioritised(sends, front + lowIds)
    requires forall i | 0 <= i < |lowIds| :: IsLow(sends, lowIds[i])
    requires m.low ==> lowIds == []
    ensures EachOnce(sends + [m], front + [|sends|] + lowIds)
    ensures Prioritised(sends + [m], front + [|sends|] + lowIds)
  {
    var was, now, all := front + lowIds, front + [|sends|] + lowIds, sends + [m];
    assert forall i | 0 <= i < |front| :: now[i] == was[i];
    assert forall i | |front| < i < |now| :: now[i] == was[i - 1] == lowIds[i - |front| - 1];
    assert now[|front|] == |sends|;
    assert forall id: nat | id < |sends| :: IsLow(all, id) == IsLow(sends, id);
    forall i, j | 0 <= i < j < |now| && now[i] > now[j]
      ensures !IsLow(all, now[i]) && IsLow(all, now[j])
    {
      var i', j' := if i > |front| then i - 1 else i, if j > |front| then j - 1 else j;
      if i != |front| && j != |front| {
        assert was[i'] == now[i] && was[j'] == now[j];
      }
    }
  }

  lemma JoinKeepsWire(sends: seq<Sent>, m: Sent, done: seq<nat>, rest: seq<nat>)
    requires EachOnce(sends, done + rest)
    ensures Whole(sends + [m], done) == Whole(sends, done)
    ensures forall i | 0 <= i < |rest| :: BytesOf(sends + [m], rest[i]) == BytesOf(sends, rest[i])
  {
    assert forall i | 0 <= i < |done| :: (done + rest)[i] == done[i];
    assert forall i | 0 <= i < |rest| :: (done + rest)[|done| + i] == rest[i];
    WholeMoreSends(sends, [m], done);
  }

  lemma {:induction false} UnsentOfOne(items: seq<WriteObject>, o: WriteObject)
    ensures |Unsent(items + [o])| == |Unsent(items)| + |Left(o)|
  {
    UnsentConcat(items, [o]);
    assert Unsent([o]) == Left(o) + Unsent([]);
  }

  /** A whole message joins a queue that is not empty, at any place but the front. */
  lemma JoinKeepsBuffered(wire: seq<Byte>, sends: seq<Sent>, m: Sent, done: seq<nat>, front: seq<WriteObject>,
                          back: seq<WriteObject>, frontIds: seq<nat>, backIds: seq<nat>)
    requires |front| == |frontIds| > 0
    requires Buffered(wire, sends, done, front + back, frontIds + backIds)
             && EachOnce(sends, done + (frontIds + backIds))
    ensures Buffered(wire, sends + [m], done, front + [WriteObject(0, m.bytes)] + back, frontIds + [|sends|] + backIds)
  {
    JoinKeepsWire(sends, m, done, frontIds + backIds);
    hide Whole, EachOnce;
    assert BytesOf(sends + [m], |sends|) == m.bytes;
    hide BytesOf;
    var items, ids, at := front + back, frontIds + backIds, |front|;
    var items', ids' := front + [WriteObject(0, m.bytes)] + back, frontIds + [|sends|] + backIds;
    assert forall i | 0 <= i < at :: items'[i] == items[i] && ids'[i] == ids[i];
    assert forall i | at < i < |items'| :: items'[i] == items[i - 1] && ids'[i] == ids[i - 1];
  }

  lemma UnsentOfJoined(front: seq<WriteObject>, back: seq<WriteObject>, o: WriteObject)
    ensures |Unsent(front + [o] + back)| == |Unsent(front + back)| + |Left(o)|
  {
    UnsentConcat(front, back);
    UnsentConcat(front + [o], back);
    UnsentOfOne(front, o);
  }

  // ----- the whole buffer as a value -----

  /** The queues hold, in order, what is accepted and not written out; low ones in the low queue. */
  ghost predicate Fits(wire: seq<Byte>, sends: seq<Sent>, done: seq<nat>, highIds: seq<nat>, lowIds: seq<nat>,
                       objs: seq<WriteObject>, low: seq<WriteObject>) {
    && |highIds| == |objs| && |lowIds| == |low|
    && Buffered(wire, sends, done, objs + low, highIds + lowIds)
    && EachOnce(sends, done + (highIds + lowIds)) && Prioritised(sends, done + (highIds + lowIds))
    && (forall i | 0 <= i < |lowIds| :: IsLow(sends, lowIds[i]))
  }

  lemma NothingQueued()
    ensures Fits([], [], [], [], [], [], [])
  {
    var ids: seq<nat>, items: seq<WriteObject> := [], [];
    assert ids + ids == ids && ids + ids + ids == ids && items + items == items;
  }

  lemma FitsCounts(wire: seq<Byte>, sends: seq<Sent>, done: seq<nat>, highIds: seq<nat>, lowIds: seq<nat>,
                   objs: seq<WriteObject>, low: seq<WriteObject>)
    requires Fits(wire, sends, done, highIds, lowIds, objs, low)
    ensures |highIds| == |objs| && |lowIds| == |low|
    ensures objs != [] ==> objs[0].start <= |objs[0].buff|
    ensures low != [] ==> low[0].start <= |low[0].buff|
  {
    if low != [] {
      assert (objs + low)[|objs|] == low[0];
    }
  }

  /** Written at once into an empty buffer. */
  lemma SentDirectly(wire: seq<Byte>, sends: seq<Sent>, done: seq<nat>, m: Sent)
    requires Fits(wire, sends, done, [], [], [], [])
    ensures Fits(wire + m.bytes, sends + [m], done + [|sends|], [], [], [], [])
  {
    var all, now := sends + [m], done + [|sends|];
    var none: seq<nat> := [];
    assert done + (none + none) == done && now + none == now && now + (none + none) == now && done + none == done;
    JoinKeepsOrder(sends, m, done, none);
    hide EachOnce, Prioritised;
    assert Whole(all, now) == Whole(sends, done) + m.bytes by {
      JoinKeepsWire(sends, m, done, []);
      WholeConcat(all, done, [|sends|]);
    }
    hide Whole;
  }

  /** The first n bytes are, and the rest waits. */
  lemma SentPartly(wire: seq<Byte>, sends: seq<Sent>, done: seq<nat>, m: Sent, n: nat)
    requires Fits(wire, sends, done, [], [], [], []) && n <= |m.bytes|
    ensures Fits(wire + m.bytes[..n], sends + [m], done, [|sends|], [], [WriteObject(n, m.bytes)], [])
    ensures |Unsent([WriteObject(n, m.bytes)] + [])| == |m.bytes| - n
  {
    var all, now, o := sends + [m], done + [|sends|], WriteObject(n, m.bytes);
    var none: seq<nat> := [];
    assert done + (none + none) == done && now + none == now && done + none == done;
    JoinKeepsOrder(sends, m, done, none);
    hide EachOnce, Prioritised;
    assert Whole(all, done) == Whole(sends, done) by { JoinKeepsWire(sends, m, done, []); }
    hide Whole;
    assert [|sends|] + [] == [|sends|] && [o] + [] == [o] && Unsent([o]) == Left(o) + Unsent([]);
  }

  lemma JoinHigh(wire: seq<Byte>, sends: seq<Sent>, done: seq<nat>, highIds: seq<nat>, lowIds: seq<nat>,
                 objs: seq<WriteObject>, low: seq<WriteObject>, m: Sent)
    requires Fits(wire, sends, done, highIds, lowIds, objs, low) && objs != [] && !m.low
    ensures Fits(wire, sends + [m], done, highIds + [|sends|], lowIds, objs + [WriteObject(0, m.bytes)], low)
    ensures |Unsent(objs + [WriteObject(0, m.bytes)] + low)| == |Unsent(objs + low)| + |m.bytes|
  {
    hide InQueue, Whole, BytesOf;
    JoinKeepsBuffered(wire, sends, m, done, objs, low, highIds, lowIds);
    UnsentOfJoined(objs, low, WriteObject(0, m.bytes));
    hide Buffered, Unsent;
    assert done + highIds + lowIds == done + (highIds + lowIds);
    JoinKeepsOrder(sends, m, done + highIds, lowIds);
    hide EachOnce, Prioritised;
    assert done + highIds + [|sends|] + lowIds == done + (highIds + [|sends|] + lowIds);
  }

  lemma JoinLow(wire: seq<Byte>, sends: seq<Sent>, done: seq<nat>, highIds: seq<nat>, lowIds: seq<nat>,
                objs: seq<WriteObject>, low: seq<WriteObject>, m: Sent)
    requires Fits(wire, sends, done, highIds, lowIds, objs, low) && objs != [] && m.low
    ensures Fits(wire, sends + [m], done, highIds, lowIds + [|sends|], objs, low + [WriteObject(0, m.bytes)])
    ensures |Unsent(objs + (low + [WriteObject(0, m.bytes)]))| == |Unsent(objs + low)| + |m.bytes|
  {
    hide InQueue, Whole, BytesOf;
    var o, order, none, noIds := WriteObject(0, m.bytes), done + (highIds + lowIds), objs[..0], highIds[..0];
    assert objs + low + none == objs + low && objs + low + [o] + none == objs + (low + [o]);
    assert highIds + lowIds + noIds == highIds + lowIds;
    assert highIds + lowIds + [|sends|] + noIds == highIds + (lowIds + [|sends|]);
    JoinKeepsBuffered(wire, sends, m, done, objs + low, none, highIds + lowIds, noIds);
    UnsentOfJoined(objs + low, none, o);
    hide Buffered, Unsent;
    assert order + noIds == order && order + [|sends|] + noIds == done + (highIds + (lowIds + [|sends|]));
    JoinKeepsOrder(sends, m, order, noIds);
    hide EachOnce, Prioritised;
  }

  lemma HighDone(wire: seq<Byte>, sends: seq<Sent>, done: seq<nat>, highIds: seq<nat>, lowIds: seq<nat>,
                 objs: seq<WriteObject>, low: seq<WriteObject>)
    requires Fits(wire, sends, done, highIds, lowIds, objs, low) && objs != []
    ensures Fits(wire + Left(objs[0]), sends, done + [highIds[0]], highIds[1..], lowIds, objs[1..], low)
    ensures |Unsent(objs[1..] + low)| == |Unsent(objs + low)| - |Left(objs[0])|
  {
    FrontDone(wire, sends, done, objs + low, highIds + lowIds);
    hide Buffered, EachOnce, Prioritised, Left;
    assert (objs + low)[1..] == objs[1..] + low;
    assert (highIds + lowIds)[1..] == highIds[1..] + lowIds;
  }

  lemma HighPartly(wire: seq<Byte>, sends: seq<Sent>, done: seq<nat>, highIds: seq<nat>, lowIds: seq<nat>,
                   objs: seq<WriteObject>, low: seq<WriteObject>, k: nat)
    requires Fits(wire, sends, done, highIds, lowIds, objs, low) && objs != [] && k <= |Left(objs[0])|
    ensures Fits(wire + Left(objs[0])[..k], sends, done, highIds, lowIds,
                 objs[0 := objs[0].(start := objs[0].start + k)], low)
    ensures |Unsent(objs[0 := objs[0].(start := objs[0].start + k)] + low)| == |Unsent(objs + low)| - k
  {
    FrontPartly(wire, sends, done, objs + low, highIds + lowIds, k);
    UnsentOfFront(objs + low, k);
    hide Buffered, EachOnce, Prioritised;
    var o := objs[0].(start := objs[0].start + k);
    assert (objs + low)[0 := o] == objs[0 := o] + low;
  }

  lemma LowDone(wire: seq<Byte>, sends: seq<Sent>, done: seq<nat>, lowIds: seq<nat>, low: seq<WriteObject>)
    requires Fits(wire, sends, done, [], lowIds, [], low) && low != []
    ensures Fits(wire + Left(low[0]), sends, done + [lowIds[0]], [], lowIds[1..], [], low[1..])
    ensures |Unsent([] + low[1..])| == |Unsent([] + low)| - |Left(low[0])|
  {
    LowAsHigh(lowIds, low);
    LowAsHigh(lowIds[1..], low[1..]);
    FrontDone(wire, sends, done, low, lowIds);
    hide Buffered, EachOnce, Prioritised;
  }

  lemma LowPartly(wire: seq<Byte>, sends: seq<Sent>, done: seq<nat>, lowIds: seq<nat>, low: seq<WriteObject>, k: nat)
    requires Fits(wire, sends, done, [], lowIds, [], low) && low != [] && k <= |Left(low[0])|
    ensures Fits(wire + Left(low[0])[..k], sends, done, [], lowIds, [], low[0 := low[0].(start := low[0].start + k)])
    ensures |Unsent([] + low[0 := low[0].(start := low[0].start + k)])| == |Unsent([] + low)| - k
  {
    LowAsHigh(lowIds, low);
    LowAsHigh(lowIds, low[0 := low[0].(start := low[0].start + k)]);
    FrontPartly(wire, sends, done, low, lowIds, k);
    UnsentOfFront(low, k);
    hide Buffered, EachOnce, Prioritised;
  }

  lemma LowAsHigh(lowIds: seq<nat>, low: seq<WriteObject>)
    ensures [] + low == low && [] + lowIds == lowIds
  {
  }

  /** The low front moves up: nothing else changes place, and it keeps what it has sent. */
  lemma LowRaised(wire: seq<Byte>, sends: seq<Sent>, done: seq<nat>, lowIds: seq<nat>, low: seq<WriteObject>, n: nat)
    requires Fits(wire, sends, done, [], lowIds, [], low) && n <= |low|
    ensures Fits(wire, sends, done, lowIds[..n], lowIds[n..], low[..n], low[n..])
    ensures Unsent(low[..n] + low[n..]) == Unsent([] + low)
  {
    hide Buffered, EachOnce, Prioritised, Unsent;
    var none: seq<WriteObject>, noIds: seq<nat> := [], [];
    assert low[..n] + low[n..] == none + low;
    assert lowIds[..n] + lowIds[n..] == noIds + lowIds;
  }

  lemma SliceOfBoth(a: seq<nat>, b: seq<nat>, n: nat)
    requires n <= |a| + |b|
    ensures n <= |a| ==> (a + b)[..n] == a[..n] && (a + b)[n..] == a[n..] + b
    ensures n >= |a| ==> (a + b)[..n] == a + b[..n - |a|] && (a + b)[n..] == b[n - |a|..]
  {
  }

  // ----- what a flush does -----

  /** The offers are the first messages, and each was taken whole. */
  ghost predicate AllTaken(items: seq<WriteObject>, offers: seq<Offer>) {
    && |offers| <= |items|
    && (forall k | 0 <= k < |offers| :: offers[k] == Offer(Left(items[k]), Wrote(|Left(items[k])|)))
  }

  /** The messages were offered one after the other until one was not taken whole; that one and those
      behind it are left. */
  ghost predicate Flushed(items: seq<WriteObject>, offers: seq<Offer>, rest: seq<WriteObject>) {
    if rest == [] then AllTaken(items, offers) && |offers| == |items|
    else
      var n := |items| - |rest|;
      && 0 <= n && |offers| == n + 1 && AllTaken(items, offers[..n])
      && LeftAt(items[n], offers[n]) && rest == items[n..][0 := Advanced(items[n], offers[n])]
  }

  ghost predicate LeftAt(o: WriteObject, offer: Offer) {
    offer.data == Left(o) && offer.result != Wrote(|Left(o)|) && Taken(offer.result) <= |Left(o)|
  }

  function Advanced(o: WriteObject, offer: Offer): WriteObject {
    o.(start := o.start + Taken(offer.result))
  }

  lemma Stays(o: WriteObject, r: WriteResult)
    requires r != Wrote(|Left(o)|) && Taken(r) <= |Left(o)|
    ensures LeftAt(o, Offer(Left(o), r)) && Advanced(o, Offer(Left(o), r)) == o.(start := o.start + Taken(r))
  {
  }

  lemma OneMoreTaken(items: seq<WriteObject>, offers: seq<Offer>, offer: Offer)
    requires AllTaken(items, offers) && |offers| < |items|
    requires offer == Offer(Left(items[|offers|]), Wrote(|Left(items[|offers|])|))
    ensures AllTaken(items, offers + [offer]) && items[|offers|..][1..] == items[|offers| + 1..]
  {
  }

  lemma FlushStops(items: seq<WriteObject>, offers: seq<Offer>, offer: Offer)
    requires AllTaken(items, offers) && |offers| < |items| && LeftAt(items[|offers|], offer)
    ensures Flushed(items, offers + [offer], items[|offers|..][0 := Advanced(items[|offers|], offer)])
  {
    assert (offers + [offer])[..|offers|] == offers;
  }

  lemma NothingTaken(items: seq<WriteObject>)
    ensures AllTaken(items, []) && items[0..] == items
  {
  }

  lemma AllFlushed(items: seq<WriteObject>, offers: seq<Offer>)
    requires AllTaken(items, offers) && items[|offers|..] == []
    ensures Flushed(items, offers, [])
  {
  }

  lemma StoppedHere(items: seq<WriteObject>, offers: seq<Offer>, left: seq<WriteObject>, offer: Offer)
    requires AllTaken(items, offers) && left == items[|offers|..] && left != [] && LeftAt(left[0], offer)
    ensures Flushed(items, offers + [offer], left[0 := Advanced(left[0], offer)])
  {
    FlushStops(items, offers, offer);
  }

  lemma TakenOfBoth(high: seq<WriteObject>, low: seq<WriteObject>, offers: seq<Offer>, more: seq<Offer>)
    requires AllTaken(high, offers) && |offers| == |high| && AllTaken(low, more)
    ensures AllTaken(high + low, offers + more)
  {
    hide Left;
    forall k | 0 <= k < |offers + more|
      ensures (offers + more)[k] == Offer(Left((high + low)[k]), Wrote(|Left((high + low)[k])|))
    {
      if k >= |high| {
        assert (offers + more)[k] == more[k - |high|];
      }
    }
  }

  lemma FlushOfBoth(high: seq<WriteObject>, low: seq<WriteObject>, offers: seq<Offer>, more: seq<Offer>,
                    rest: seq<WriteObject>)
    requires Flushed(high, offers, []) && Flushed(low, more, rest)
    ensures Flushed(high + low, offers + more, rest)
  {
    hide AllTaken, LeftAt, Advanced;
    if rest == [] {
      TakenOfBoth(high, low, offers, more);
    } else {
      var n := |low| - |rest|;
      TakenOfBoth(high, low, offers, more[..n]);
      assert (offers + more)[..|high| + n] == offers + more[..n];
      assert (high + low)[|high| + n..] == low[n..];
    }
  }

  lemma FlushOfHigh(high: seq<WriteObject>, low: seq<WriteObject>, offers: seq<Offer>, rest: seq<WriteObject>)
    requires Flushed(high, offers, rest) && (rest != [] || low == [])
    ensures Flushed(high + low, offers, rest + low)
  {
    hide AllTaken, LeftAt, Advanced;
    var n := |high| - |rest|;
    if low == [] {
      assert high + low == high && rest + low == rest;
    } else {
      hide AllTaken;
      TakenOfHigh(high, low, offers[..n]);
      assert (high + low)[n..] == high[n..] + low;
    }
  }

  lemma TakenOfHigh(high: seq<WriteObject>, low: seq<WriteObject>, offers: seq<Offer>)
    requires AllTaken(high, offers)
    ensures AllTaken(high + low, offers)
  {
    hide Left;
  }

  /** First the high queue, all of it, then the low one. */
  lemma FlushGoesOn(log0: seq<Offer>, log1: seq<Offer>, log2: seq<Offer>,
                    high: seq<WriteObject>, low: seq<WriteObject>, rest: seq<WriteObject>)
    requires log0 <= log1 <= log2 && Flushed(high, log1[|log0|..], []) && Flushed(low, log2[|log1|..], rest)
    ensures log0 <= log2 && Flushed(high + low, log2[|log0|..], rest)
  {
    hide Flushed;
    FlushOfBoth(high, low, log1[|log0|..], log2[|log1|..], rest);
    assert log2[|log0|..] == log1[|log0|..] + log2[|log1|..];
  }

  function Pow2(k: nat): nat {
    if k == 0 then 1 else 2 * Pow2(k - 1)
  }

  lemma PowersOfTwo(k: nat)
    ensures Pow2(21) == 2 * WARNING_SIZE && Pow2(k) > 0
  {
    assert Pow2(7) == 128;
    assert Pow2(14) == 0x4000;
    assert Pow2(21) == 0x20_0000;
  }

  /** Whether a direct write leaves the message with the buffer: not if the socket took nothing of it. */
  ghost predicate Kept(r: WriteResult, buff: seq<Byte>) {
    r == WouldBlock || (r.Wrote? && (r.n > 0 || buff == []))
  }

  /** The state of a buffer, its socket and its records. */
  datatype Shot = Shot(log: seq<Offer>, wire: seq<Byte>, sends: seq<Sent>, done: seq<nat>,
                       highIds: seq<nat>, lowIds: seq<nat>, objs: seq<WriteObject>, low: seq<WriteObject>,
                       closing: bool)

  /** Refused when closing; queued whole when something is waiting; else as far as the socket takes it,
      and the rest queued high. */
  ghost predicate SendStep(s: Shot, buff: seq<Byte>, isLow: bool, s': Shot) {
    if s.closing then s' == s
    else if s.objs != [] then
      var o, id := WriteObject(0, buff), |s.sends|;
      s' == s.(sends := s.sends + [Sent(buff, isLow)],
               objs := if isLow then s.objs else s.objs + [o], highIds := if isLow then s.highIds else s.highIds + [id],
               low := if isLow then s.low + [o] else s.low, lowIds := if isLow then s.lowIds + [id] else s.lowIds)
    else
      && |s'.log| == |s.log| + 1
      && var r := s'.log[|s.log|].result;
         var kept, whole := Kept(r, buff), r == Wrote(|buff|);
         && Taken(r) <= |buff|
         && s' == s.(log := s.log + [Offer(buff, r)], wire := s.wire + buff[..Taken(r)],
                     sends := if kept then s.sends + [Sent(buff, isLow)] else s.sends,
                     done := if whole then s.done + [|s.sends|] else s.done,
                     objs := if kept && !whole then [WriteObject(Taken(r), buff)] else [],
                     highIds := if kept && !whole then [|s.sends|] else [])
  }

  lemma DirectStep(s: Shot, buff: seq<Byte>, isLow: bool, r: WriteResult, s': Shot)
    requires !s.closing && s.objs == [] && Taken(r) <= |buff|
    requires (s'.low, s'.lowIds, s'.closing) == (s.low, s.lowIds, false)
    requires s'.log == s.log + [Offer(buff, r)] && s'.wire == s.wire + buff[..Taken(r)]
    requires s'.sends == if Kept(r, buff) then s.sends + [Sent(buff, isLow)] else s.sends
    requires s'.done == if r == Wrote(|buff|) then s.done + [|s.sends|] else s.done
    requires s'.objs == (if Kept(r, buff) && r != Wrote(|buff|) then [WriteObject(Taken(r), buff)] else [])
    requires s'.highIds == (if Kept(r, buff) && r != Wrote(|buff|) then [|s.sends|] else [])
    ensures SendStep(s, buff, isLow, s')
  {
  }

  lemma StillClosing(s: Shot, buff: seq<Byte>, isLow: bool)
    requires s.closing
    ensures SendStep(s, buff, isLow, s)
  {
  }

  /** High and then low messages go out, oldest first, until one is not taken whole; if that is a low
      one it moves to the high queue. */
  ghost predicate FlushStep(s: Shot, s': Shot) {
    var n := |s.objs + s.low| - |s'.objs + s'.low|;
    && s.log <= s'.log && Flushed(s.objs + s.low, s'.log[|s.log|..], s'.objs + s'.low)
    && s'.sends == s.sends && s'.closing == s.closing && s'.wire == s.wire + WireOf(s'.log[|s.log|..])
    && 0 <= n && OldestDone(s.highIds, s.lowIds, s.done, n, s'.highIds, s'.lowIds, s'.done)
    && |s'.objs| == |s'.highIds| && |s'.low| == |s'.lowIds|
  }

  /** The n oldest of the queued messages are done; if the next one is low, it is now in the high queue. */
  ghost predicate OldestDone(high: seq<nat>, low: seq<nat>, done: seq<nat>, n: nat, high': seq<nat>, low': seq<nat>,
                             done': seq<nat>) {
    && n <= |high + low| && done' == done + (high + low)[..n] && high' + low' == (high + low)[n..]
    && |high'| == if n < |high| then |high| - n else if n < |high + low| then 1 else 0
  }

  lemma OnlyHighDone(high: seq<nat>, low: seq<nat>, done: seq<nat>, n: nat, high': seq<nat>, done': seq<nat>)
    requires n <= |high| && done' == done + high[..n] && high' == high[n..] && (high' != [] || low == [])
    ensures OldestDone(high, low, done, n, high', low, done')
  {
    SliceOfBoth(high, low, n);
  }

  lemma LowDoneToo(high: seq<nat>, low: seq<nat>, done: seq<nat>, n: nat, done1: seq<nat>, m: nat,
                   high': seq<nat>, low': seq<nat>, done': seq<nat>)
    requires n == |high| && done1 == done + high[..n]
    requires m <= |low| && done' == done1 + low[..m] && high' + low' == low[m..]
    requires |high'| == if m < |low| then 1 else 0
    ensures OldestDone(high, low, done, n + m, high', low', done')
  {
    SliceOfBoth(high, low, n + m);
    assert high[..n] == high;
  }

  lemma FlushStepIs(s: Shot, s': Shot, n: nat)
    requires s.log <= s'.log && Flushed(s.objs + s.low, s'.log[|s.log|..], s'.objs + s'.low)
    requires s'.sends == s.sends && s'.closing == s.closing && Honest(s.wire, s.log) && Honest(s'.wire, s'.log)
    requires |s.objs| == |s.highIds| && |s.low| == |s.lowIds| && |s'.objs| == |s'.highIds| && |s'.low| == |s'.lowIds|
    requires OldestDone(s.highIds, s.lowIds, s.done, n, s'.highIds, s'.lowIds, s'.done)
    ensures FlushStep(s, s') && n == |s.objs + s.low| - |s'.objs + s'.low|
  {
    hide Flushed, WireOf;
    WireGrows(s.log, s'.log);
    assert |s'.highIds + s'.lowIds| == |(s.highIds + s.lowIds)[n..]|;
  }

  lemma WireGrows(log: seq<Offer>, log': seq<Offer>)
    requires log <= log'
    ensures WireOf(log') == WireOf(log) + WireOf(log'[|log|..])
  {
    hide WireOf;
    WireOfConcat(log, log'[|log|..]);
    assert log' == log + log'[|log|..];
  }

  class ConnWriteBuffer {
    const socket: Socket
    var objs: seq<WriteObject>
    var low: seq<WriteObject>
    var isClosing: bool
    var wbSize: nat
    var warnSize: nat

    /** The messages accepted so far, and which of them are written out or queued. */
    ghost var sends: seq<Sent>
    ghost var done: seq<nat>
    ghost var highIds: seq<nat>
    ghost var lowIds: seq<nat>
    ghost var warnings: nat

    ghost predicate Valid()
      reads this, socket
    {
      && Honest(socket.wire, socket.log)
      && Fits(socket.wire, sends, done, highIds, lowIds, objs, low)
      && (low != [] ==> objs != [])
      && wbSize == |Unsent(objs + low)|
      && warnSize == if warnings == 0 then 0 else Pow2(20 + warnings)
    }

    ghost function Now(): Shot
      reads this, socket
    {
      Shot(socket.log, socket.wire, sends, done, highIds, lowIds, objs, low, isClosing)
    }

    constructor (s: Socket)
      requires s.wire == [] && s.log == [] && Honest(s.wire, s.log)
      ensures Valid() && socket == s && warnings == 0 && Now() == Shot([], [], [], [], [], [], [], [], false)
    {
      NothingQueued();
      hide Honest, Fits, Pow2;
      socket := s;
      objs, low, isClosing, wbSize, warnSize := [], [], false, 0, 0;
      sends, done, highIds, lowIds, warnings := [], [], [], [], 0;
    }

    /** Nothing is queued: try the socket. What it took in part waits in the high queue, whatever the
        priority; a message it refused outright is dropped, no byte of it sent. */
    method EntireWriteWhenEmpty(buff: seq<Byte>, isLow: bool) returns (arm: bool)
      requires Valid() && objs == [] && low == []
      modifies socket, this`objs, this`wbSize, this`sends, this`done, this`highIds
      ensures Valid() && arm == (objs != []) && socket.full == (socket.last == Wrote(|buff|))
      ensures var r := socket.last;
              var taken := if r.Wrote? then r.n else 0;
              var kept := Kept(r, buff);
              && taken <= |buff| && socket.wire == old(socket.wire) + buff[..taken]
              && sends == (if kept then old(sends) + [Sent(buff, isLow)] else old(sends))
              && (!kept ==> socket.wire == old(socket.wire))
              && objs == (if kept && r != Wrote(|buff|) then [WriteObject(taken, buff)] else [])
              && highIds == (if kept && r != Wrote(|buff|) then [|old(sends)|] else [])
              && done == (if r == Wrote(|buff|) then old(done) + [|old(sends)|] else old(done))
              && socket.log == old(socket.log) + [Offer(buff, r)]
      ensures match socket.last
              case Wrote(n) =>
                (if n == |buff| then objs == [] && sends == old(sends) + [Sent(buff, isLow)] && !arm
                 else if n > 0 then objs == [WriteObject(n, buff)] && sends == old(sends) + [Sent(buff, isLow)] && arm
                 else objs == [] && sends == old(sends) && !arm)
              case WouldBlock => objs == [WriteObject(0, buff)] && sends == old(sends) + [Sent(buff, isLow)] && arm
              case _ => objs == [] && sends == old(sends) && !arm
    {
      hide Honest, Fits, Pow2, Unsent;
      ghost var wire := socket.wire;
      var m := Sent(buff, isLow);
      NobodyWaits(wbSize);
      var r := socket.Write(buff);
      if r == Wrote(|buff|) {
        SentDirectly(wire, sends, done, m);
        assert buff[..|buff|] == buff;
        done, sends := done + [|sends|], sends + [m];
        arm := false;
      } else if r == WouldBlock || (r.Wrote? && r.n > 0) {
        var n := if r.Wrote? then r.n else 0;
        assert socket.wire == wire + buff[..n];
        QueueRest(m, n, wire);
        arm := true;
      } else {
        assert wire + buff[..0] == wire;
        arm := false;
      }
    }

    /** n bytes of the message are out; it waits in the high queue for the rest to go. */
    method QueueRest(m: Sent, n: nat, ghost wire: seq<Byte>)
      requires Honest(socket.wire, socket.log) && objs == [] && low == [] && lowIds == [] && wbSize == 0
      requires warnSize == if warnings == 0 then 0 else Pow2(20 + warnings)
      requires n <= |m.bytes| && socket.wire == wire + m.bytes[..n] && Fits(wire, sends, done, [], [], [], [])
      modifies this`objs, this`wbSize, this`sends, this`highIds
      ensures Valid() && objs == [WriteObject(n, m.bytes)] && sends == old(sends) + [m] && highIds == [|old(sends)|]
    {
      hide Honest, Fits, Pow2, Unsent;
      SentPartly(wire, sends, done, m, n);
      objs := [WriteObject(n, m.bytes)];
      highIds, sends := [|sends|], sends + [m];
      wbSize := |m.bytes| - n;
      assert objs + low == [WriteObject(n, m.bytes)] + [];
    }

    lemma NobodyWaits(size: nat)
      requires Valid() && objs == [] && low == [] && size == wbSize
      ensures highIds == [] && lowIds == [] && size == 0 && Fits(socket.wire, sends, done, [], [], [], [])
    {
      FitsCounts(socket.wire, sends, done, highIds, lowIds, objs, low);
      hide Fits;
      assert objs + low == [];
    }

    method EntireWriteWhenNotEmpty(buff: seq<Byte>, isLow: bool)
      requires Valid() && objs + low != []
      modifies this`objs, this`low, this`wbSize, this`sends, this`highIds, this`lowIds
      ensures !isClosing && old(objs) != [] ==> SendStep(old(Now()), buff, isLow, Now())
      ensures Valid()
      ensures sends == old(sends) + [Sent(buff, isLow)]
      ensures objs == old(objs) + (if isLow then [] else [WriteObject(0, buff)])
      ensures low == old(low) + (if isLow then [WriteObject(0, buff)] else [])
      ensures highIds == old(highIds) + (if isLow then [] else [|old(sends)|])
      ensures lowIds == old(lowIds) + (if isLow then [|old(sends)|] else [])
    {
      hide Honest, Fits, Pow2, Unsent;
      var o := WriteObject(0, buff);
      ghost var m := Sent(buff, isLow);
      if isLow {
        JoinLow(socket.wire, sends, done, highIds, lowIds, objs, low, m);
        low, lowIds := low + [o], lowIds + [|sends|];
      } else {
        JoinHigh(socket.wire, sends, done, highIds, lowIds, objs, low, m);
        objs, highIds := objs + [o], highIds + [|sends|];
      }
      sends := sends + [m];
      wbSize := wbSize + |buff|;
    }

    /** One write(2) for the front of a queue: 1 says the message is out, 0 that the socket is full,
        -1 that it failed. `sentBytes` counts what has gone out. */
    method WriteFrontFromList(lst: seq<WriteObject>, written: nat)
      returns (code: int, rest: seq<WriteObject>, sentBytes: nat)
      requires (lst != [] ==> lst[0].start <= |lst[0].buff|) && Honest(socket.wire, socket.log)
      modifies socket
      ensures Honest(socket.wire, socket.log)
      ensures lst == [] ==> code == 0 && rest == [] && sentBytes == written && socket.wire == old(socket.wire)
      ensures socket.log == old(socket.log) + if lst == [] then [] else [Offer(Left(lst[0]), socket.last)]
      ensures lst != [] ==>
                && (code == 1 <==> socket.last == Wrote(|Left(lst[0])|))
                && sentBytes == written + Taken(socket.last) && Taken(socket.last) <= |Left(lst[0])|
      ensures lst != [] ==>
                && code in {-1, 0, 1}
                && (code == 1 <==> socket.full)
                && written <= sentBytes <= written + |Left(lst[0])|
                && socket.wire == old(socket.wire) + Left(lst[0])[..sentBytes - written]
                && (code == 1 ==> rest == lst[1..] && sentBytes == written + |Left(lst[0])|)
                && (code != 1 ==> rest == lst[0 := lst[0].(start := lst[0].start + sentBytes - written)])
                && (code == -1 <==>
                      socket.last in {Interrupted, Failed} || (socket.last == Wrote(0) && Left(lst[0]) != []))
                && (code == -1 ==> sentBytes == written)
    {
      rest, sentBytes := lst, written;
      if lst == [] {
        return 0, rest, sentBytes;
      }
      var obj := lst[0];
      var data := obj.buff[obj.start..];
      var r := socket.Write(data);
      if r == Wrote(|data|) {
        return 1, lst[1..], written + |data|;
      }
      if r == WouldBlock || (r.Wrote? && r.n > 0) {
        var n := if r.Wrote? then r.n else 0;
        return 0, lst[0 := obj.(start := obj.start + n)], written + n;
      }
      return -1, rest, sentBytes;
    }

    /** Write the high queue out as far as the socket goes: n of its messages are done. */
    method FlushHigh() returns (written: nat, ghost n: nat)
      requires Valid()
      modifies socket, this`objs, this`done, this`highIds
      ensures Honest(socket.wire, socket.log)
      ensures Fits(socket.wire, sends, done, highIds, lowIds, objs, low)
      ensures n <= |old(highIds)| && done == old(done) + old(highIds)[..n] && highIds == old(highIds)[n..]
      ensures |Unsent(objs + low)| + written == wbSize
      ensures |socket.wire| == |old(socket.wire)| + written && old(socket.wire) <= socket.wire
      ensures objs == [] || !socket.full
      ensures old(socket.log) <= socket.log && Flushed(old(objs), socket.log[|old(socket.log)|..], objs)
    {
      hide Honest, Fits, Unsent, Left, Flushed, AllTaken, LeftAt, Advanced, Pow2;
      ghost var log0, items0, offers := socket.log, objs, [];
      NothingTaken(items0);
      var code := 1;
      written, n := 0, 0;
      while code == 1
        invariant Honest(socket.wire, socket.log)
        invariant Fits(socket.wire, sends, done, highIds, lowIds, objs, low)
        invariant n <= |old(highIds)| && done == old(done) + old(highIds)[..n] && highIds == old(highIds)[n..]
        invariant |Unsent(objs + low)| + written == wbSize
        invariant |socket.wire| == |old(socket.wire)| + written && old(socket.wire) <= socket.wire
        invariant code != 1 ==> objs == [] || !socket.full
        invariant socket.log == log0 + offers && (code != 1 ==> Flushed(items0, offers, objs))
        invariant code == 1 ==> AllTaken(items0, offers) && |offers| == n <= |items0| && objs == items0[n..]
        decreases |objs| + if code == 1 then 1 else 0
      {
        FitsCounts(socket.wire, sends, done, highIds, lowIds, objs, low);
        ghost var wire, was := socket.wire, objs;
        var before := written;
        code, objs, written := WriteFrontFromList(objs, written);
        ghost var offered := offers;
        if was == [] {
          AllFlushed(items0, offers);
        } else {
          offers := offers + [Offer(Left(was[0]), socket.last)];
        }
        if code == 1 {
          OneMoreTaken(items0, offered, Offer(Left(was[0]), socket.last));
          HighDone(wire, sends, done, highIds, lowIds, was, low);
          done, highIds, n := done + [highIds[0]], highIds[1..], n + 1;
          assert socket.wire == wire + Left(was[0]) by { assert Left(was[0])[..|Left(was[0])|] == Left(was[0]); }
        } else if was != [] {
          Stays(was[0], socket.last);
          StoppedHere(items0, offered, was, Offer(Left(was[0]), socket.last));
          HighPartly(wire, sends, done, highIds, lowIds, was, low, written - before);
        }
      }
    }

    /** The same for the low queue, once the high one is empty. */
    method FlushLow() returns (written: nat, ghost n: nat)
      requires Fits(socket.wire, sends, done, highIds, lowIds, objs, low) && objs == []
      requires Honest(socket.wire, socket.log)
      modifies socket, this`low, this`done, this`lowIds
      ensures Honest(socket.wire, socket.log)
      ensures Fits(socket.wire, sends, done, highIds, lowIds, objs, low)
      ensures n <= |old(lowIds)| && done == old(done) + old(lowIds)[..n] && lowIds == old(lowIds)[n..]
      ensures |Unsent(objs + low)| + written == |old(Unsent(objs + low))|
      ensures |socket.wire| == |old(socket.wire)| + written && old(socket.wire) <= socket.wire
      ensures low == [] || !socket.full
      ensures old(socket.log) <= socket.log && Flushed(old(low), socket.log[|old(socket.log)|..], low)
    {
      hide Honest, Fits, Unsent, Left, Flushed, AllTaken, LeftAt, Advanced, Pow2;
      ghost var log0, items0, offers := socket.log, low, [];
      NothingTaken(items0);
      var code := 1;
      written, n := 0, 0;
      FitsCounts(socket.wire, sends, done, highIds, lowIds, objs, low);
      while code == 1
        invariant Honest(socket.wire, socket.log)
        invariant Fits(socket.wire, sends, done, highIds, lowIds, objs, low)
        invariant n <= |old(lowIds)| && done == old(done) + old(lowIds)[..n] && lowIds == old(lowIds)[n..]
        invariant |Unsent(objs + low)| + written == |old(Unsent(objs + low))|
        invariant |socket.wire| == |old(socket.wire)| + written && old(socket.wire) <= socket.wire
        invariant code != 1 ==> low == [] || !socket.full
        invariant socket.log == log0 + offers && (code != 1 ==> Flushed(items0, offers, low))
        invariant code == 1 ==> AllTaken(items0, offers) && |offers| == n <= |items0| && low == items0[n..]
        decreases |low| + if code == 1 then 1 else 0
      {
        FitsCounts(socket.wire, sends, done, highIds, lowIds, objs, low);
        ghost var wire, was := socket.wire, low;
        var before := written;
        code, low, written := WriteFrontFromList(low, written);
        ghost var offered := offers;
        if was == [] {
          AllFlushed(items0, offers);
        } else {
          offers := offers + [Offer(Left(was[0]), socket.last)];
        }
        if code == 1 {
          OneMoreTaken(items0, offered, Offer(Left(was[0]), socket.last));
          LowDone(wire, sends, done, lowIds, was);
          done, lowIds, n := done + [lowIds[0]], lowIds[1..], n + 1;
          assert socket.wire == wire + Left(was[0]) by { assert Left(was[0])[..|Left(was[0])|] == Left(was[0]); }
        } else if was != [] {
          Stays(was[0], socket.last);
          StoppedHere(items0, offered, was, Offer(Left(was[0]), socket.last));
          LowPartly(wire, sends, done, lowIds, was, written - before);
        }
      }
    }

    /** Flush low, then let its front, if one is left, go ahead of later high messages. */
    method FlushLowThenRaise() returns (written: nat, ghost n: nat)
      requires Fits(socket.wire, sends, done, highIds, lowIds, objs, low) && objs == []
      requires Honest(socket.wire, socket.log)
      modifies socket, this`objs, this`low, this`done, this`highIds, this`lowIds
      ensures Honest(socket.wire, socket.log)
      ensures Fits(socket.wire, sends, done, highIds, lowIds, objs, low)
      ensures n <= |old(lowIds)| && done == old(done) + old(lowIds)[..n] && highIds + lowIds == old(lowIds)[n..]
      ensures |highIds| == |objs| == if n < |old(lowIds)| then 1 else 0
      ensures old(socket.log) <= socket.log && Flushed(old(low), socket.log[|old(socket.log)|..], objs + low)
      ensures |Unsent(objs + low)| + written == |old(Unsent(objs + low))|
      ensures |socket.wire| == |old(socket.wire)| + written && old(socket.wire) <= socket.wire
      ensures objs == [] || !socket.full
    {
      hide Honest, Fits, Unsent, Left, Flushed;
      FitsCounts(socket.wire, sends, done, highIds, lowIds, objs, low);
      written, n := FlushLow();
      ghost var left := low;
      assert objs + low == left;
      FitsCounts(socket.wire, sends, done, highIds, lowIds, objs, low);
      assert highIds == [] && highIds + lowIds == lowIds && |low| == |old(lowIds)| - n;
      if low != [] {
        LowRaised(socket.wire, sends, done, lowIds, low, 1);
        assert lowIds[..1] + lowIds[1..] == lowIds && low[..1] == [low[0]];
        highIds, lowIds := lowIds[..1], lowIds[1..];
        objs, low := [low[0]], low[1..];
        assert objs + low == left;
      }
    }

    /** Flush high, and once it is empty low. The `n` oldest queued messages are done. */
    method FlushBoth() returns (written: nat, ghost n: nat)
      requires Valid()
      modifies socket, this`objs, this`low, this`done, this`highIds, this`lowIds
      ensures Honest(socket.wire, socket.log)
      ensures Fits(socket.wire, sends, done, highIds, lowIds, objs, low) && (low != [] ==> objs != [])
      ensures OldestDone(old(highIds), old(lowIds), old(done), n, highIds, lowIds, done)
      ensures |Unsent(objs + low)| + written == wbSize
      ensures |socket.wire| == |old(socket.wire)| + written && old(socket.wire) <= socket.wire
      ensures objs == [] || !socket.full
      ensures old(socket.log) <= socket.log
      ensures Flushed(old(objs + low), socket.log[|old(socket.log)|..], objs + low)
    {
      hide Honest, Fits, Pow2, Unsent, Left, Flushed, BytesOf, Whole, AllTaken;
      hide OldestDone;
      ghost var high0, low0, done0, log0, items0 := highIds, lowIds, done, socket.log, objs;
      FitsCounts(socket.wire, sends, done, highIds, lowIds, objs, low);
      written, n := FlushHigh();
      FitsCounts(socket.wire, sends, done, highIds, lowIds, objs, low);
      if objs != [] || low == [] {
        OnlyHighDone(high0, low0, done0, n, highIds, done);
        FlushOfHigh(items0, low, socket.log[|log0|..], objs);
        return;
      }
      ghost var log1, back, done1, n1 := socket.log, low, done, n;
      ghost var m;
      var more;
      more, m := FlushLowThenRaise();
      written, n := written + more, n + m;
      FitsCounts(socket.wire, sends, done, highIds, lowIds, objs, low);
      FlushGoesOn(log0, log1, socket.log, items0, back, objs + low);
      LowDoneToo(high0, low0, done0, n1, done1, m, highIds, lowIds, done);
    }

    /** EPOLLOUT: flush what the socket takes; then tell who waits for an empty buffer. */
    method OnWriteable() returns (notify: bool, disarm: bool, ghost n: nat)
      requires Valid()
      modifies socket, this`objs, this`low, this`wbSize, this`done, this`highIds, this`lowIds
      ensures Valid()
      ensures |socket.wire| == |old(socket.wire)| + old(wbSize) - wbSize
      ensures FlushStep(old(Now()), Now()) && n == |old(objs + low)| - |objs + low|
      ensures objs == [] || !socket.full
      ensures notify == (objs + low == [] && isClosing) && disarm == (objs + low == [] && !isClosing)
    {
      hide Honest, Fits, Pow2, Unsent, Left, Flushed, FlushStep, OldestDone;
      ghost var was := Now();
      FitsCounts(socket.wire, sends, done, highIds, lowIds, objs, low);
      var written;
      written, n := FlushBoth();
      FitsCounts(socket.wire, sends, done, highIds, lowIds, objs, low);
      FlushStepIs(was, Now(), n);
      // the clamp never acts
      assert written <= wbSize;
      wbSize := wbSize - (if written > wbSize then wbSize else written);
      notify := objs == [] && low == [] && isClosing;
      disarm := objs == [] && low == [] && !isClosing;
    }

    /** A message goes to the socket at once if no other waits, and otherwise behind those that do. */
    method WriteOrQueue(buff: seq<Byte>, isLow: bool) returns (arm: bool)
      requires Valid() && !isClosing
      modifies socket, this`objs, this`low, this`wbSize, this`sends, this`done, this`highIds, this`lowIds
      ensures Valid() && SendStep(old(Now()), buff, isLow, Now())
      ensures arm == (old(objs) == [] && objs != [])
      ensures old(objs) == [] ==>
                match socket.last
                case Wrote(n) =>
                  (if n == |buff| then objs == [] && sends == old(sends) + [Sent(buff, isLow)] && !arm
                   else if n > 0 then objs == [WriteObject(n, buff)] && sends == old(sends) + [Sent(buff, isLow)] && arm
                   else objs == [] && sends == old(sends) && !arm)
                case WouldBlock => objs == [WriteObject(0, buff)] && sends == old(sends) + [Sent(buff, isLow)] && arm
                case _ => objs == [] && sends == old(sends) && !arm
      ensures old(objs) != [] ==> sends == old(sends) + [Sent(buff, isLow)]
    {
      hide Honest, Fits, Unsent, BytesOf, Kept, SendStep, Pow2;
      FitsCounts(socket.wire, sends, done, highIds, lowIds, objs, low);
      arm := false;
      if objs == [] && low == [] {
        ghost var was := Now();
        arm := EntireWriteWhenEmpty(buff, isLow);
        DirectStep(was, buff, isLow, socket.last, Now());
      } else {
        EntireWriteWhenNotEmpty(buff, isLow);
      }
    }

    /** Refused only on a closing connection. A backlog warning, with its size in KB rounded up, comes
        at the first send that leaves 1 MB or more and then each time the threshold doubles. */
    method SendBuffer(buff: seq<Byte>, isLow: bool) returns (code: int, warnKb: Option<nat>, arm: bool)
      requires Valid()
      modifies socket, this
      ensures Valid() && isClosing == old(isClosing)
      ensures code == if isClosing then -1 else 0
      ensures SendStep(old(Now()), buff, isLow, Now())
      ensures !isClosing && old(objs) == [] ==>
                match socket.last
                case Wrote(n) =>
                  (if n == |buff| then objs == [] && sends == old(sends) + [Sent(buff, isLow)] && !arm
                   else if n > 0 then objs == [WriteObject(n, buff)] && sends == old(sends) + [Sent(buff, isLow)] && arm
                   else objs == [] && sends == old(sends) && !arm)
                case WouldBlock => objs == [WriteObject(0, buff)] && sends == old(sends) + [Sent(buff, isLow)] && arm
                case _ => objs == [] && sends == old(sends) && !arm
      ensures !isClosing && old(objs) != [] ==> sends == old(sends) + [Sent(buff, isLow)] && !arm
      ensures isClosing ==> sends == old(sends) && !arm
      ensures warnKb.Some? <==>
                code == 0 && wbSize >= 0x10_0000 && (old(warnings) > 0 ==> wbSize >= Pow2(20 + old(warnings)))
      ensures warnKb.Some? ==> 1024 * (warnKb.value - 1) < wbSize <= 1024 * warnKb.value
      ensures arm == (code == 0 && old(objs) == [] && objs != [])
      ensures warnings == old(warnings) + if warnKb.Some? then 1 else 0
    {
      hide Honest, Fits, Unsent, BytesOf, Kept, Pow2;
      if isClosing {
        StillClosing(Now(), buff, isLow);
        return -1, None, false;
      }
      hide SendStep;
      arm := WriteOrQueue(buff, isLow);
      warnKb := WarnOfBacklog();
      code := 0;
    }

    method WarnOfBacklog() returns (warnKb: Option<nat>)
      requires Valid()
      modifies this`warnSize, this`warnings
      ensures Valid()
      ensures warnKb.Some? <==> wbSize >= WARNING_SIZE && (old(warnings) > 0 ==> wbSize >= Pow2(20 + old(warnings)))
      ensures warnKb.Some? ==> 1024 * (warnKb.value - 1) < wbSize <= 1024 * warnKb.value
      ensures warnings == old(warnings) + if warnKb.Some? then 1 else 0
    {
      hide Honest, Fits, Unsent;
      warnKb := None;
      if wbSize >= WARNING_SIZE && wbSize >= warnSize {
        PowersOfTwo(20 + warnings);
        warnSize := if warnSize == 0 then WARNING_SIZE * 2 else warnSize * 2;
        warnings := warnings + 1;
        warnKb := Some((wbSize + 1023) / 1024);
      }
    }

    /** Closing waits for the queues; the caller closes now if they are empty. */
    method LingerClose() returns (closeNow: bool)
      requires Valid()
      modifies this`isClosing
      ensures Valid() && Now() == old(Now()).(closing := true)
      ensures closeNow == (!old(isClosing) && objs + low == [])
    {
      hide Honest, Fits, Unsent, Pow2;
      if isClosing {
        return false;
      }
      isClosing := true;
      closeNow := objs == [] && low == [];
    }
  }

  // ----- whole runs -----

  datatype Op = Send(bytes: seq<Byte>, low: bool) | Writeable | Linger

  ghost predicate Step(s: Shot, op: Op, s': Shot) {
    match op
    case Send(bytes, isLow) => SendStep(s, bytes, isLow, s')
    case Writeable => FlushStep(s, s')
    case Linger => s' == s.(closing := true)
  }

  /** The states of a run, one before each operation and one at the end. */
  ghost predicate Follows(ops: seq<Op>, trace: seq<Shot>) {
    && |trace| == |ops| + 1 && trace[0] == Shot([], [], [], [], [], [], [], [], false)
    && (forall i | 0 <= i < |ops| :: Step(trace[i], ops[i], trace[i + 1]))
  }

  /** Whether the i-th operation is a send that the buffer takes: not after a close, and when nothing is
      waiting only if the socket does not refuse the message outright. A full socket does not refuse. */
  ghost predicate AcceptedAt(ops: seq<Op>, trace: seq<Shot>, i: nat)
    requires i < |ops| && |trace| == |ops| + 1
  {
    && ops[i].Send? && (forall k | 0 <= k < i :: !ops[k].Linger?)
    && (trace[i].objs == [] ==>
          && |trace[i + 1].log| > |trace[i].log|
          && var r := trace[i + 1].log[|trace[i].log|].result;
             r != Interrupted && r != Failed && (r == Wrote(0) ==> ops[i].bytes == []))
  }

  ghost function Accepted(ops: seq<Op>, trace: seq<Shot>, n: nat): seq<Sent>
    requires n <= |ops| && |trace| == |ops| + 1
  {
    if n == 0 then []
    else Accepted(ops, trace, n - 1) + if AcceptedAt(ops, trace, n - 1) then [Sent(ops[n - 1].bytes, ops[n - 1].low)]
      else []
  }

  lemma ClosingStep(s: Shot, op: Op, s': Shot)
    requires Step(s, op, s')
    ensures s'.closing <==> s.closing || op.Linger?
  {
    hide Flushed;
  }

  lemma SendsStep(s: Shot, op: Op, s': Shot)
    requires Step(s, op, s')
    ensures var taken :=
              && op.Send? && !s.closing
              && (s.objs == [] ==>
                    && |s'.log| > |s.log|
                    && var r := s'.log[|s.log|].result;
                       r != Interrupted && r != Failed && (r == Wrote(0) ==> op.bytes == []));
            s'.sends == s.sends + if taken then [Sent(op.bytes, op.low)] else []
  {
    hide Flushed;
    assert s.sends + [] == s.sends;
  }

  /** A send that the buffer takes while nothing waits: what write(2) has not taken waits, in the high queue. */
  lemma RestWaits(s: Shot, bytes: seq<Byte>, isLow: bool, s': Shot)
    requires Step(s, Send(bytes, isLow), s') && !s.closing && s.objs == []
    ensures |s'.log| == |s.log| + 1 && s'.log[|s.log|].data == bytes && s'.low == s.low
    ensures match s'.log[|s.log|].result
            case WouldBlock => s'.objs == [WriteObject(0, bytes)] && s'.wire == s.wire
            case Wrote(n) =>
              && n <= |bytes| && s'.wire == s.wire + bytes[..n]
              && s'.objs == if 0 < n < |bytes| then [WriteObject(n, bytes)] else []
            case _ => s'.objs == [] && s'.wire == s.wire
  {
    assert s.wire + bytes[..0] == s.wire;
  }

  lemma {:induction false} ClosingAfterLinger(ops: seq<Op>, trace: seq<Shot>, n: nat)
    requires Follows(ops, trace) && n <= |ops|
    ensures trace[n].closing <==> exists k :: 0 <= k < n && ops[k].Linger?
  {
    hide Step;
    if n > 0 {
      ClosingAfterLinger(ops, trace, n - 1);
      ClosingStep(trace[n - 1], ops[n - 1], trace[n]);
    }
  }

  /** In every run the buffer is responsible for exactly the messages of the sends it has to accept. */
  lemma {:induction false} AcceptedExactly(ops: seq<Op>, trace: seq<Shot>, n: nat)
    requires Follows(ops, trace) && n <= |ops|
    ensures trace[n].sends == Accepted(ops, trace, n)
  {
    hide Step;
    if n > 0 {
      AcceptedExactly(ops, trace, n - 1);
      ClosingAfterLinger(ops, trace, n - 1);
      SendsStep(trace[n - 1], ops[n - 1], trace[n]);
    }
  }

  // ----- every state of a run is sound -----

  ghost predicate Sound(s: Shot) {
    Fits(s.wire, s.sends, s.done, s.highIds, s.lowIds, s.objs, s.low) && (s.low != [] ==> s.objs != [])
  }

  lemma SendSound(s: Shot, buff: seq<Byte>, isLow: bool, s': Shot)
    requires Sound(s) && SendStep(s, buff, isLow, s')
    ensures Sound(s')
  {
    FitsCounts(s.wire, s.sends, s.done, s.highIds, s.lowIds, s.objs, s.low);
    hide Fits, Unsent, Whole;
    if !s.closing {
      var m := Sent(buff, isLow);
      if s.objs == [] {
        var r := s'.log[|s.log|].result;
        assert s.highIds == [] && s.lowIds == [] && s.low == [];
        if r == Wrote(|buff|) {
          SentDirectly(s.wire, s.sends, s.done, m);
          assert buff[..|buff|] == buff;
        } else if Kept(r, buff) {
          SentPartly(s.wire, s.sends, s.done, m, Taken(r));
        } else {
          assert s.wire + buff[..Taken(r)] == s.wire;
        }
      } else if isLow {
        JoinLow(s.wire, s.sends, s.done, s.highIds, s.lowIds, s.objs, s.low, m);
      } else {
        JoinHigh(s.wire, s.sends, s.done, s.highIds, s.lowIds, s.objs, s.low, m);
      }
    }
  }

  lemma WireOfOne(o: Offer)
    ensures WireOf([o]) == TakenOf(o)
  {
    hide TakenOf;
    assert [o][..0] == [];
    assert WireOf([]) + TakenOf(o) == TakenOf(o);
  }

  lemma FirstOffer(offers: seq<Offer>)
    requires offers != []
    ensures WireOf(offers) == TakenOf(offers[0]) + WireOf(offers[1..])
  {
    WireOfOne(offers[0]);
    hide WireOf, TakenOf;
    WireOfConcat([offers[0]], offers[1..]);
    assert offers == [offers[0]] + offers[1..];
  }

  lemma TailOfIds(done: seq<nat>, ids: seq<nat>, n: nat)
    requires 0 < n <= |ids|
    ensures done + [ids[0]] + ids[1..][..n - 1] == done + ids[..n] && ids[1..][n - 1..] == ids[n..]
  {
    assert [ids[0]] + ids[1..][..n - 1] == ids[..n];
  }

  /** What a flush sends of the queues is what it takes off them. */
  lemma {:induction false} FlushedBuffered(wire: seq<Byte>, sends: seq<Sent>, done: seq<nat>, items: seq<WriteObject>,
                                           ids: seq<nat>, offers: seq<Offer>, rest: seq<WriteObject>)
    requires Buffered(wire, sends, done, items, ids) && |ids| == |items| && Flushed(items, offers, rest)
    requires |rest| <= |items|
    ensures var n := |items| - |rest|; Buffered(wire + WireOf(offers), sends, done + ids[..n], rest, ids[n..])
    decreases |items|
  {
    hide Buffered, Flushed, WireOf, TakenOf, Left;
    var n := |items| - |rest|;
    if n == 0 {
      assert ids[..0] == [] && ids[0..] == ids && done + [] == done;
      FlushedNothing(wire, sends, done, items, ids, offers, rest);
    } else {
      FirstFlushed(items, offers, rest);
      FirstOffer(offers);
      FrontDone(wire, sends, done, items, ids);
      FlushedBuffered(wire + Left(items[0]), sends, done + [ids[0]], items[1..], ids[1..], offers[1..], rest);
      assert wire + Left(items[0]) + WireOf(offers[1..]) == wire + WireOf(offers);
      TailOfIds(done, ids, n);
    }
  }

  lemma FirstFlushed(items: seq<WriteObject>, offers: seq<Offer>, rest: seq<WriteObject>)
    requires Flushed(items, offers, rest) && |rest| < |items|
    ensures offers != [] && TakenOf(offers[0]) == Left(items[0]) && Flushed(items[1..], offers[1..], rest)
  {
    var n := |items| - |rest|;
    hide Left;
    if rest != [] {
      assert offers[..n][0] == offers[0];
      assert offers[1..][..n - 1] == offers[..n][1..];
      assert items[1..][n - 1..] == items[n..];
    }
  }

  /** The first message was not taken whole, or there is none. */
  lemma FlushedNothing(wire: seq<Byte>, sends: seq<Sent>, done: seq<nat>, items: seq<WriteObject>, ids: seq<nat>,
                       offers: seq<Offer>, rest: seq<WriteObject>)
    requires Buffered(wire, sends, done, items, ids) && |ids| == |items| && Flushed(items, offers, rest)
    requires |rest| == |items|
    ensures Buffered(wire + WireOf(offers), sends, done, rest, ids)
  {
    if items == [] {
      NoOffers(offers);
      assert wire + [] == wire && rest == items;
    } else {
      FirstStays(items, offers, rest);
      hide Flushed, Buffered, WireOf, Left;
      FrontPartly(wire, sends, done, items, ids, Taken(offers[0].result));
    }
  }

  lemma NoOffers(offers: seq<Offer>)
    requires Flushed([], offers, [])
    ensures WireOf(offers) == []
  {
  }

  lemma FirstStays(items: seq<WriteObject>, offers: seq<Offer>, rest: seq<WriteObject>)
    requires Flushed(items, offers, rest) && |rest| == |items| > 0
    ensures offers != [] && Taken(offers[0].result) <= |Left(items[0])|
    ensures rest == items[0 := items[0].(start := items[0].start + Taken(offers[0].result))]
    ensures WireOf(offers) == Left(items[0])[..Taken(offers[0].result)]
  {
    hide Left;
    assert offers == [offers[0]] && items[0..] == items;
    WireOfOne(offers[0]);
    hide WireOf, AllTaken;
  }

  lemma FlushSound(s: Shot, s': Shot)
    requires Sound(s) && FlushStep(s, s')
    ensures Sound(s')
  {
    var n, ids := |s.objs + s.low| - |s'.objs + s'.low|, s.highIds + s.lowIds;
    hide Buffered, Flushed, WireOf, EachOnce, Prioritised;
    FlushedBuffered(s.wire, s.sends, s.done, s.objs + s.low, ids, s'.log[|s.log|..], s'.objs + s'.low);
    assert s.done + ids[..n] + ids[n..] == s.done + ids;
    forall i | 0 <= i < |s'.lowIds| ensures IsLow(s'.sends, s'.lowIds[i]) {
      LowFromLow(s, s', n, i);
    }
  }

  lemma LowFromLow(s: Shot, s': Shot, n: nat, i: nat)
    requires OldestDone(s.highIds, s.lowIds, s.done, n, s'.highIds, s'.lowIds, s'.done) && i < |s'.lowIds|
    ensures s'.lowIds[i] in s.lowIds
  {
    var ids, ids' := s.highIds + s.lowIds, s'.highIds + s'.lowIds;
    assert s'.lowIds[i] == ids'[|s'.highIds| + i] == ids[n + |s'.highIds| + i];
    assert ids[n + |s'.highIds| + i] == s.lowIds[n + |s'.highIds| + i - |s.highIds|];
  }

  lemma {:induction false} RunSound(ops: seq<Op>, trace: seq<Shot>, n: nat)
    requires Follows(ops, trace) && n <= |ops|
    ensures Sound(trace[n])
  {
    hide SendStep, FlushStep, Sound;
    if n == 0 {
      StartSound();
    } else {
      RunSound(ops, trace, n - 1);
      assert Step(trace[n - 1], ops[n - 1], trace[n]);
      match ops[n - 1]
      case Send(bytes, isLow) => SendSound(trace[n - 1], bytes, isLow, trace[n]);
      case Writeable => FlushSound(trace[n - 1], trace[n]);
      case Linger => StillSound(trace[n - 1], trace[n]);
    }
  }

  lemma StartSound()
    ensures Sound(Shot([], [], [], [], [], [], [], [], false))
  {
    NothingQueued();
    hide Fits;
  }

  lemma StillSound(s: Shot, s': Shot)
    requires Sound(s) && s' == s.(closing := true)
    ensures Sound(s')
  {
  }

  /** At every moment of a run, whatever the socket does: the wire holds whole accepted messages in an
      order that keeps each class in send order, and then the sent part of the high front; with what is
      queued they are all of them. */
  lemma WireHoldsAccepted(ops: seq<Op>, trace: seq<Shot>, n: nat)
    requires Follows(ops, trace) && n <= |ops|
    ensures var s, accepted := trace[n], Accepted(ops, trace, n);
            var order := s.done + (s.highIds + s.lowIds);
            && EachOnce(accepted, order) && Prioritised(accepted, order)
            && (s.objs != [] ==> s.objs[0].start <= |s.objs[0].buff|)
            && s.wire == Whole(accepted, s.done) + (if s.objs == [] then [] else s.objs[0].buff[..s.objs[0].start])
            && s.wire + Unsent(s.objs + s.low) == Whole(accepted, order)
  {
    RunSound(ops, trace, n);
    AcceptedExactly(ops, trace, n);
    var s := trace[n];
    FitsMeans(s.wire, s.sends, s.done, s.highIds, s.lowIds, s.objs, s.low);
    hide Follows, Accepted, Fits, EachOnce, Prioritised, Whole, Unsent;
  }

  method Perform(wb: ConnWriteBuffer, op: Op)
    requires wb.Valid()
    modifies wb, wb.socket
    ensures wb.Valid() && Step(old(wb.Now()), op, wb.Now())
  {
    hide Fits, Unsent, Whole, BytesOf, Pow2, Left, SendStep, FlushStep;
    match op {
      case Send(bytes, isLow) => var code, warnKb, arm := wb.SendBuffer(bytes, isLow);
      case Writeable => var notify, disarm, n := wb.OnWriteable();
      case Linger => var closeNow := wb.LingerClose();
    }
  }

  /** The states a run goes through, whatever the socket does. */
  method Run(ops: seq<Op>) returns (wb: ConnWriteBuffer, ghost trace: seq<Shot>)
    ensures fresh(wb) && wb.Valid() && Follows(ops, trace) && wb.Now() == trace[|ops|]
    ensures forall n | 0 <= n < |trace| :: Sound(trace[n])
  {
    hide Fits, Unsent, Pow2, Step;
    var socket := new Socket();
    wb := new ConnWriteBuffer(socket);
    trace := [wb.Now()];
    for i := 0 to |ops|
      invariant fresh(wb) && fresh(wb.socket) && wb.Valid()
      invariant Follows(ops[..i], trace) && wb.Now() == trace[i]
      invariant forall n | 0 <= n < |trace| :: Sound(trace[n])
    {
      ghost var was := trace;
      Perform(wb, ops[i]);
      trace := trace + [wb.Now()];
      OneMoreStep(ops, was, i, wb.Now());
    }
    assert ops[..|ops|] == ops;
  }

  lemma OneMoreStep(ops: seq<Op>, trace: seq<Shot>, i: nat, s: Shot)
    requires i < |ops| && Follows(ops[..i], trace) && Step(trace[i], ops[i], s)
    ensures Follows(ops[..i + 1], trace + [s])
  {
    hide Step;
  }

  lemma FitsMeans(wire: seq<Byte>, sends: seq<Sent>, done: seq<nat>, highIds: seq<nat>, lowIds: seq<nat>,
                  objs: seq<WriteObject>, low: seq<WriteObject>)
    requires Fits(wire, sends, done, highIds, lowIds, objs, low) && (low != [] ==> objs != [])
    ensures objs != [] ==> objs[0].start <= |objs[0].buff|
    ensures EachOnce(sends, done + (highIds + lowIds)) && Prioritised(sends, done + (highIds + lowIds))
    ensures wire == Whole(sends, done) + if objs == [] then [] else objs[0].buff[..objs[0].start]
    ensures wire + Unsent(objs + low) == Whole(sends, done + (highIds + lowIds))
  {
    WireIsPrefixOfOrder(wire, sends, done, objs + low, highIds + lowIds);
  }
}
