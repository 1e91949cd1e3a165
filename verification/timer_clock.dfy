/**
 Ticks and time: what the readings of the monotonic clock make of the ticks that a request waits for.
 */
module TimerClock {
  import opened TimerSchedule
  import opened TimerWheel

  // ----- ticks -----

  /** Every reading is less than 2^32 centiseconds (497 days) behind the one before it. */
  ghost predicate NoLeap(start: nat, ops: seq<Op>) {
    forall k | 0 <= k < |ops| && ops[k].Reading? :: ops[k].cp < PointOf(start, ops[..k]) + 0x1_0000_0000
  }

  /** By how much the readings went back, all in all. */
  ghost function SetBack(start: nat, ops: seq<Op>): nat {
    if ops == [] then 0 else
      var front := ops[..|ops| - 1];
      var point := PointOf(start, front);
      SetBack(start, front) + match ops[|ops| - 1]
                              case Timeout(_, _) => 0
                              case Reading(cp, _) => if cp < point then point - cp else 0
  }

  /** One tick for each centisecond that the clock advances, and none is taken back when it is set back. */
  lemma {:induction false} TicksAreTime(start: nat, ops: seq<Op>)
    requires Paced(start, ops) && NoLeap(start, ops)
    ensures start + TicksOf(ops) == PointOf(start, ops) + SetBack(start, ops)
  {
    if ops != [] {
      var n := |ops| - 1;
      var front := ops[..n];
      assert forall k | 0 <= k < n :: front[..k] == ops[..k];
      TicksAreTime(start, front);
    }
  }

  // ----- the wheel's messages at each moment of a run -----

  lemma {:induction false} RegisteredIsLater(requests: seq<Timer>, batch: seq<Request>, now: nat, n: nat)
    requires n <= now
    ensures Schedule(requests + Registered(batch, now), n) == Schedule(requests, n)
  {
    hide Schedule;
    if batch == [] {
      assert requests + [] == requests;
    } else {
      var front, last := batch[..|batch| - 1], batch[|batch| - 1];
      RegisteredIsLater(requests, front, now, n);
      var x := Timer(now + last.delay, last.event);
      ScheduleOfOneMore(requests + Registered(front, now), x, n);
      assert requests + Registered(batch, now) == requests + Registered(front, now) + [x];
    }
  }

  lemma NextTick(requests: seq<Timer>, n: nat)
    ensures Schedule(requests, n + 1) == Schedule(requests, n) + DueAt(requests, n + 1)
  {
    hide DueAt;
  }

  /** While the clock advances the wheel sends what the schedule adds. */
  lemma {:induction false} TicksSchedule(requests: seq<Timer>, ticks: seq<Tick>, now: nat)
    ensures Schedule(requests + ArrivalRequests(ticks, now), now + |ticks|)
            == Schedule(requests, now) + FiredOf(TicksSent(requests, ticks, now))
  {
    hide Interleaved, FiredOf, DueAt, Registered, Schedule, TicksSent, ArrivalRequests;
    if ticks == [] {
      NoTicks(requests, now);
      NothingFired();
      assert Schedule(requests, now) + [] == Schedule(requests, now);
      assert requests + [] == requests;
    } else {
      var n := |ticks| - 1;
      var front := ticks[..n];
      var asked := requests + ArrivalRequests(front, now);
      assert ticks[..n + 1] == ticks;
      OneMoreTick(requests, ticks, now, n);
      TicksSchedule(requests, front, now);
      NextTick(asked, now + n);
      FiredAmongOthers(TicksSent(requests, front, now), DueAt(asked, now + n + 1), ticks[n].urgent);
      RegisteredIsLater(asked, ticks[n].arrivals, now + n + 1, now + n + 1);
      assert requests + ArrivalRequests(ticks, now) == asked + Registered(ticks[n].arrivals, now + n + 1);
    }
  }

  lemma NothingFired()
    ensures FiredOf([]) == []
  {
  }

  /** One more call of starnet_timeout adds no message of the wheel, and nothing that is due already. */
  lemma CallSchedule(requests: seq<Timer>, op: Op, now: nat)
    requires op.Timeout?
    ensures Schedule(requests + Asks(op, now), now) == Schedule(requests, now)
  {
    hide Schedule;
    if op.time <= 0 {
      assert requests + [] == requests;
    } else {
      ScheduleOfOneMore(requests, Timer(now + op.time, op.event), now);
    }
  }

  lemma CallFires(sent: seq<Post>, event: Event)
    ensures FiredOf(sent + [AtOnce(event)]) == FiredOf(sent)
  {
    assert (sent + [AtOnce(event)])[..|sent|] == sent;
  }

  /** At the end of a run the wheel's messages are the schedule of its requests. */
  lemma {:induction false} FiredIsSchedule(ops: seq<Op>)
    ensures FiredOf(SentOf(ops)) == Schedule(RequestsOf(ops), TicksOf(ops))
  {
    hide Schedule, FiredOf, TicksSent, ArrivalRequests;
    if ops == [] {
      NothingFired();
      NothingScheduled();
    } else {
      var front, last := ops[..|ops| - 1], ops[|ops| - 1];
      FiredIsSchedule(front);
      match last
      case Timeout(time, event) =>
        CallSchedule(RequestsOf(front), last, TicksOf(front));
        CallFires(SentOf(front), event);
        assert SentOf(front) + [] == SentOf(front);
      case Reading(_, ticks) =>
        TicksSchedule(RequestsOf(front), ticks, TicksOf(front));
        Projections(SentOf(front), TicksSent(RequestsOf(front), ticks, TicksOf(front)));
    }
  }

  lemma NothingScheduled()
    ensures Schedule([], 0) == []
  {
  }

  lemma {:induction false} ArrivalsAreLater(requests: seq<Timer>, ticks: seq<Tick>, now: nat, n: nat)
    requires n <= now
    ensures Schedule(requests + ArrivalRequests(ticks, now), n) == Schedule(requests, n)
  {
    hide Schedule, Registered;
    if ticks == [] {
      assert requests + [] == requests;
    } else {
      var k := |ticks| - 1;
      var asked := requests + ArrivalRequests(ticks[..k], now);
      ArrivalsAreLater(requests, ticks[..k], now, n);
      RegisteredIsLater(asked, ticks[k].arrivals, now + k + 1, n);
      assert requests + ArrivalRequests(ticks, now) == asked + Registered(ticks[k].arrivals, now + k + 1);
    }
  }

  /** Later requests change nothing of what was due. */
  lemma {:induction false} ScheduleStands(ops: seq<Op>, j: nat)
    requires j <= |ops|
    ensures TicksOf(ops[..j]) <= TicksOf(ops)
    ensures Schedule(RequestsOf(ops), TicksOf(ops[..j])) == Schedule(RequestsOf(ops[..j]), TicksOf(ops[..j]))
  {
    hide Schedule, ArrivalRequests;
    if j == |ops| {
      assert ops[..j] == ops;
    } else {
      var front, last := ops[..|ops| - 1], ops[|ops| - 1];
      assert front[..j] == ops[..j];
      ScheduleStands(front, j);
      match last
      case Timeout(time, event) =>
        if time > 0 {
          ScheduleOfOneMore(RequestsOf(front), Timer(TicksOf(front) + time, event), TicksOf(ops[..j]));
        } else {
          assert RequestsOf(front) + [] == RequestsOf(front);
        }
      case Reading(_, ticks) =>
        ArrivalsAreLater(RequestsOf(front), ticks, TicksOf(front), TicksOf(ops[..j]));
    }
  }

  // ----- a timeout and the clock -----

  /** The tick at which call k of a run is due. */
  ghost function DueOf(ops: seq<Op>, k: nat): nat
    requires k < |ops| && ops[k].Timeout? && ops[k].time > 0
  {
    TicksOf(ops[..k]) + ops[k].time
  }

  lemma RequestOfCall(ops: seq<Op>, k: nat)
    requires k < |ops| && ops[k].Timeout? && ops[k].time > 0
    ensures var requests, i := RequestsOf(ops), |RequestsOf(ops[..k])|;
            i < |requests| && requests[i] == Timer(DueOf(ops, k), ops[k].event)
  {
    hide SentOf, RequestsOf, TicksOf;
    CallInRun(ops, k);
    var x := Timer(DueOf(ops, k), ops[k].event);
    assert (RequestsOf(ops[..k]) + [x])[|RequestsOf(ops[..k])|] == x;
  }

  /** The message of request i is among those of tick n or earlier if and only if it is due by then. */
  lemma SentByTick(requests: seq<Timer>, i: nat, n: nat)
    requires i < |requests|
    ensures Position(requests, i) < |Schedule(requests, n)| <==> requests[i].due <= n
    ensures requests[i].due <= n ==> Schedule(requests, n)[Position(requests, i)] == requests[i].event
  {
    hide Schedule, Position, DueAt;
    var due := requests[i].due;
    PositionInTick(requests, i);
    if due <= n {
      ScheduleGrows(requests, due, n);
    } else {
      ScheduleGrows(requests, n, due - 1);
    }
  }

  /** A timeout of d > 0 that is asked for when the last reading is p. At every later moment of the run its
      message is among those the wheel has sent if and only if the clock has since advanced by d: unless
      it was set back meanwhile, if and only if a reading has reached p + d. */
  lemma SentWhenReached(start: nat, ops: seq<Op>, k: nat, j: nat)
    requires Paced(start, ops) && NoLeap(start, ops)
    requires k < j <= |ops| && ops[k].Timeout? && ops[k].time > 0
    ensures |RequestsOf(ops[..k])| < |RequestsOf(ops)|
    ensures var at, sent := Position(RequestsOf(ops), |RequestsOf(ops[..k])|), FiredOf(SentOf(ops[..j]));
            var p, q := PointOf(start, ops[..k]), PointOf(start, ops[..j]);
            var was, now := SetBack(start, ops[..k]), SetBack(start, ops[..j]);
            && (at < |sent| <==> p + was + ops[k].time <= q + now)
            && (now == was ==> (at < |sent| <==> p + ops[k].time <= q))
            && (at < |sent| ==> sent[at] == ops[k].event)
  {
    hide Schedule, Position, DueAt, SentOf, RequestsOf, TicksOf, PointOf, SetBack, Paced, NoLeap, FiredOf;
    RequestOfCall(ops, k);
    SentByTick(RequestsOf(ops), |RequestsOf(ops[..k])|, TicksOf(ops[..j]));
    ScheduleStands(ops, j);
    FiredIsSchedule(ops[..j]);
    PrefixPaced(start, ops, k);
    PrefixPaced(start, ops, j);
    TicksAreTime(start, ops[..k]);
    TicksAreTime(start, ops[..j]);
  }

  lemma PrefixPaced(start: nat, ops: seq<Op>, n: nat)
    requires Paced(start, ops) && NoLeap(start, ops) && n <= |ops|
    ensures Paced(start, ops[..n]) && NoLeap(start, ops[..n])
  {
    hide PointOf;
    assert forall k | 0 <= k < n :: ops[..n][..k] == ops[..k];
  }
}
