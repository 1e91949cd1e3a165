/**
 What a timer service promises, stated without any wheel: every request carries the tick at
 which it is due, and the messages sent up to tick n are the requests due at tick 0, then those
 due at tick 1, and so on up to n, each group in the order in which the requests were made.
 */
module TimerSchedule {

  /** The RESPONSE message a timer delivers: the service it goes to and the session it carries. */
  datatype Event = Event(handle: int, session: int)

  /** A request, with the absolute (never wrapping) tick at which it is due. */
  datatype Timer = Timer(due: nat, event: Event)

  /** The requests due exactly at tick n, in request order. */
  ghost function DueAt(requests: seq<Timer>, n: nat): seq<Event> {
    if requests == [] then [] else
      var last := requests[|requests| - 1];
      DueAt(requests[..|requests| - 1], n) + if last.due == n then [last.event] else []
  }

  /** Everything that must have been sent by the end of tick n. */
  ghost function Schedule(requests: seq<Timer>, n: nat): seq<Event> {
    (if n == 0 then [] else Schedule(requests, n - 1)) + DueAt(requests, n)
  }

  /** The requests still outstanding at tick n. */
  ghost function After(requests: seq<Timer>, n: nat): seq<Timer> {
    if requests == [] then [] else
      var last := requests[|requests| - 1];
      After(requests[..|requests| - 1], n) + if last.due > n then [last] else []
  }

  /** How many requests are due by tick n. */
  ghost function DueCount(requests: seq<Timer>, n: nat): nat {
    if requests == [] then 0 else
      DueCount(requests[..|requests| - 1], n) + if requests[|requests| - 1].due <= n then 1 else 0
  }

  /** Where the schedule places request i: behind all earlier ticks, and behind the earlier
      requests of its own tick. */
  ghost function Position(requests: seq<Timer>, i: nat): nat
    requires i < |requests|
  {
    var due := requests[i].due;
    SentBefore(requests, due) + |DueAt(requests[..i], due)|
  }

  ghost function SentBefore(requests: seq<Timer>, n: nat): nat {
    if n == 0 then 0 else |Schedule(requests, n - 1)|
  }

  lemma {:induction false} DueAtPrefix(requests: seq<Timer>, i: nat, n: nat)
    requires i < |requests| && requests[i].due == n
    ensures |DueAt(requests[..i], n)| < |DueAt(requests, n)|
    ensures DueAt(requests, n)[|DueAt(requests[..i], n)|] == requests[i].event
  {
    var front := requests[..|requests| - 1];
    if i < |front| {
      DueAtPrefix(front, i, n);
      assert front[..i] == requests[..i];
    }
  }

  lemma {:induction false} ScheduleGrows(requests: seq<Timer>, m: nat, n: nat)
    requires m <= n
    ensures Schedule(requests, m) <= Schedule(requests, n)
    decreases n
  {
    if m < n {
      ScheduleGrows(requests, m, n - 1);
    }
  }

  lemma {:induction false} ScheduleCount(requests: seq<Timer>, n: nat)
    ensures |Schedule(requests, n)| == DueCount(requests, n)
    decreases |requests|, n
  {
    if requests == [] {
      if n > 0 { ScheduleCount(requests, n - 1); }
    } else {
      var front := requests[..|requests| - 1];
      ScheduleCount(front, n);
      ScheduleOfOneMore(front, requests[|requests| - 1], n);
      assert front + [requests[|requests| - 1]] == requests;
    }
  }

  lemma DueAtOneMore(requests: seq<Timer>, x: Timer, n: nat)
    ensures DueAt(requests + [x], n) == DueAt(requests, n) + if x.due == n then [x.event] else []
  {
    assert (requests + [x])[..|requests|] == requests;
  }

  /** One more request adds exactly one message to every schedule that reaches its tick. */
  lemma {:induction false} ScheduleOfOneMore(requests: seq<Timer>, x: Timer, n: nat)
    ensures |Schedule(requests + [x], n)| == |Schedule(requests, n)| + if x.due <= n then 1 else 0
    ensures x.due > n ==> Schedule(requests + [x], n) == Schedule(requests, n)
    ensures x.due == n ==> Schedule(requests + [x], n) == Schedule(requests, n) + [x.event]
    decreases n
  {
    hide DueAt;
    DueAtOneMore(requests, x, n);
    if n > 0 {
      ScheduleOfOneMore(requests, x, n - 1);
    }
  }

  lemma {:induction false} PositionInTick(requests: seq<Timer>, i: nat)
    requires i < |requests|
    ensures var due := requests[i].due;
            && Position(requests, i) < |Schedule(requests, due)|
            && SentBefore(requests, due) <= Position(requests, i)
            && Schedule(requests, due)[Position(requests, i)] == requests[i].event
  {
    hide DueAt;
    var due := requests[i].due;
    DueAtPrefix(requests, i, due);
    var earlier := if due == 0 then [] else Schedule(requests, due - 1);
    assert Schedule(requests, due) == earlier + DueAt(requests, due);
  }

  lemma PositionOrder(requests: seq<Timer>, i: nat, j: nat)
    requires i < |requests| && j < |requests|
    requires requests[i].due < requests[j].due || (requests[i].due == requests[j].due && i < j)
    ensures Position(requests, i) < Position(requests, j)
  {
    if requests[i].due < requests[j].due {
      EarlierTickFirst(requests, i, j);
    } else {
      DueAtGrows(requests, i, j);
    }
  }

  lemma EarlierTickFirst(requests: seq<Timer>, i: nat, j: nat)
    requires i < |requests| && j < |requests|
    requires requests[i].due < requests[j].due
    ensures Position(requests, i) < Position(requests, j)
  {
    hide DueAt;
    var due, due' := requests[i].due, requests[j].due;
    calc {
      Position(requests, i);
    < { PositionInTick(requests, i); }
      |Schedule(requests, due)|;
    <= { ScheduleGrows(requests, due, due' - 1); }
      SentBefore(requests, due');
    <= Position(requests, j);
    }
  }

  lemma DueAtGrows(requests: seq<Timer>, i: nat, j: nat)
    requires i < j < |requests|
    ensures |DueAt(requests[..i], requests[i].due)| < |DueAt(requests[..j], requests[i].due)|
  {
    var upToJ := requests[..j];
    assert upToJ[..i] == requests[..i];
    DueAtPrefix(upToJ, i, requests[i].due);
  }

  /** Exactly once, at the right tick, in order: by tick n the number of messages sent is the number
      of requests due by then; request i is the message at its own position, inside the stretch
      of its own tick; and positions follow (due tick, request order), so no two requests share one
      and requests due together leave in the order in which they were made. */
  lemma {:induction false} EachRequestSentOnce(requests: seq<Timer>, n: nat)
    ensures |Schedule(requests, n)| == DueCount(requests, n)
    ensures forall i | 0 <= i < |requests| && requests[i].due <= n ::
              && Position(requests, i) < |Schedule(requests, requests[i].due)| <= |Schedule(requests, n)|
              && SentBefore(requests, requests[i].due) <= Position(requests, i)
              && Schedule(requests, n)[Position(requests, i)] == requests[i].event
    ensures forall i, j | 0 <= i < |requests| && 0 <= j < |requests| ::
              requests[i].due < requests[j].due || (requests[i].due == requests[j].due && i < j)
              ==> Position(requests, i) < Position(requests, j)
  {
    ScheduleCount(requests, n);
    forall i | 0 <= i < |requests| && requests[i].due <= n
      ensures && Position(requests, i) < |Schedule(requests, requests[i].due)| <= |Schedule(requests, n)|
              && SentBefore(requests, requests[i].due) <= Position(requests, i)
              && Schedule(requests, n)[Position(requests, i)] == requests[i].event
    {
      PositionInTick(requests, i);
      ScheduleGrows(requests, requests[i].due, n);
    }
    forall i, j | && 0 <= i < |requests| && 0 <= j < |requests|
                  && (requests[i].due < requests[j].due || (requests[i].due == requests[j].due && i < j))
      ensures Position(requests, i) < Position(requests, j)
    {
      PositionOrder(requests, i, j);
    }
  }

  lemma AfterOneMore(requests: seq<Timer>, x: Timer, n: nat)
    ensures x.due > n ==> After(requests + [x], n) == After(requests, n) + [x]
    ensures x.due <= n ==> After(requests + [x], n) == After(requests, n)
  {
    assert (requests + [x])[..|requests|] == requests;
    if x.due <= n {
      assert After(requests, n) + [] == After(requests, n);
    }
  }

  /** No message leaves before its tick: a schedule up to n owes nothing to later requests. */
  lemma {:induction false} AfterStep(requests: seq<Timer>, n: nat)
    ensures After(After(requests, n), n + 1) == After(requests, n + 1)
    ensures DueAt(After(requests, n), n + 1) == DueAt(requests, n + 1)
  {
    if requests != [] {
      var front, last := requests[..|requests| - 1], requests[|requests| - 1];
      AfterStep(front, n);
      var kept := After(front, n);
      if last.due > n {
        assert (kept + [last])[..|kept|] == kept;
      } else {
        assert kept + [] == kept;
      }
    }
  }
}
