/**
 The hierarchical timing wheel: one near wheel of 256 slots and four levels of 64 slots, relinked
 in place, driven by a clock that wraps at 32 bits.
 */
module TimerWheel {
  import opened TimerSchedule
  import opened TimerSlots

  type Int32 = x: int | -0x8000_0000 <= x <= 0x7FFF_FFFF

  /** A timer as the wheel stores it: the tick it expires at, modulo 2^32, and its event. */
  datatype Node = Node(expire: nat, event: Event)

  /** A call of timer_add by another thread. */
  datatype Request = Request(delay: Delay, event: Event)

  type Delay = x: int | 0 < x <= MAX_DELAY witness 1

  /** A message handed to Starnet::Send: by the wheel, or at once, by a call with no delay. */
  datatype Post = Fired(event: Event) | AtOnce(event: Event)

  /** What other threads do while the clock advances one tick: timer_add calls, and calls with no delay,
      which take no lock: urgent[k] get in ahead of the k-th message of the tick, or come last. */
  datatype Tick = Tick(arrivals: seq<Request>, urgent: seq<seq<Event>>)

  predicate ValidSlot(s: Slot) {
    match s
    case Near(k) => 0 <= k < 256
    case Level(i, j) => 0 <= i < 4 && 0 <= j < 64
  }

  /** The nodes, in registration order, of the pending timers whose slot at tick `now` is s. */
  ghost function NodesIn(pending: seq<Timer>, now: nat, s: Slot): seq<Node> {
    if pending == [] then [] else
      var last := pending[|pending| - 1];
      NodesIn(pending[..|pending| - 1], now, s)
      + if SlotOf(last.due, now) == s then [Node(last.due % WORD, last.event)] else []
  }

  /** The nodes of a list that add_node would file under s, in list order. */
  ghost function Pick(nodes: seq<Node>, time: nat, s: Slot): seq<Node> {
    if nodes == [] then [] else
      var last := nodes[|nodes| - 1];
      Pick(nodes[..|nodes| - 1], time, s) + if SlotOf(last.expire, time) == s then [last] else []
  }

  /** Lists to which nodes have been added by add_node. */
  ghost function Refiled(m: imap<Slot, seq<Node>>, nodes: seq<Node>, time: nat): imap<Slot, seq<Node>> {
    imap s | s in m :: m[s] + Pick(nodes, time, s)
  }

  ghost function AddedTo(m: imap<Slot, seq<Node>>, at: Slot, node: Node): imap<Slot, seq<Node>> {
    imap s | s in m :: m[s] + if s == at then [node] else []
  }

  lemma NothingRefiled(m: imap<Slot, seq<Node>>, time: nat)
    ensures Refiled(m, [], time) == m
  {
    assert forall s | s in m :: m[s] + [] == m[s];
  }

  lemma RefiledOneMore(m: imap<Slot, seq<Node>>, nodes: seq<Node>, k: nat, time: nat)
    requires k < |nodes|
    ensures Refiled(m, nodes[..k + 1], time)
            == AddedTo(Refiled(m, nodes[..k], time), SlotOf(nodes[k].expire, time), nodes[k])
  {
    hide SlotOf, Pick;
    forall s | s in m
      ensures Refiled(m, nodes[..k + 1], time)[s]
              == AddedTo(Refiled(m, nodes[..k], time), SlotOf(nodes[k].expire, time), nodes[k])[s]
    {
      PickOneMore(nodes, k, time, s);
    }
  }

  lemma PickOneMore(nodes: seq<Node>, k: nat, time: nat, s: Slot)
    requires k < |nodes|
    ensures Pick(nodes[..k + 1], time, s)
            == Pick(nodes[..k], time, s) + if s == SlotOf(nodes[k].expire, time) then [nodes[k]] else []
  {
    hide SlotOf;
    assert nodes[..k + 1][..k] == nodes[..k];
  }

  ghost function Events(nodes: seq<Node>): (events: seq<Event>)
    ensures |events| == |nodes|
  {
    if nodes == [] then [] else Events(nodes[..|nodes| - 1]) + [nodes[|nodes| - 1].event]
  }

  /** The timers that a batch of requests made at tick `now` registers. */
  ghost function Registered(batch: seq<Request>, now: nat): seq<Timer> {
    if batch == [] then [] else
      var last := batch[|batch| - 1];
      Registered(batch[..|batch| - 1], now) + [Timer(now + last.delay, last.event)]
  }

  // ----- the wheel's messages among the others -----

  ghost function FiredOf(sent: seq<Post>): seq<Event> {
    if sent == [] then [] else
      FiredOf(sent[..|sent| - 1]) + match sent[|sent| - 1] case Fired(event) => [event] case AtOnce(_) => []
  }

  ghost function AtOnceOf(sent: seq<Post>): seq<Event> {
    if sent == [] then [] else
      AtOnceOf(sent[..|sent| - 1]) + match sent[|sent| - 1] case Fired(_) => [] case AtOnce(event) => [event]
  }

  function Posts(events: seq<Event>): seq<Post> {
    seq(|events|, k requires 0 <= k < |events| => AtOnce(events[k]))
  }

  function At(urgent: seq<seq<Event>>, k: nat): seq<Event> {
    if k < |urgent| then urgent[k] else []
  }

  /** What comes behind the n-th message. */
  function Late(urgent: seq<seq<Event>>, n: nat): seq<Event> {
    if |urgent| <= n then [] else Late(urgent[..|urgent| - 1], n) + urgent[|urgent| - 1]
  }

  ghost function Among(events: seq<Event>, urgent: seq<seq<Event>>): seq<Post> {
    if events == [] then [] else
      var n := |events| - 1;
      Among(events[..n], urgent) + Posts(At(urgent, n)) + [Fired(events[n])]
  }

  /** The messages of one tick. */
  ghost function Interleaved(events: seq<Event>, urgent: seq<seq<Event>>): seq<Post> {
    Among(events, urgent) + Posts(Late(urgent, |events|))
  }

  lemma NothingAmong(urgent: seq<seq<Event>>)
    ensures Among([], urgent) == [] && Events([]) == [] && Interleaved([], urgent) == Posts(Late(urgent, 0))
  {
  }

  lemma AmongOneMore(list: seq<Node>, k: nat, urgent: seq<seq<Event>>)
    requires k < |list|
    ensures Among(Events(list[..k + 1]), urgent)
            == Among(Events(list[..k]), urgent) + Posts(At(urgent, k)) + [Fired(list[k].event)]
  {
    assert list[..k + 1][..k] == list[..k];
    var events := Events(list[..k + 1]);
    assert events == Events(list[..k]) + [list[k].event];
    hide Events;
    assert events[..k] == Events(list[..k]);
    hide Posts, At;
  }

  lemma {:induction false} Projections(a: seq<Post>, b: seq<Post>)
    ensures FiredOf(a + b) == FiredOf(a) + FiredOf(b) && AtOnceOf(a + b) == AtOnceOf(a) + AtOnceOf(b)
  {
    if b == [] {
      assert a + b == a;
    } else {
      Projections(a, b[..|b| - 1]);
      assert (a + b)[..|a + b| - 1] == a + b[..|b| - 1];
    }
  }

  lemma {:induction false} PostsAreAtOnce(events: seq<Event>)
    ensures FiredOf(Posts(events)) == [] && AtOnceOf(Posts(events)) == events
  {
    if events != [] {
      PostsAreAtOnce(events[..|events| - 1]);
      assert Posts(events)[..|events| - 1] == Posts(events[..|events| - 1]);
    }
  }

  lemma {:induction false} AmongProjects(events: seq<Event>, urgent: seq<seq<Event>>)
    ensures FiredOf(Among(events, urgent)) == events
    ensures AtOnceOf(Among(events, urgent)) + Late(urgent, |events|) == Late(urgent, 0)
  {
    if events != [] {
      var n := |events| - 1;
      AmongProjects(events[..n], urgent);
      LateSplits(urgent, n);
      PostsAreAtOnce(At(urgent, n));
      Projections(Among(events[..n], urgent), Posts(At(urgent, n)));
      Projections(Among(events[..n], urgent) + Posts(At(urgent, n)), [Fired(events[n])]);
      OneFired(events[n]);
      hide FiredOf, AtOnceOf, Posts, Late;
      assert events[..n] + [events[n]] == events;
    }
  }

  lemma OneFired(event: Event)
    ensures FiredOf([Fired(event)]) == [event] && AtOnceOf([Fired(event)]) == []
  {
  }

  lemma {:induction false} LateSplits(urgent: seq<seq<Event>>, n: nat)
    ensures Late(urgent, n) == At(urgent, n) + Late(urgent, n + 1)
  {
    if |urgent| > n + 1 {
      LateSplits(urgent[..|urgent| - 1], n);
    }
  }

  /** A tick sends what is due, in order, and every message of the others, in order. */
  lemma InterleavedProjects(events: seq<Event>, urgent: seq<seq<Event>>)
    ensures FiredOf(Interleaved(events, urgent)) == events
    ensures AtOnceOf(Interleaved(events, urgent)) == Late(urgent, 0)
  {
    AmongProjects(events, urgent);
    PostsAreAtOnce(Late(urgent, |events|));
    Projections(Among(events, urgent), Posts(Late(urgent, |events|)));
  }

  ghost predicate AllInWindow(pending: seq<Timer>, now: nat) {
    forall x <- pending :: InWindow(x.due, now)
  }

  ghost predicate NoneBefore(pending: seq<Timer>, n: nat) {
    forall x <- pending :: x.due >= n
  }

  // ----- placement on the wrapped clock is placement on absolute ticks -----

  lemma WordSlot(due: nat, now: nat)
    requires InWindow(due, now)
    ensures SlotOf(due % WORD, now % WORD) == SlotOf(due, now)
    ensures ValidSlot(SlotOf(due, now))
  {
    hide Quot;
    UnitsAgree(due, now, 0);
    WordLevel(due, now);
    DigitOfWord(due, LevelOf(due, now));
    LowByteOfWord(due);
  }

  lemma LowByteOfWord(due: nat)
    ensures due % WORD % 0x100 == due % 0x100 < 0x100
  {
    assert due == due / WORD * WORD + due % WORD;
    assert due == (due / WORD * 0x100_0000 + due % WORD / 0x100) * 0x100 + due % WORD % 0x100;
  }

  lemma WordLevel(due: nat, now: nat)
    requires InWindow(due, now)
    ensures LevelOf(due % WORD, now % WORD) == LevelOf(due, now)
  {
    hide Quot;
    UnitsAgree(due, now, 1);
    UnitsAgree(due, now, 2);
    UnitsAgree(due, now, 3);
  }

  /** Slot 0 of the levels 0, 1 and 2 never holds a pending timer, which is why timer_shift may
      skip a zero digit. */
  lemma {:induction false} SlotZeroIsEmpty(pending: seq<Timer>, now: nat, i: int)
    requires AllInWindow(pending, now) && 0 <= i < 3
    ensures NodesIn(pending, now, Level(i, 0)) == []
  {
    if pending != [] {
      SlotZeroIsEmpty(pending[..|pending| - 1], now, i);
      var due := pending[|pending| - 1].due;
      assert InWindow(due, now);
      if SlotOf(due, now) == Level(i, 0) {
        ZeroDigitReached(due, now, i);
      }
    }
  }

  lemma ZeroDigitReached(due: nat, now: nat, i: int)
    requires now <= due && 0 <= i < 3
    requires Quot(due, i + 1) == Quot(now, i + 1) && Quot(due, i) % 64 == 0
    ensures Quot(due, i) == Quot(now, i)
  {
    UnitsNest(due, i);
    UnitsNest(now, i);
    assert Quot(now, i) <= Quot(due, i);
  }

  lemma LevelFound(expire: nat, time: nat, i: int)
    requires 0 <= i <= 3
    requires forall l | 1 <= l <= i :: Quot(expire, l) != Quot(time, l)
    requires i < 3 ==> Quot(expire, i + 1) == Quot(time, i + 1)
    ensures LevelOf(expire, time) == i
  {
    hide Quot;
  }

  lemma NearIsNow(due: nat, now: nat)
    requires now <= due
    ensures SlotOf(due, now) == Near(now % 0x100) <==> due == now
  {
  }

  lemma OnlyZeroHasNoDigits(time: nat, i: int)
    requires 0 < time < WORD && 0 <= i <= 3 && Rem(time, i) == 0 && Quot(time, i) % 64 == 0
    ensures i < 3
  {
  }

  // ----- what a clock step does to the slots -----

  lemma {:induction false} SameSlotsWithoutCascade(pending: seq<Timer>, now: nat, s: Slot)
    requires now > 0 && AllInWindow(pending, now - 1) && NoneBefore(pending, now)
    requires CascadeLevel(now) == -1
    ensures NodesIn(pending, now, s) == NodesIn(pending, now - 1, s)
  {
    if pending != [] {
      var front, last := pending[..|pending| - 1], pending[|pending| - 1];
      SameSlotsWithoutCascade(front, now, s);
      assert InWindow(last.due, now - 1) && last.due >= now;
      NoCascadeKeepsSlot(last.due, now);
    }
  }

  /** Below the cascading level the new lists are the cascaded timers, in their old order. */
  lemma {:induction false} CascadeFillsBelow(pending: seq<Timer>, now: nat, s: Slot)
    requires now > 0 && AllInWindow(pending, now - 1) && NoneBefore(pending, now)
    requires CascadeLevel(now) >= 0 && Below(s, CascadeLevel(now))
    ensures NodesIn(pending, now - 1, s) == []
    ensures NodesIn(pending, now, s) == Pick(NodesIn(pending, now - 1, CascadeSlot(now)), now % WORD, s)
  {
    if pending != [] {
      var front, last := pending[..|pending| - 1], pending[|pending| - 1];
      CascadeFillsBelow(front, now, s);
      assert InWindow(last.due, now - 1) && last.due >= now;
      CascadeMovesDown(last.due, now);
      WordSlot(last.due, now);
      var moved := NodesIn(front, now - 1, CascadeSlot(now));
      var node := Node(last.due % WORD, last.event);
      if SlotOf(last.due, now - 1) == CascadeSlot(now) {
        assert (moved + [node])[..|moved|] == moved;
      } else {
        assert NodesIn(pending, now - 1, CascadeSlot(now)) == moved;
      }
    }
  }

  /** At and above that level nothing changes, except that the cascaded slot becomes empty. */
  lemma {:induction false} CascadeKeepsAbove(pending: seq<Timer>, now: nat, s: Slot)
    requires now > 0 && AllInWindow(pending, now - 1) && NoneBefore(pending, now)
    requires CascadeLevel(now) >= 0 && !Below(s, CascadeLevel(now))
    ensures NodesIn(pending, now, s) == if s == CascadeSlot(now) then [] else NodesIn(pending, now - 1, s)
    ensures Pick(NodesIn(pending, now - 1, CascadeSlot(now)), now % WORD, s) == []
  {
    if pending != [] {
      var front, last := pending[..|pending| - 1], pending[|pending| - 1];
      CascadeKeepsAbove(front, now, s);
      assert InWindow(last.due, now - 1) && last.due >= now;
      CascadeMovesDown(last.due, now);
      WordSlot(last.due, now);
      var moved := NodesIn(front, now - 1, CascadeSlot(now));
      var node := Node(last.due % WORD, last.event);
      if SlotOf(last.due, now - 1) == CascadeSlot(now) {
        assert (moved + [node])[..|moved|] == moved;
      } else {
        assert NodesIn(pending, now - 1, CascadeSlot(now)) == moved;
      }
    }
  }

  lemma RefiledByCascade(pending: seq<Timer>, now: nat, s: Slot)
    requires now > 0 && AllInWindow(pending, now - 1) && NoneBefore(pending, now)
    requires CascadeLevel(now) >= 0
    ensures NodesIn(pending, now, s)
            == (if s == CascadeSlot(now) then [] else NodesIn(pending, now - 1, s))
               + Pick(NodesIn(pending, now - 1, CascadeSlot(now)), now % WORD, s)
  {
    if Below(s, CascadeLevel(now)) {
      CascadeFillsBelow(pending, now, s);
    } else {
      CascadeKeepsAbove(pending, now, s);
    }
  }

  /** Every node of the cascading list belongs strictly below it at the new time. */
  lemma {:induction false} CascadedNodesGoBelow(pending: seq<Timer>, now: nat)
    requires now > 0 && AllInWindow(pending, now - 1) && NoneBefore(pending, now)
    requires CascadeLevel(now) >= 0
    ensures forall n <- NodesIn(pending, now - 1, CascadeSlot(now)) ::
              && Below(SlotOf(n.expire, now % WORD), CascadeLevel(now))
              && ValidSlot(SlotOf(n.expire, now % WORD))
  {
    if pending != [] {
      var front, last := pending[..|pending| - 1], pending[|pending| - 1];
      CascadedNodesGoBelow(front, now);
      assert InWindow(last.due, now - 1) && last.due >= now;
      CascadeMovesDown(last.due, now);
      WordSlot(last.due, now);
    }
  }

  /** The near slot of the current tick holds exactly the timers due now. */
  lemma {:induction false} NearSlotIsDue(pending: seq<Timer>, now: nat)
    requires NoneBefore(pending, now)
    ensures Events(NodesIn(pending, now, Near(now % 0x100))) == DueAt(pending, now)
  {
    if pending != [] {
      var front, last := pending[..|pending| - 1], pending[|pending| - 1];
      NearSlotIsDue(front, now);
      NearIsNow(last.due, now);
      var here, node := NodesIn(front, now, Near(now % 0x100)), Node(last.due % WORD, last.event);
      assert (here + [node])[..|here|] == here;
      assert here + [] == here;
    }
  }

  lemma {:induction false} FiringLeavesOthers(pending: seq<Timer>, now: nat, s: Slot)
    requires NoneBefore(pending, now)
    ensures NodesIn(After(pending, now), now, s)
            == if s == Near(now % 0x100) then [] else NodesIn(pending, now, s)
  {
    if pending != [] {
      var front, last := pending[..|pending| - 1], pending[|pending| - 1];
      FiringLeavesOthers(front, now, s);
      NearIsNow(last.due, now);
      var kept := After(front, now);
      if last.due > now {
        NodesInOneMore(kept, last, now, s);
      } else {
        assert After(pending, now) == kept;
      }
    }
  }

  lemma {:induction false} NodesInOneMore(pending: seq<Timer>, x: Timer, now: nat, s: Slot)
    ensures NodesIn(pending + [x], now, s)
            == NodesIn(pending, now, s) + if SlotOf(x.due, now) == s then [Node(x.due % WORD, x.event)] else []
  {
    assert (pending + [x])[..|pending|] == pending;
  }

  lemma {:induction false} AfterIsAfter(requests: seq<Timer>, n: nat)
    ensures NoneBefore(After(requests, n), n + 1)
    ensures After(After(requests, n), n) == After(requests, n)
  {
    if requests != [] {
      var front, last := requests[..|requests| - 1], requests[|requests| - 1];
      AfterIsAfter(front, n);
      AfterOneMore(After(front, n), last, n);
      assert After(requests, n) == if last.due > n then After(front, n) + [last] else After(front, n);
    }
  }

  lemma {:induction false} AfterInWindow(pending: seq<Timer>, n: nat)
    requires AllInWindow(pending, n)
    ensures AllInWindow(After(pending, n), n)
  {
    if pending != [] {
      AfterInWindow(pending[..|pending| - 1], n);
    }
  }

  lemma {:induction false} NothingDueLater(requests: seq<Timer>, n: nat)
    ensures NodesIn(After(requests, n), n, Near(n % 0x100)) == []
    ensures DueAt(After(requests, n), n) == []
  {
    if requests != [] {
      var front, last := requests[..|requests| - 1], requests[|requests| - 1];
      NothingDueLater(front, n);
      if last.due > n {
        NearIsNow(last.due, n);
        NodesInOneMore(After(front, n), last, n, Near(n % 0x100));
        assert (After(front, n) + [last])[..|After(front, n)|] == After(front, n);
      } else {
        assert After(requests, n) == After(front, n);
      }
    }
  }

  lemma {:induction false} NothingDue(pending: seq<Timer>, n: nat)
    requires NoneBefore(pending, n) && DueAt(pending, n) == []
    ensures After(pending, n) == pending
  {
    if pending != [] {
      NothingDue(pending[..|pending| - 1], n);
    }
  }

  /** How many ticks pass from one clock reading to another: the difference, as a uint32, and none if the
      clock went back. */
  function Elapsed(was: nat, cp: nat): nat {
    if cp <= was then 0 else (cp - was) % WORD
  }

  /** Calls made on the timer from outside, in the order in which they take the lock. */
  datatype Op = Timeout(time: Int32, event: Event) | Reading(cp: nat, ticks: seq<Tick>)

  /** The requests made while the clock advances. */
  ghost function ArrivalRequests(ticks: seq<Tick>, now: nat): seq<Timer> {
    if ticks == [] then [] else
      var n := |ticks| - 1;
      ArrivalRequests(ticks[..n], now) + Registered(ticks[n].arrivals, now + n + 1)
  }

  /** The messages sent meanwhile: at each tick what is due, among the messages of others. */
  ghost function TicksSent(requests: seq<Timer>, ticks: seq<Tick>, now: nat): seq<Post> {
    if ticks == [] then [] else
      var n := |ticks| - 1;
      TicksSent(requests, ticks[..n], now)
      + Interleaved(DueAt(requests + ArrivalRequests(ticks[..n], now), now + n + 1), ticks[n].urgent)
  }

  class Wheel {
    const near: array<seq<Node>>
    const t: array2<seq<Node>>
    var time: nat
    /** Every RESPONSE handed to Starnet::Send so far. */
    var sent: seq<Post>
    var current: nat
    var currentPoint: nat

    /** The tick count that never wraps, and every request ever made. */
    ghost var clock: nat
    ghost var requests: seq<Timer>

    ghost predicate Shaped()
      reads this
    {
      near.Length == 256 && t.Length0 == 4 && t.Length1 == 64 && time == clock % WORD
    }

    ghost function Content(s: Slot): seq<Node>
      requires near.Length == 256 && t.Length0 == 4 && t.Length1 == 64
      requires ValidSlot(s)
      reads near, t
    {
      match s
      case Near(k) => near[k]
      case Level(i, j) => t[i, j]
    }

    /** Each list is the registration-ordered sequence of the pending timers whose slot, seen from
        tick `now`, it is. */
    ghost predicate Filed(pending: seq<Timer>, now: nat)
      requires Shaped()
      reads this, near, t
    {
      forall s | ValidSlot(s) :: Content(s) == NodesIn(pending, now, s)
    }

    /** Between two steps: what the wheel has sent is the schedule, what is outstanding is filed. */
    ghost predicate Valid()
      reads this, near, t
    {
      && Shaped()
      && FiredOf(sent) == Schedule(requests, clock)
      && AllInWindow(After(requests, clock), clock)
      && Filed(After(requests, clock), clock)
    }

    /** starnet_timer_init, with the two clocks it reads. */
    constructor (realtime: nat, point: nat)
      ensures Valid() && fresh(near) && fresh(t)
      ensures clock == 0 && requests == [] && sent == [] && current == realtime && currentPoint == point
    {
      near := new seq<Node>[256](_ => []);
      t := new seq<Node>[4, 64]((_, _) => []);
      time, sent, current, currentPoint := 0, [], realtime, point;
      clock, requests := 0, [];
    }

    /** Appends the node to the one list chosen by comparing it with the current time. */
    method AddNode(node: Node)
      requires Shaped() && ValidSlot(SlotOf(node.expire, time))
      modifies near, t
      ensures forall s | ValidSlot(s) ::
                Content(s) == old(Content(s)) + if s == SlotOf(node.expire, time) then [node] else []
    {
      if Quot(node.expire, 0) == Quot(time, 0) {
        near[node.expire % 0x100] := near[node.expire % 0x100] + [node];
      } else {
        var i := 0;
        while i < 3
          invariant 0 <= i <= 3
          invariant forall l | 1 <= l <= i :: Quot(node.expire, l) != Quot(time, l)
        {
          if Quot(node.expire, i + 1) == Quot(time, i + 1) {
            break;
          }
          i := i + 1;
        }
        LevelFound(node.expire, time, i);
        var j := Quot(node.expire, i) % 64;
        t[i, j] := t[i, j] + [node];
      }
    }

    /** timer_add: the caller asks for a positive delay, which is any positive C int. */
    method TimerAdd(delay: Delay, event: Event)
      requires Valid()
      modifies this`requests, near, t
      ensures Valid()
      ensures requests == old(requests) + [Timer(clock + delay, event)]
    {
      hide NodesIn, After, DueAt, Pick, Schedule, SlotOf, Quot;
      ghost var x := Timer(clock + delay, event);
      ghost var pending := After(requests, clock);
      var node := Node((delay + time) % WORD, event);
      assert node == Node(x.due % WORD, x.event);
      WordSlot(x.due, clock);
      AddNode(node);
      forall s | ValidSlot(s)
        ensures NodesIn(pending + [x], clock, s) == Content(s)
      {
        NodesInOneMore(pending, x, clock, s);
      }
      ScheduleOfOneMore(requests, x, clock);
      AfterOneMore(requests, x, clock);
      requests := requests + [x];
    }

    /** starnet_timeout: delays of zero or less are answered at once, without the wheel. */
    method Timeout(event: Event, time: Int32) returns (session: int)
      requires Valid()
      modifies this`requests, this`sent, near, t
      ensures Valid() && session == event.session
      ensures requests == old(requests) + if time <= 0 then [] else [Timer(clock + time, event)]
      ensures sent == old(sent) + if time <= 0 then [AtOnce(event)] else []
    {
      if time <= 0 {
        OthersPost([event]);
      } else {
        TimerAdd(time, event);
      }
      session := event.session;
    }

    /** Calls with no delay: they look at nothing of the wheel. */
    method OthersPost(events: seq<Event>)
      modifies this`sent
      ensures sent == old(sent) + Posts(events) && FiredOf(sent) == FiredOf(old(sent))
    {
      Projections(sent, Posts(events));
      PostsAreAtOnce(events);
      sent := sent + Posts(events);
    }

    /** Empties one list and files its nodes again, front to back; all of them go strictly lower. */
    method MoveList(level: int, idx: int)
      requires Shaped() && 0 <= level < 4 && 0 <= idx < 64
      requires forall n <- t[level, idx] ::
                 Below(SlotOf(n.expire, time), level) && ValidSlot(SlotOf(n.expire, time))
      modifies near, t
      ensures forall s | ValidSlot(s) ::
                Content(s) == (if s == Level(level, idx) then [] else old(Content(s)))
                              + Pick(old(t[level, idx]), time, s)
    {
      hide SlotOf, NodesIn, Schedule, FiredOf, Pick, Refiled, AddedTo;
      var nodes := t[level, idx];
      t[level, idx] := [];
      ghost var rest := imap s | ValidSlot(s) :: Content(s);
      assert forall s | ValidSlot(s) :: rest[s] == if s == Level(level, idx) then [] else old(Content(s));
      assert Lists(Refiled(rest, [], time)) by { NothingRefiled(rest, time); }
      hide Lists;
      for k := 0 to |nodes|
        invariant Lists(Refiled(rest, nodes[..k], time))
      {
        assert nodes[k] in nodes;
        Refile(nodes[k], Refiled(rest, nodes[..k], time));
        RefiledOneMore(rest, nodes, k, time);
      }
      assert nodes[..|nodes|] == nodes;
      ListsAre(rest, nodes);
    }

    /** The lists are those that m names. */
    ghost predicate Lists(m: imap<Slot, seq<Node>>)
      requires Shaped()
      reads this, near, t
    {
      forall s | ValidSlot(s) :: s in m && Content(s) == m[s]
    }

    method Refile(node: Node, ghost m: imap<Slot, seq<Node>>)
      requires Shaped() && ValidSlot(SlotOf(node.expire, time)) && Lists(m)
      modifies near, t
      ensures Lists(AddedTo(m, SlotOf(node.expire, time), node))
    {
      hide SlotOf;
      AddNode(node);
    }

    lemma ListsAre(rest: imap<Slot, seq<Node>>, nodes: seq<Node>)
      requires Shaped() && Lists(Refiled(rest, nodes, time)) && forall s | ValidSlot(s) :: s in rest
      ensures forall s | ValidSlot(s) :: Content(s) == rest[s] + Pick(nodes, time, s)
    {
    }

    /** timer_shift: advances the clock by one tick and cascades at most one list. The mask stays
        below 2^31, so the C int that holds it never overflows. */
    method TimerShift()
      requires Shaped() && AllInWindow(After(requests, clock), clock) && Filed(After(requests, clock), clock)
      modifies this`time, this`clock, near, t
      ensures Shaped() && clock == old(clock) + 1
      ensures Filed(After(requests, clock - 1), clock)
    {
      ghost var pending := After(requests, clock);
      hide NodesIn, After, DueAt, Pick, Schedule, SlotOf, CascadeLevel, CascadeSlot, Quot, Rem;
      ghost var was := clock;
      AfterIsAfter(requests, clock);
      time := (time + 1) % WORD;
      clock := clock + 1;
      if time == 0 {
        CascadeOnWrap(clock);
        Cascade(pending, 3, 0);
      } else {
        var mask, tm, i := Unit(0), Quot(time, 0), 0;
        while Rem(time, i) == 0
          invariant 0 <= i <= 3 && mask == Unit(i) <= MAX_DELAY && tm == Quot(time, i)
          invariant i > 0 ==> Rem(time, i) == 0
          invariant Shaped() && clock == was + 1 && time != 0
          invariant Filed(pending, was)
          decreases 4 - i
        {
          var idx := tm % 64;
          if idx != 0 {
            CascadeOfWord(clock, time, i);
            Cascade(pending, i, idx);
            return;
          }
          DigitAndUnit(time, i);
          UnitsNest(time, i);
          OnlyZeroHasNoDigits(time, i);
          mask := mask * 64;
          tm := tm / 64;
          i := i + 1;
        }
        NoCascadeOfWord(clock, time);
        RefiledWithoutCascade(pending);
      }
    }

    lemma RefiledWithoutCascade(pending: seq<Timer>)
      requires Shaped() && clock > 0
      requires AllInWindow(pending, clock - 1) && NoneBefore(pending, clock)
      requires CascadeLevel(clock) == -1 && Filed(pending, clock - 1)
      ensures Filed(pending, clock)
    {
      forall s | ValidSlot(s)
        ensures NodesIn(pending, clock, s) == Content(s)
      {
        SameSlotsWithoutCascade(pending, clock, s);
      }
    }

    /** The one move_list of a clock step restores the filing for the new tick. */
    method Cascade(ghost pending: seq<Timer>, level: int, idx: int)
      requires Shaped() && clock > 0
      requires AllInWindow(pending, clock - 1) && NoneBefore(pending, clock)
      requires Filed(pending, clock - 1)
      requires CascadeLevel(clock) == level && level >= 0 && CascadeSlot(clock) == Level(level, idx)
      modifies near, t
      ensures Filed(pending, clock)
    {
      hide NodesIn, After, DueAt, Pick, Schedule, SlotOf, Quot, CascadeLevel;
      CascadedNodesGoBelow(pending, clock);
      assert t[level, idx] == Content(Level(level, idx));
      MoveList(level, idx);
      forall s | ValidSlot(s)
        ensures NodesIn(pending, clock, s) == Content(s)
      {
        RefiledByCascade(pending, clock, s);
      }
    }

    /** dispatch_list, without the lock: one message per node, front to back, others in between. */
    method DispatchList(list: seq<Node>, urgent: seq<seq<Event>>)
      modifies this`sent
      ensures sent == old(sent) + Interleaved(Events(list), urgent)
    {
      NothingAmong(urgent);
      hide FiredOf, AtOnceOf, Events, Among, Posts, At, Late;
      for k := 0 to |list|
        invariant sent == old(sent) + Among(Events(list[..k]), urgent)
      {
        OthersPost(At(urgent, k));
        sent := sent + [Fired(list[k].event)];
        AmongOneMore(list, k, urgent);
      }
      assert list[..|list|] == list;
      OthersPost(Late(urgent, |list|));
    }

    /** The timer_add calls of other threads that get the lock, one after the other. */
    method TakeRequests(batch: seq<Request>)
      requires Valid()
      modifies this`requests, near, t
      ensures Valid()
      ensures requests == old(requests) + Registered(batch, clock)
    {
      hide NodesIn, After, DueAt, Pick, Schedule, FiredOf;
      for k := 0 to |batch|
        invariant Valid()
        invariant requests == old(requests) + Registered(batch[..k], clock)
      {
        assert batch[..k + 1][..k] == batch[..k];
        TimerAdd(batch[k].delay, batch[k].event);
      }
      assert batch[..|batch|] == batch;
    }

    /** One pass of timer_execute over a non-empty list: unlink it, open the lock, send, and let
        the waiting requests in. */
    method FireSlot(ghost pending: seq<Timer>, during: Tick)
      requires Shaped() && Filed(pending, clock)
      requires AllInWindow(pending, clock) && NoneBefore(pending, clock)
      requires After(pending, clock) == After(requests, clock)
      requires FiredOf(sent) + DueAt(pending, clock) == Schedule(requests, clock)
      modifies this`sent, this`requests, near, t
      ensures Valid()
      ensures sent == old(sent) + Interleaved(DueAt(pending, clock), during.urgent)
      ensures requests == old(requests) + Registered(during.arrivals, clock)
    {
      hide NodesIn, After, DueAt, Pick, Schedule, SlotOf, Quot, Events;
      var idx := time % 0x100;
      NearSlotIsDue(pending, clock);
      assert near[idx] == Content(Near(clock % 0x100));
      var list := near[idx];
      near[idx] := [];
      forall s | ValidSlot(s)
        ensures Content(s) == NodesIn(After(requests, clock), clock, s)
      {
        FiringLeavesOthers(pending, clock, s);
      }
      AfterInWindow(pending, clock);
      DispatchList(list, during.urgent);
      FiredAmongOthers(old(sent), DueAt(pending, clock), during.urgent);
      TakeRequests(during.arrivals);
    }

    /** timer_execute. The loop looks at the list again after sending; nobody can have refilled it,
        because a positive delay is never filed under the current tick. */
    method TimerExecute(ghost pending: seq<Timer>, during: Tick) returns (released: bool)
      requires Shaped() && Filed(pending, clock)
      requires AllInWindow(pending, clock) && NoneBefore(pending, clock)
      requires After(pending, clock) == After(requests, clock)
      requires FiredOf(sent) + DueAt(pending, clock) == Schedule(requests, clock)
      modifies this`sent, this`requests, near, t
      ensures Valid()
      ensures released <==> DueAt(pending, clock) != []
      ensures !released ==> sent == old(sent) && requests == old(requests)
      ensures released ==> requests == old(requests) + Registered(during.arrivals, clock)
      ensures released ==> sent == old(sent) + Interleaved(DueAt(pending, clock), during.urgent)
    {
      hide NodesIn, After, DueAt, Pick, Schedule, SlotOf, Quot, Events;
      var idx := time % 0x100;
      NearSlotIsDue(pending, clock);
      assert near[idx] == Content(Near(clock % 0x100));
      assert |near[idx]| == |DueAt(pending, clock)|;
      released := false;
      while near[idx] != []
        invariant !released ==> Filed(pending, clock) && sent == old(sent) && requests == old(requests)
        invariant released ==> Valid() && sent == old(sent) + Interleaved(DueAt(pending, clock), during.urgent)
        invariant released ==> near[idx] == [] && DueAt(pending, clock) != []
        invariant released ==> requests == old(requests) + Registered(during.arrivals, clock)
        invariant !released ==> |near[idx]| == |DueAt(pending, clock)|
        decreases !released
      {
        FireSlot(pending, during);
        NothingDueLater(requests, clock);
        assert near[idx] == Content(Near(clock % 0x100));
        released := true;
      }
      if !released {
        NothingDue(pending, clock);
      }
    }

    /** timer_update: one tick. The first timer_execute always finds its list empty, so the lock is
        first released, if at all, after the clock has moved; requests that do not get in through
        that gap wait for the lock to be released. */
    method TimerUpdate(during: Tick)
      requires Valid()
      modifies this`sent, this`requests, this`time, this`clock, near, t
      ensures Valid() && clock == old(clock) + 1
      ensures sent == old(sent) + Interleaved(DueAt(old(requests), clock), during.urgent)
      ensures requests == old(requests) + Registered(during.arrivals, clock)
    {
      NothingAmong(during.urgent);
      hide NodesIn, After, DueAt, Pick, FiredOf, Late, Interleaved, Posts, SlotOf, Quot;
      ghost var pending, n := After(requests, clock), clock;
      assert After(pending, n) == pending && NoneBefore(pending, n + 1) by {
        AfterIsAfter(requests, n);
      }
      assert DueAt(pending, n) == [] by {
        NothingDueLater(requests, n);
      }
      var early := TimerExecute(pending, during);
      assert !early;
      TimerShift();
      AfterStep(requests, n);
      assert AllInWindow(pending, n + 1);
      var released := TimerExecute(pending, during);
      if !released {
        TakeRequests(during.arrivals);
        OthersPost(Late(during.urgent, 0));
      }
    }

    /** How many ticks starnet_updatetime runs for a clock reading: the difference, as a uint32. */
    function Ticks(cp: nat): nat
      reads this
    {
      Elapsed(currentPoint, cp)
    }

    /** starnet_updatetime; cp is the monotonic clock in centiseconds. */
    method UpdateTime(cp: nat, ticks: seq<Tick>)
      requires Valid() && |ticks| == Ticks(cp)
      modifies this, near, t
      ensures Valid() && clock == old(clock) + |ticks|
      ensures currentPoint == cp && current == old(current) + |ticks|
      ensures cp < old(currentPoint) ==> clock == old(clock)
      ensures old(currentPoint) <= cp < old(currentPoint) + 0x1_0000_0000 ==>
                clock == old(clock) + (cp - old(currentPoint))
      ensures old(currentPoint) <= cp ==>
                && clock - old(clock) < 0x1_0000_0000
                && (cp - old(currentPoint) - (clock - old(clock))) % 0x1_0000_0000 == 0
      ensures requests == old(requests) + ArrivalRequests(ticks, old(clock))
      ensures sent == old(sent) + TicksSent(old(requests), ticks, old(clock))
    {
      hide NodesIn, After, DueAt, Pick, Schedule, FiredOf, Interleaved, Registered, TicksSent, ArrivalRequests;
      NoTicks(requests, clock);
      if cp < currentPoint {
        currentPoint := cp;
      } else if cp != currentPoint {
        var diff := (cp - currentPoint) % WORD;
        currentPoint := cp;
        current := current + diff;
        for i := 0 to diff
          invariant Valid() && clock == old(clock) + i
          invariant currentPoint == cp && current == old(current) + diff
          invariant requests == old(requests) + ArrivalRequests(ticks[..i], old(clock))
          invariant sent == old(sent) + TicksSent(old(requests), ticks[..i], old(clock))
        {
          OneMoreTick(old(requests), ticks, old(clock), i);
          TimerUpdate(ticks[i]);
        }
        assert ticks[..diff] == ticks;
      }
    }
  }

  lemma OneMoreTick(requests: seq<Timer>, ticks: seq<Tick>, now: nat, i: nat)
    requires i < |ticks|
    ensures ArrivalRequests(ticks[..i + 1], now) == ArrivalRequests(ticks[..i], now)
            + Registered(ticks[i].arrivals, now + i + 1)
    ensures TicksSent(requests, ticks[..i + 1], now)
            == TicksSent(requests, ticks[..i], now)
               + Interleaved(DueAt(requests + ArrivalRequests(ticks[..i], now), now + i + 1), ticks[i].urgent)
  {
    hide Interleaved, DueAt, Registered;
    assert ticks[..i + 1][..i] == ticks[..i];
  }

  lemma NoTicks(requests: seq<Timer>, now: nat)
    ensures ArrivalRequests([], now) == [] && TicksSent(requests, [], now) == []
  {
  }

  lemma FiredAmongOthers(sent: seq<Post>, events: seq<Event>, urgent: seq<seq<Event>>)
    ensures FiredOf(sent + Interleaved(events, urgent)) == FiredOf(sent) + events
  {
    hide FiredOf, AtOnceOf, Interleaved, Late;
    Projections(sent, Interleaved(events, urgent));
    InterleavedProjects(events, urgent);
  }

  // ----- whole runs -----

  /** The last clock reading; the first one is that of starnet_timer_init. */
  ghost function PointOf(start: nat, ops: seq<Op>): nat {
    if ops == [] then start
    else match ops[|ops| - 1] case Timeout(_, _) => PointOf(start, ops[..|ops| - 1]) case Reading(cp, _) => cp
  }

  /** Every reading, later or earlier than the last, lets the ticks run that lie between. */
  ghost predicate Paced(start: nat, ops: seq<Op>) {
    forall k | 0 <= k < |ops| && ops[k].Reading? :: |ops[k].ticks| == Elapsed(PointOf(start, ops[..k]), ops[k].cp)
  }

  ghost function TicksOf(ops: seq<Op>): nat {
    if ops == [] then 0 else
      var last := ops[|ops| - 1];
      TicksOf(ops[..|ops| - 1]) + match last case Timeout(_, _) => 0 case Reading(_, ticks) => |ticks|
  }

  /** The timers asked for, with the ticks at which they are due. */
  ghost function RequestsOf(ops: seq<Op>): seq<Timer> {
    if ops == [] then [] else
      var front, last := ops[..|ops| - 1], ops[|ops| - 1];
      RequestsOf(front) + match last
                          case Timeout(time, event) => if time <= 0 then [] else [Timer(TicksOf(front) + time, event)]
                          case Reading(_, ticks) => ArrivalRequests(ticks, TicksOf(front))
  }

  ghost function SentOf(ops: seq<Op>): seq<Post> {
    if ops == [] then [] else
      var front, last := ops[..|ops| - 1], ops[|ops| - 1];
      SentOf(front) + match last
                      case Timeout(time, event) => if time <= 0 then [AtOnce(event)] else []
                      case Reading(_, ticks) => TicksSent(RequestsOf(front), ticks, TicksOf(front))
  }

  /** The calls with no delay, wherever they came in. */
  ghost function UrgentOf(ops: seq<Op>): seq<Event> {
    if ops == [] then [] else
      UrgentOf(ops[..|ops| - 1]) + match ops[|ops| - 1]
                                   case Timeout(time, event) => if time <= 0 then [event] else []
                                   case Reading(_, ticks) => UrgentIn(ticks)
  }

  ghost function UrgentIn(ticks: seq<Tick>): seq<Event> {
    if ticks == [] then [] else UrgentIn(ticks[..|ticks| - 1]) + Late(ticks[|ticks| - 1].urgent, 0)
  }

  lemma {:induction false} TicksSentAtOnce(requests: seq<Timer>, ticks: seq<Tick>, now: nat)
    ensures AtOnceOf(TicksSent(requests, ticks, now)) == UrgentIn(ticks)
  {
    hide FiredOf, AtOnceOf, Interleaved, DueAt, Late, ArrivalRequests;
    if ticks != [] {
      var n := |ticks| - 1;
      var due := DueAt(requests + ArrivalRequests(ticks[..n], now), now + n + 1);
      TicksSentAtOnce(requests, ticks[..n], now);
      InterleavedProjects(due, ticks[n].urgent);
      Projections(TicksSent(requests, ticks[..n], now), Interleaved(due, ticks[n].urgent));
    } else {
      NoneAtOnce();
    }
  }

  lemma NoneAtOnce()
    ensures AtOnceOf([]) == []
  {
  }

  /** Every call with no delay has its message, once, in the order of the calls. */
  lemma {:induction false} AtOnceInOrder(ops: seq<Op>)
    ensures AtOnceOf(SentOf(ops)) == UrgentOf(ops)
  {
    hide FiredOf, TicksSent, UrgentIn, RequestsOf;
    if ops != [] {
      var front, last := ops[..|ops| - 1], ops[|ops| - 1];
      AtOnceInOrder(front);
      match last
      case Timeout(time, event) =>
        Projections(SentOf(front), [AtOnce(event)]);
        OneAtOnce(event);
        assert SentOf(front) + [] == SentOf(front);
      case Reading(_, ticks) =>
        TicksSentAtOnce(RequestsOf(front), ticks, TicksOf(front));
        Projections(SentOf(front), TicksSent(RequestsOf(front), ticks, TicksOf(front)));
    }
  }

  lemma OneAtOnce(event: Event)
    ensures AtOnceOf([AtOnce(event)]) == [event]
  {
  }

  lemma {:induction false} RunsGrow(ops: seq<Op>, k: nat)
    requires k <= |ops|
    ensures RequestsOf(ops[..k]) <= RequestsOf(ops) && SentOf(ops[..k]) <= SentOf(ops)
  {
    hide TicksSent, ArrivalRequests;
    if k == |ops| {
      assert ops[..k] == ops;
    } else {
      RunsGrow(ops[..|ops| - 1], k);
      assert ops[..|ops| - 1][..k] == ops[..k];
    }
  }

  function Asks(op: Op, now: nat): seq<Timer>
    requires op.Timeout?
  {
    if op.time <= 0 then [] else [Timer(now + op.time, op.event)]
  }

  lemma LastCall(ops: seq<Op>)
    requires ops != [] && ops[|ops| - 1].Timeout?
    ensures var front, last := ops[..|ops| - 1], ops[|ops| - 1];
            && RequestsOf(ops) == RequestsOf(front) + Asks(last, TicksOf(front))
            && SentOf(ops) == SentOf(front) + if last.time <= 0 then [AtOnce(last.event)] else []
  {
    hide TicksSent, ArrivalRequests;
  }

  lemma CallInRun(ops: seq<Op>, k: nat)
    requires k < |ops| && ops[k].Timeout?
    ensures RequestsOf(ops[..k]) + Asks(ops[k], TicksOf(ops[..k])) <= RequestsOf(ops)
    ensures SentOf(ops[..k]) + (if ops[k].time <= 0 then [AtOnce(ops[k].event)] else []) <= SentOf(ops)
  {
    hide SentOf, RequestsOf, TicksOf, Asks;
    var upTo := ops[..k + 1];
    assert upTo[..k] == ops[..k] && upTo[k] == ops[k];
    LastCall(upTo);
    RunsGrow(ops, k + 1);
  }

  /** A call of starnet_timeout somewhere in a run: with no delay its message is the next one sent ... */
  lemma AnsweredAtOnce(ops: seq<Op>, k: nat)
    requires k < |ops| && ops[k].Timeout? && ops[k].time <= 0
    ensures |SentOf(ops[..k])| < |SentOf(ops)| && SentOf(ops)[|SentOf(ops[..k])|] == AtOnce(ops[k].event)
  {
    hide SentOf, RequestsOf;
    CallInRun(ops, k);
    assert (SentOf(ops[..k]) + [AtOnce(ops[k].event)])[|SentOf(ops[..k])|] == AtOnce(ops[k].event);
  }

  /** ... and with a delay d it is, among the messages of the wheel, in the stretch of the tick d ticks
      later. */
  lemma TimeoutFiresOnTime(ops: seq<Op>, k: nat)
    requires k < |ops| && ops[k].Timeout? && ops[k].time > 0 && TicksOf(ops[..k]) + ops[k].time <= TicksOf(ops)
    ensures var requests, i, due := RequestsOf(ops), |RequestsOf(ops[..k])|, TicksOf(ops[..k]) + ops[k].time;
            && i < |requests| && requests[i] == Timer(due, ops[k].event)
            && SentBefore(requests, due) <= Position(requests, i) < |Schedule(requests, due)|
            && Position(requests, i) < |Schedule(requests, TicksOf(ops))|
            && Schedule(requests, TicksOf(ops))[Position(requests, i)] == ops[k].event
  {
    hide Schedule, Position, DueAt, SentBefore, SentOf, RequestsOf;
    CallInRun(ops, k);
    var due := TicksOf(ops[..k]) + ops[k].time;
    assert (RequestsOf(ops[..k]) + [Timer(due, ops[k].event)])[|RequestsOf(ops[..k])|] == Timer(due, ops[k].event);
    EachRequestSentOnce(RequestsOf(ops), TicksOf(ops));
  }

  /** Every run: whatever calls are made and however far the clock runs (past 2^32 as well), the wheel's
      messages are exactly the schedule of the timers asked for, whatever comes in between. */
  method Run(realtime: nat, start: nat, ops: seq<Op>) returns (sent: seq<Post>)
    requires Paced(start, ops)
    ensures sent == SentOf(ops)
    ensures FiredOf(sent) == Schedule(RequestsOf(ops), TicksOf(ops))
  {
    hide NodesIn, After, DueAt, Pick, Schedule, ArrivalRequests, TicksSent, FiredOf;
    var wheel := new Wheel(realtime, start);
    for k := 0 to |ops|
      invariant wheel.Valid() && fresh(wheel) && fresh(wheel.near) && fresh(wheel.t)
      invariant wheel.clock == TicksOf(ops[..k]) && wheel.currentPoint == PointOf(start, ops[..k])
      invariant wheel.requests == RequestsOf(ops[..k])
      invariant wheel.sent == SentOf(ops[..k])
    {
      assert ops[..k + 1][..k] == ops[..k];
      match ops[k]
      case Timeout(time, event) =>
        var _ := wheel.Timeout(event, time);
      case Reading(cp, ticks) =>
        wheel.UpdateTime(cp, ticks);
    }
    assert ops[..|ops|] == ops;
    sent := wheel.sent;
  }
}
