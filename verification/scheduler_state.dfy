/**
 The bookkeeping of the Lua scheduler as values: where every coroutine is, and who still owes a reply.
 */
module SchedulerState {

  type Co = nat

  datatype Option<T> = None | Some(value: T)

  /** What a coroutine is doing. Armed: it has its function and waits to be started. */
  datatype Status = Armed | Pooled | Forked | Timed(session: int) | Waiting(session: int) | Parked | Active | Dead

  /** Who resumed a coroutine: the dispatcher, which looks at what it yields; the loop over the fork
      queue, which does not; or another coroutine, which remembers what running_thread was. */
  datatype Resumer = ByDispatch | ByDrain | ByWakeup(before: Option<Co>)

  datatype Frame = Frame(co: Co, from: Resumer)

  ghost predicate NoDup(s: seq<nat>) {
    forall i, j | 0 <= i < j < |s| :: s[i] != s[j]
  }

  ghost predicate Holds(status: map<Co, Status>, co: Co, st: Status) {
    co in status && status[co] == st
  }

  // ----- one place each -----

  /** Exactly the pooled coroutines are in the pool, and so on for every place. */
  ghost predicate Located(pool: seq<Co>, forks: seq<Co>, sessions: map<int, Co>, frames: seq<Frame>,
                          status: map<Co, Status>) {
    && NoDup(pool) && (forall co | co in pool :: Holds(status, co, Pooled))
    && NoDup(forks) && (forall co | co in forks :: Holds(status, co, Forked))
    && (forall s | s in sessions :: Holds(status, sessions[s], Timed(s)) || Holds(status, sessions[s], Waiting(s)))
    && (forall i, j | 0 <= i < j < |frames| :: frames[i].co != frames[j].co)
    && (forall i | 0 <= i < |frames| :: Holds(status, frames[i].co, Active))
    && (forall co | co in status :: AtPlace(pool, forks, sessions, frames, status[co], co))
  }

  ghost predicate OnStack(frames: seq<Frame>, co: Co) {
    exists i :: 0 <= i < |frames| && frames[i].co == co
  }

  ghost predicate AtPlace(pool: seq<Co>, forks: seq<Co>, sessions: map<int, Co>, frames: seq<Frame>, st: Status,
                          co: Co) {
    match st
    case Pooled => co in pool
    case Forked => co in forks
    case Timed(s) => s in sessions && sessions[s] == co
    case Waiting(s) => s in sessions && sessions[s] == co
    case Active => OnStack(frames, co)
    case _ => true
  }

  // ----- moving from one place to another -----

  lemma TakenFromPool(pool: seq<Co>, forks: seq<Co>, sessions: map<int, Co>, frames: seq<Frame>,
                      status: map<Co, Status>)
    requires Located(pool, forks, sessions, frames, status) && pool != []
    ensures var co := pool[|pool| - 1];
            Holds(status, co, Pooled) && Located(pool[..|pool| - 1], forks, sessions, frames, status[co := Armed])
  {
    var co, pool' := pool[|pool| - 1], pool[..|pool| - 1];
    forall c | c in pool && c != co ensures c in pool' {
      assert pool == pool' + [co];
    }
    assert co !in pool';
    forall c | c in pool' ensures c in pool {
      assert pool == pool' + [co];
    }
  }

  lemma Created(pool: seq<Co>, forks: seq<Co>, sessions: map<int, Co>, frames: seq<Frame>, status: map<Co, Status>,
                co: Co)
    requires Located(pool, forks, sessions, frames, status) && co !in status
    ensures Located(pool, forks, sessions, frames, status[co := Armed])
  {
  }

  /** An armed or parked coroutine is resumed. */
  lemma Resumed(pool: seq<Co>, forks: seq<Co>, sessions: map<int, Co>, frames: seq<Frame>, status: map<Co, Status>,
                f: Frame)
    requires Located(pool, forks, sessions, frames, status)
    requires Holds(status, f.co, Armed) || Holds(status, f.co, Parked)
    ensures Located(pool, forks, sessions, frames + [f], status[f.co := Active])
  {
    StaysOnStack(frames, f);
    hide OnStack;
  }

  lemma StaysOnStack(frames: seq<Frame>, f: Frame)
    ensures OnStack(frames + [f], f.co)
    ensures forall co | OnStack(frames, co) :: OnStack(frames + [f], co)
    ensures frames != [] ==> forall co | OnStack(frames, co) && co != frames[|frames| - 1].co ::
            OnStack(frames[..|frames| - 1], co)
  {
    assert (frames + [f])[|frames|].co == f.co;
    forall co | OnStack(frames, co) ensures OnStack(frames + [f], co) {
      var i :| 0 <= i < |frames| && frames[i].co == co;
      assert (frames + [f])[i].co == co;
    }
    if frames != [] {
      forall co | OnStack(frames, co) && co != frames[|frames| - 1].co ensures OnStack(frames[..|frames| - 1], co) {
        var i :| 0 <= i < |frames| && frames[i].co == co;
        assert frames[..|frames| - 1][i].co == co;
      }
    }
  }

  lemma TakenFromForks(pool: seq<Co>, forks: seq<Co>, sessions: map<int, Co>, frames: seq<Frame>,
                       status: map<Co, Status>)
    requires Located(pool, forks, sessions, frames, status) && forks != []
    ensures Holds(status, forks[0], Forked) && Located(pool, forks[1..], sessions, frames, status[forks[0] := Armed])
  {
    var co := forks[0];
    hide OnStack;
    forall c | c in forks && c != co ensures c in forks[1..] {
      assert forks == [co] + forks[1..];
    }
    assert co in forks && co !in forks[1..];
    assert forall i | 0 <= i < |forks| - 1 :: forks[1..][i] == forks[i + 1];
    forall c | c in forks[1..] ensures c in forks {
      assert forks == [co] + forks[1..];
    }
  }

  lemma TakenFromSessions(pool: seq<Co>, forks: seq<Co>, sessions: map<int, Co>, frames: seq<Frame>,
                          status: map<Co, Status>, s: int)
    requires Located(pool, forks, sessions, frames, status) && s in sessions
    ensures Located(pool, forks, sessions - {s}, frames, status[sessions[s] := Armed])
    ensures Holds(status, sessions[s], Timed(s)) || Holds(status, sessions[s], Waiting(s))
  {
    hide OnStack;
  }

  lemma Queued(pool: seq<Co>, forks: seq<Co>, sessions: map<int, Co>, frames: seq<Frame>, status: map<Co, Status>,
               co: Co)
    requires Located(pool, forks, sessions, frames, status) && Holds(status, co, Armed)
    ensures Located(pool, forks + [co], sessions, frames, status[co := Forked])
  {
    assert (forks + [co])[|forks|] == co && co !in forks;
    assert forall i | 0 <= i < |forks| :: forks[i] in forks;
    assert forall c | c in forks :: c in forks + [co];
  }

  lemma Registered(pool: seq<Co>, forks: seq<Co>, sessions: map<int, Co>, frames: seq<Frame>, status: map<Co, Status>,
                   co: Co, s: int)
    requires Located(pool, forks, sessions, frames, status) && Holds(status, co, Armed) && s !in sessions
    ensures Located(pool, forks, sessions[s := co], frames, status[co := Timed(s)])
  {
  }

  /** The running coroutine waits for a message of session s. */
  lemma Suspended(pool: seq<Co>, forks: seq<Co>, sessions: map<int, Co>, frames: seq<Frame>, status: map<Co, Status>,
                  s: int)
    requires Located(pool, forks, sessions, frames, status) && frames != [] && s !in sessions
    ensures var top := frames[|frames| - 1].co;
            Located(pool, forks, sessions[s := top], frames[..|frames| - 1], status[top := Waiting(s)])
              && Holds(status, top, Active)
  {
    StaysOnStack(frames, frames[0]);
    hide OnStack;
  }

  lemma Left(pool: seq<Co>, forks: seq<Co>, sessions: map<int, Co>, frames: seq<Frame>, status: map<Co, Status>,
             st: Status)
    requires Located(pool, forks, sessions, frames, status) && frames != [] && st in {Parked, Dead}
    ensures Located(pool, forks, sessions, frames[..|frames| - 1], status[frames[|frames| - 1].co := st])
    ensures Holds(status, frames[|frames| - 1].co, Active)
  {
    StaysOnStack(frames, frames[0]);
    hide OnStack;
  }

  lemma BackToPool(pool: seq<Co>, forks: seq<Co>, sessions: map<int, Co>, frames: seq<Frame>, status: map<Co, Status>)
    requires Located(pool, forks, sessions, frames, status) && frames != []
    ensures var top := frames[|frames| - 1].co;
            Located(pool + [top], forks, sessions, frames[..|frames| - 1], status[top := Pooled])
              && Holds(status, top, Active)
  {
    StaysOnStack(frames, frames[0]);
    hide OnStack;
    var top := frames[|frames| - 1].co;
    assert (pool + [top])[|pool|] == top && top !in pool;
    assert forall i | 0 <= i < |pool| :: pool[i] in pool;
    assert forall c | c in pool :: c in pool + [top];
  }

  // ----- running_thread -----

  /** It is the coroutine on top; the others are each waiting for the one they woke. */
  ghost predicate Running(frames: seq<Frame>, running: Option<Co>) {
    && (frames != [] ==> running == Some(frames[|frames| - 1].co) && !frames[0].from.ByWakeup?)
    && (forall i | 1 <= i < |frames| :: frames[i].from == ByWakeup(Some(frames[i - 1].co)))
  }

  // ----- contexts and replies -----

  /** No coroutine in the pool, in the fork queue or on a timer carries a session or an address. */
  ghost predicate Contexts(coSession: map<Co, int>, coAddress: map<Co, int>, status: map<Co, Status>) {
    && coSession.Keys <= coAddress.Keys
    && (forall co | co in coAddress ::
          co in status && (status[co] in {Armed, Active, Parked, Dead} || status[co].Waiting?))
  }

  /** A function that starnet.response has given out. */
  datatype Closure = Closure(address: int, session: int, sent: bool)

  datatype Request = Request(address: int, session: int)

  /** Which request each context and each closure stands for, and which requests have their reply. */
  datatype Ledger = Ledger(requests: seq<Request>, ofCo: map<Co, nat>, ofClosure: seq<nat>, replied: seq<nat>)

  ghost predicate Replies(coSession: map<Co, int>, coAddress: map<Co, int>, closures: seq<Closure>,
                          replies: seq<Request>, l: Ledger) {
    && l.ofCo.Keys == coSession.Keys && coSession.Keys <= coAddress.Keys
    && |l.ofClosure| == |closures| && |l.replied| == |replies|
    && (forall co | co in l.ofCo ::
          l.ofCo[co] < |l.requests| && l.requests[l.ofCo[co]] == Request(coAddress[co], coSession[co]))
    && (forall i | 0 <= i < |closures| ::
          && l.ofClosure[i] < |l.requests|
          && l.requests[l.ofClosure[i]] == Request(closures[i].address, closures[i].session))
    && (forall i | 0 <= i < |replies| ::
          l.replied[i] < |l.requests| && replies[i] == l.requests[l.replied[i]] && replies[i].session != 0)
    && (forall co, co' | co in l.ofCo && co' in l.ofCo && co != co' :: l.ofCo[co] != l.ofCo[co'])
    && NoDup(l.ofClosure) && NoDup(l.replied)
    && (forall co | co in l.ofCo :: l.ofCo[co] !in l.ofClosure && l.ofCo[co] !in l.replied)
    && (forall i | 0 <= i < |closures| && !closures[i].sent :: l.ofClosure[i] !in l.replied)
  }

  function Without(m: map<Co, int>, co: Co): map<Co, int> {
    m - {co}
  }

  ghost function Release(l: Ledger, co: Co): (r: Ledger)
    ensures r.requests == l.requests
  {
    l.(ofCo := l.ofCo - {co})
  }

  /** Nobody has answered the request, and nobody else is going to. */
  ghost predicate Unanswered(l: Ledger, r: nat, req: Request) {
    && r < |l.requests| && l.requests[r] == req && r !in l.replied && r !in l.ofClosure
    && (forall co | co in l.ofCo :: l.ofCo[co] != r)
  }

  /** The whole scheduler: the tables of the library, what the Lua machine knows (who resumed whom,
      what every coroutine is doing), whether a message has been dispatched and the fork queue not been
      emptied since, and the record of who owes which reply. */
  datatype State = State(
    pool: seq<Co>,
    sessionCo: map<int, Co>,
    coSession: map<Co, int>,
    coAddress: map<Co, int>,
    forks: seq<Co>,
    running: Option<Co>,
    closures: seq<Closure>,
    replies: seq<Request>,
    lastSession: nat,
    frames: seq<Frame>,
    status: map<Co, Status>,
    created: nat,
    dispatching: bool,
    ledger: Ledger)

  const FRESH := State([], map[], map[], map[], [], None, [], [], 0, [], map[], 0, false, Ledger([], map[], [], []))

  ghost predicate Counted(st: State) {
    && (forall co | co in st.status :: co < st.created)
    && (forall s | s in st.sessionCo :: s <= st.lastSession)
    && (st.frames != [] ==> (st.frames[0].from == ByDrain ==> st.dispatching))
  }

  /** Every reply that can still be sent, or has been, is that of one request, and of one only. */
  ghost predicate Owed(st: State) {
    Replies(st.coSession, st.coAddress, st.closures, st.replies, st.ledger)
  }

  ghost predicate Inv(st: State) {
    && Counted(st)
    && Located(st.pool, st.forks, st.sessionCo, st.frames, st.status)
    && Running(st.frames, st.running)
    && Contexts(st.coSession, st.coAddress, st.status)
    && Owed(st)
  }
}
