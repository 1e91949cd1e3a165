/**
 Reassembly of length-prefixed packets from arbitrary chunks: half packets wait per connection in
 the chains of a hash table, complete packets in a ring buffer that grows.
 */
module Netpack {
  import opened Framing

  const QUEUESIZE: nat := 1024
  const HASHSIZE: nat := 4096

  datatype Option<T> = None | Some(value: T)

  /** A complete packet of connection `id`. */
  datatype Pack = Pack(id: int, buffer: seq<Byte>)

  /** A half packet: `read` is -1 while only the header's first byte is known, and otherwise counts
      the bytes of the buffer that are filled. */
  datatype Half = Half(id: int, size: int, buffer: seq<Byte>, read: int, header: Byte)

  datatype Filtered = Nothing | Data(msg: seq<Byte>) | More(msg: seq<Byte>)

  /** What a connection's owner sees: bytes arriving, or the connection closing. */
  datatype Event = Chunk(fd: int, bytes: seq<Byte>) | Closed(fd: int)

  /** hash_fd; Dafny's division rounds down, like the source's arithmetic shifts. */
  function HashFd(fd: int): (h: int)
    ensures 0 <= h < HASHSIZE
  {
    (fd / 0x100_0000 + fd / 0x1000 + fd) % 0x1_0000_0000 % HASHSIZE
  }

  predicate ValidHalf(h: Half) {
    if h.read < 0 then h.read == -1 && h.buffer == []
    else h.read < h.size < TOO_LONG && |h.buffer| == h.read
  }

  /** The bytes of the stream a half packet stands for. */
  function HalfBytes(h: Half): seq<Byte>
    requires ValidHalf(h)
  {
    if h.read < 0 then [h.header] else [h.size / 0x100, h.size % 0x100] + h.buffer
  }

  lemma HalfIsIncomplete(h: Half)
    requires ValidHalf(h)
    ensures !HasPacket(HalfBytes(h)) && HalfBytes(h) != []
  {
  }

  ghost predicate ValidChain(chain: seq<Half>, bucket: int) {
    && (forall i | 0 <= i < |chain| :: ValidHalf(chain[i]) && HashFd(chain[i].id) == bucket)
    && (forall i, j | 0 <= i < j < |chain| :: chain[i].id != chain[j].id)
  }

  /** The half packet of fd in a chain. */
  ghost function Find(chain: seq<Half>, fd: int): Option<Half> {
    if chain == [] then None
    else if chain[0].id == fd then Some(chain[0])
    else Find(chain[1..], fd)
  }

  ghost function RestIn(chain: seq<Half>, fd: int): seq<Byte> {
    match Find(chain, fd)
    case Some(h) => if ValidHalf(h) then HalfBytes(h) else []
    case None => []
  }

  lemma {:induction false} FindAt(chain: seq<Half>, fd: int, k: int)
    requires 0 <= k <= |chain|
    requires forall i | 0 <= i < k :: chain[i].id != fd
    ensures Find(chain, fd) == if k < |chain| && chain[k].id == fd then Some(chain[k]) else Find(chain[k..], fd)
  {
    if k > 0 {
      FindAt(chain[1..], fd, k - 1);
      assert chain[1..][k - 1..] == chain[k..];
    } else {
      assert chain[0..] == chain;
    }
  }

  lemma {:induction false} FindWithout(chain: seq<Half>, k: int, fd: int)
    requires 0 <= k < |chain|
    requires forall i, j | 0 <= i < j < |chain| :: chain[i].id != chain[j].id
    ensures Find(chain[..k] + chain[k + 1..], fd) == if fd == chain[k].id then None else Find(chain, fd)
  {
    if k == 0 {
      assert chain[..k] + chain[k + 1..] == chain[1..];
      if fd == chain[0].id {
        NotFound(chain[1..], fd);
      }
    } else {
      var without := chain[..k] + chain[k + 1..];
      FindWithout(chain[1..], k - 1, fd);
      assert without[1..] == chain[1..][..k - 1] + chain[1..][k..];
    }
  }

  lemma {:induction false} NotFound(chain: seq<Half>, fd: int)
    requires forall i | 0 <= i < |chain| :: chain[i].id != fd
    ensures Find(chain, fd) == None
  {
    if chain != [] {
      NotFound(chain[1..], fd);
    }
  }

  ghost function Tagged(fd: int, msgs: seq<seq<Byte>>): seq<Pack> {
    seq(|msgs|, k requires 0 <= k < |msgs| => Pack(fd, msgs[k]))
  }

  lemma NothingTagged(fd: int)
    ensures Tagged(fd, []) == []
  {
  }

  lemma TaggedOneMore(fd: int, msgs: seq<seq<Byte>>, msg: seq<Byte>)
    ensures Tagged(fd, msgs + [msg]) == Tagged(fd, msgs) + [Pack(fd, msg)]
  {
  }

  lemma FirstOfTagged(fd: int, msgs: seq<seq<Byte>>)
    requires msgs != []
    ensures Tagged(fd, msgs) == [Pack(fd, msgs[0])] + Tagged(fd, msgs[1..])
  {
  }

  // ----- the parse, case by case as the code meets it -----

  lemma EmptyStream()
    ensures Packets([]) == [] && Rest([]) == []
  {
  }

  lemma OneByte(fd: int, buf: seq<Byte>)
    requires |buf| == 1
    ensures Packets(buf) == [] && Rest(buf) == buf
    ensures ValidHalf(Half(fd, 0, [], -1, buf[0])) && HalfBytes(Half(fd, 0, [], -1, buf[0])) == buf
  {
  }

  lemma TooFewBytes(fd: int, buf: seq<Byte>)
    requires |buf| >= 2 && |buf| - 2 < ReadSize(buf[0], buf[1])
    ensures Packets(buf) == [] && Rest(buf) == buf
    ensures ReadSize(buf[0], buf[1]) < TOO_LONG
    ensures ValidHalf(Half(fd, ReadSize(buf[0], buf[1]), buf[2..], |buf| - 2, 0))
    ensures HalfBytes(Half(fd, ReadSize(buf[0], buf[1]), buf[2..], |buf| - 2, 0)) == buf
  {
  }

  lemma TakePacket(buf: seq<Byte>)
    requires |buf| >= 2 && |buf| - 2 >= ReadSize(buf[0], buf[1])
    ensures var n := ReadSize(buf[0], buf[1]);
            Packets(buf) == [buf[2..2 + n]] + Packets(buf[2 + n..]) && Rest(buf) == Rest(buf[2 + n..])
  {
  }

  lemma HalfStaysHalf(h: Half)
    requires ValidHalf(h)
    ensures Packets(HalfBytes(h)) == [] && Rest(HalfBytes(h)) == HalfBytes(h)
  {
    HalfIsIncomplete(h);
  }

  /** Once the length is complete, a half packet and a chunk are a header, what is filled, and the
      bytes still unused. */
  lemma HeaderKnown(half: Half, buffer: seq<Byte>)
    requires ValidHalf(half) && |buffer| > 0
    ensures half.read < 0 ==>
              var size := ReadSize(half.header, buffer[0]);
              size < TOO_LONG && HalfBytes(half) + buffer == Header(size) + half.buffer + buffer[1..]
    ensures half.read >= 0 ==> HalfBytes(half) + buffer == Header(half.size) + half.buffer + buffer
  {
    if half.read < 0 {
      SizeBytes(half.header, buffer[0]);
      assert buffer == [buffer[0]] + buffer[1..];
    }
  }

  lemma SizeBytes(a: Byte, b: Byte)
    ensures ReadSize(a, b) < TOO_LONG && ReadSize(a, b) / 0x100 == a && ReadSize(a, b) % 0x100 == b
  {
  }

  function Header(size: nat): seq<Byte>
    requires size < TOO_LONG
  {
    [size / 0x100, size % 0x100]
  }

  lemma Unfinished(uc: Half, filled: seq<Byte>, buf: seq<Byte>)
    requires ValidHalf(uc) && uc.read >= 0 && uc.buffer == filled + buf
    ensures HalfBytes(uc) == Header(uc.size) + filled + buf
  {
  }

  lemma Finished(msg: seq<Byte>, filled: seq<Byte>, buf: seq<Byte>, need: nat)
    requires need <= |buf| && msg == filled + buf[..need] && |msg| < TOO_LONG
    ensures Frame(msg) + buf[need..] == Header(|msg|) + filled + buf
  {
    assert buf == buf[..need] + buf[need..];
  }

  lemma {:induction false} RestInFound(chain: seq<Half>, bucket: int, fd: int)
    requires ValidChain(chain, bucket)
    ensures match Find(chain, fd)
            case None => RestIn(chain, fd) == []
            case Some(h) => h.id == fd && ValidHalf(h) && RestIn(chain, fd) == HalfBytes(h)
  {
    if chain != [] && chain[0].id != fd {
      RestInFound(chain[1..], bucket, fd);
    } else if chain != [] {
      assert ValidHalf(chain[0]);
    }
  }

  lemma RestIsIncomplete(chain: seq<Half>, bucket: int, fd: int)
    requires ValidChain(chain, bucket)
    ensures Packets(RestIn(chain, fd)) == [] && Rest(RestIn(chain, fd)) == RestIn(chain, fd)
  {
    hide Packets, Rest, HasPacket, HalfBytes, RestIn;
    RestInFound(chain, bucket, fd);
    match Find(chain, fd)
    case Some(h) => HalfStaysHalf(h);
    case None => EmptyStream();
  }

  /** The slots of a ring from head up to tail. */
  ghost function Ring(slots: seq<Pack>, head: nat, tail: nat): seq<Pack>
    requires head <= |slots| && tail <= |slots|
  {
    if head <= tail then slots[head..tail] else slots[head..] + slots[..tail]
  }

  lemma RingGrows(slots: seq<Pack>, head: nat, tail: nat, p: Pack)
    requires head < |slots| && tail < |slots| && (tail + 1 < |slots| ==> tail + 1 != head)
    requires tail + 1 == |slots| ==> head != 0
    ensures Ring(slots[tail := p], head, if tail + 1 < |slots| then tail + 1 else 0) == Ring(slots, head, tail) + [p]
  {
    var now := slots[tail := p];
    if head <= tail {
      assert now[head..tail + 1] == slots[head..tail] + [p];
      if tail + 1 == |slots| {
        assert now[head..] + now[..0] == now[head..tail + 1];
      }
    } else {
      assert now[head..] == slots[head..] && now[..tail + 1] == slots[..tail] + [p];
    }
  }

  class Queue {
    const hash: array<seq<Half>>
    var queue: array<Pack>
    var head: nat
    var tail: nat

    ghost predicate Valid()
      reads this, hash, queue
    {
      && hash.Length == HASHSIZE
      && 2 <= queue.Length && head < queue.Length && tail < queue.Length
      && (forall b | 0 <= b < HASHSIZE :: ValidChain(hash[b], b))
    }

    /** The ring buffer, linear or wrapped, as the queue it represents. */
    ghost function Contents(): seq<Pack>
      requires head <= queue.Length && tail <= queue.Length
      reads this, queue
    {
      if head <= tail then queue[head..tail] else queue[head..] + queue[..tail]
    }

    /** The unparsed bytes of a connection. */
    ghost function RestOf(fd: int): seq<Byte>
      requires hash.Length == HASHSIZE
      reads hash
    {
      RestIn(hash[HashFd(fd)], fd)
    }

    constructor ()
      ensures Valid() && fresh(hash) && fresh(queue)
      ensures Contents() == []
      ensures forall fd :: RestOf(fd) == []
    {
      hash := new seq<Half>[HASHSIZE](_ => []);
      queue := new Pack[QUEUESIZE](_ => Pack(0, []));
      head, tail := 0, 0;
    }

    /** Takes the half packet of fd out of its chain. */
    method FindUncomplete(fd: int) returns (uc: Option<Half>)
      requires Valid()
      modifies hash
      ensures Valid()
      ensures uc == Find(old(hash[HashFd(fd)]), fd)
      ensures uc.Some? ==> uc.value.id == fd && ValidHalf(uc.value)
      ensures forall x :: RestOf(x) == if x == fd then [] else old(RestOf(x))
      ensures Find(hash[HashFd(fd)], fd) == None
    {
      var h := HashFd(fd);
      var chain := hash[h];
      var k := 0;
      while k < |chain| && chain[k].id != fd
        invariant 0 <= k <= |chain|
        invariant forall i | 0 <= i < k :: chain[i].id != fd
      {
        k := k + 1;
      }
      FindAt(chain, fd, k);
      if k < |chain| {
        uc := Some(chain[k]);
        hash[h] := chain[..k] + chain[k + 1..];
        forall x
          ensures Find(hash[h], x) == if x == fd then None else Find(chain, x)
        {
          FindWithout(chain, k, x);
        }
      } else {
        uc := None;
      }
    }

    /** Puts a half packet at the front of its chain; the caller has taken the old one out. */
    method SaveUncomplete(uc: Half)
      requires Valid() && ValidHalf(uc)
      requires Find(hash[HashFd(uc.id)], uc.id) == None
      modifies hash
      ensures Valid()
      ensures forall x :: RestOf(x) == if x == uc.id then HalfBytes(uc) else old(RestOf(x))
    {
      var h := HashFd(uc.id);
      NoneIsAbsent(hash[h], uc.id);
      hash[h] := [uc] + hash[h];
    }

    lemma {:induction false} NoneIsAbsent(chain: seq<Half>, fd: int)
      requires Find(chain, fd) == None
      ensures forall i | 0 <= i < |chain| :: chain[i].id != fd
    {
      if chain != [] {
        NoneIsAbsent(chain[1..], fd);
        assert chain == [chain[0]] + chain[1..];
      }
    }

    /** Moves the ring to the front of a larger array. */
    method ExpandQueue(sz: nat)
      requires Valid() && sz > queue.Length
      modifies this`queue, this`head, this`tail
      ensures Valid() && fresh(queue) && queue.Length == sz
      ensures Contents() == old(Contents()) && head == 0 && tail < old(queue.Length)
    {
      var nq := new Pack[sz](_ => Pack(0, []));
      if head > tail {
        var n := queue.Length - head;
        Copy(nq, 0, queue, head, n);
        Copy(nq, n, queue, 0, tail + 1);
        assert nq[..n] + nq[n..n + tail] == nq[..n + tail];
        tail := n + tail;
      } else {
        Copy(nq, 0, queue, head, tail - head);
        tail := tail - head;
      }
      queue := nq;
      head := 0;
    }

    /** memcpy */
    static method Copy(to: array<Pack>, at: nat, from: array<Pack>, start: nat, n: nat)
      requires to != from && at + n <= to.Length && start + n <= from.Length
      modifies to
      ensures forall k | 0 <= k < to.Length :: to[k] == if at <= k < at + n then from[start + k - at] else old(to[k])
    {
      forall i | 0 <= i < n {
        to[at + i] := from[start + i];
      }
    }

    /** Appends a packet; a full ring is doubled first, so that nothing is overwritten. */
    method PushData(fd: int, buffer: seq<Byte>)
      requires Valid()
      modifies this`queue, this`head, this`tail, queue
      ensures Valid() && (queue == old(queue) || fresh(queue))
      ensures Contents() == old(Contents()) + [Pack(fd, buffer)]
    {
      var next := tail + 1;
      if next >= queue.Length {
        next := next - queue.Length;
      }
      if next == head {
        ExpandQueue(queue.Length * 2);
      }
      ghost var was, from, to := queue[..], head, tail;
      ContentsAreRing();
      queue[tail] := Pack(fd, buffer);
      tail := tail + 1;
      if tail >= queue.Length {
        tail := tail - queue.Length;
      }
      ContentsAreRing();
      hide Ring, ValidChain;
      RingGrows(was, from, to, Pack(fd, buffer));
      assert queue[..] == was[to := Pack(fd, buffer)];
    }

    lemma ContentsAreRing()
      requires head <= queue.Length && tail <= queue.Length
      ensures Contents() == Ring(queue[..], head, tail)
    {
    }

    /** Takes the oldest packet. */
    method Pop() returns (pack: Option<Pack>)
      requires Valid()
      modifies this`head
      ensures Valid()
      ensures old(Contents()) == [] ==> pack == None && Contents() == []
      ensures old(Contents()) != [] ==> pack == Some(old(Contents())[0]) && Contents() == old(Contents())[1..]
    {
      if head == tail {
        return None;
      }
      pack := Some(queue[head]);
      head := head + 1;
      if head >= queue.Length {
        head := 0;
      }
    }

    /** Files the packets behind the first one: complete ones in the ring, an incomplete one in its
        chain. */
    method PushMore(fd: int, buffer: seq<Byte>)
      requires Valid() && Find(hash[HashFd(fd)], fd) == None
      modifies this`queue, this`head, this`tail, queue, hash
      ensures Valid() && (queue == old(queue) || fresh(queue))
      ensures Contents() == old(Contents()) + Tagged(fd, Packets(buffer))
      ensures forall x :: RestOf(x) == if x == fd then Rest(buffer) else old(RestOf(x))
    {
      hide Packets, Rest, HasPacket, Find, HalfBytes, RestIn, Tagged, Ring;
      RestInFound(hash[HashFd(fd)], HashFd(fd), fd);
      NothingTagged(fd);
      hide ValidChain, ValidHalf, HashFd;
      var buf := buffer;
      ghost var done := [];
      while |buf| > 0
        invariant Valid() && (queue == old(queue) || fresh(queue))
        invariant hash[..] == old(hash[..])
        invariant Packets(buffer) == done + Packets(buf) && Rest(buffer) == Rest(buf)
        invariant Contents() == old(Contents()) + Tagged(fd, done)
        decreases |buf|
      {
        if |buf| == 1 {
          OneByte(fd, buf);
          assert done + [] == done;
          SaveUncomplete(Half(fd, 0, [], -1, buf[0]));
          return;
        }
        var packSize := ReadSize(buf[0], buf[1]);
        if |buf| - 2 < packSize {
          TooFewBytes(fd, buf);
          assert done + [] == done;
          SaveUncomplete(Half(fd, packSize, buf[2..], |buf| - 2, 0));
          return;
        }
        TakePacket(buf);
        PushData(fd, buf[2..2 + packSize]);
        TaggedOneMore(fd, done, buf[2..2 + packSize]);
        assert done + ([buf[2..2 + packSize]] + Packets(buf[2 + packSize..]))
            == done + [buf[2..2 + packSize]] + Packets(buf[2 + packSize..]);
        done := done + [buf[2..2 + packSize]];
        buf := buf[2 + packSize..];
      }
      EmptyStream();
      assert buf == [] && done + [] == done;
    }

    /** netpack.filter: feeds a chunk of connection fd. */
    method FilterData(fd: int, buffer: seq<Byte>) returns (r: Filtered)
      requires Valid()
      modifies this`queue, this`head, this`tail, queue, hash
      ensures Valid() && (queue == old(queue) || fresh(queue))
      ensures var s := old(RestOf(fd)) + buffer;
              && (forall x :: RestOf(x) == if x == fd then Rest(s) else old(RestOf(x)))
              && match r
                 case Nothing => Packets(s) == [] && Contents() == old(Contents())
                 case Data(msg) => Packets(s) == [msg] && Rest(s) == [] && Contents() == old(Contents())
                 case More(msg) => Packets(s) != [] && msg == Packets(s)[0]
                                   && Contents() == old(Contents()) + Tagged(fd, Packets(s)[1..])
    {
      hide Packets, Rest, HasPacket, HalfBytes, RestIn;
      ghost var s := RestOf(fd) + buffer;
      if |buffer| == 0 {
        RestIsIncomplete(hash[HashFd(fd)], HashFd(fd), fd);
        assert s == RestOf(fd);
        return Nothing;
      }
      ghost var chain := hash[HashFd(fd)];
      var uc := FindUncomplete(fd);
      match uc
      case Some(half) =>
        RestInFound(chain, HashFd(fd), fd);
        r := Continue(fd, half, buffer);
      case None =>
        RestInFound(chain, HashFd(fd), fd);
        assert s == buffer;
        r := Begin(fd, buffer);
    }

    /** A chunk for a connection with a half packet, which has been taken out of its chain. */
    method Continue(fd: int, half: Half, buffer: seq<Byte>) returns (r: Filtered)
      requires Valid() && ValidHalf(half) && half.id == fd && |buffer| > 0
      requires Find(hash[HashFd(fd)], fd) == None
      modifies this`queue, this`head, this`tail, queue, hash
      ensures Valid() && (queue == old(queue) || fresh(queue))
      ensures var s := HalfBytes(half) + buffer;
              && (forall x :: RestOf(x) == if x == fd then Rest(s) else old(RestOf(x)))
              && match r
                 case Nothing => Packets(s) == [] && Contents() == old(Contents())
                 case Data(msg) => Packets(s) == [msg] && Rest(s) == [] && Contents() == old(Contents())
                 case More(msg) => Packets(s) != [] && msg == Packets(s)[0]
                                   && Contents() == old(Contents()) + Tagged(fd, Packets(s)[1..])
    {
      hide Packets, Rest, HasPacket, Find, RestIn, HalfBytes, Frame;
      var size, read, filled, buf := half.size, half.read, half.buffer, buffer;
      if read < 0 {
        size := ReadSize(half.header, buf[0]);
        buf := buf[1..];
        read := 0;
      }
      ghost var s := HalfBytes(half) + buffer;
      HeaderKnown(half, buffer);
      var need := size - read;
      if |buf| < need {
        var uc := Half(fd, size, filled + buf, read + |buf|, half.header);
        Unfinished(uc, filled, buf);
        HalfStaysHalf(uc);
        SaveUncomplete(uc);
        return Nothing;
      }
      var msg, rest := filled + buf[..need], buf[need..];
      Finished(msg, filled, buf, need);
      FirstPacket(msg, rest);
      if |rest| == 0 {
        EmptyStream();
        RestInFound(hash[HashFd(fd)], HashFd(fd), fd);
        return Data(msg);
      }
      PushMore(fd, rest);
      return More(msg);
    }

    /** A chunk for a connection without a half packet. */
    method Begin(fd: int, buffer: seq<Byte>) returns (r: Filtered)
      requires Valid() && |buffer| > 0
      requires Find(hash[HashFd(fd)], fd) == None
      modifies this`queue, this`head, this`tail, queue, hash
      ensures Valid() && (queue == old(queue) || fresh(queue))
      ensures && (forall x :: RestOf(x) == if x == fd then Rest(buffer) else old(RestOf(x)))
              && match r
                 case Nothing => Packets(buffer) == [] && Contents() == old(Contents())
                 case Data(msg) => Packets(buffer) == [msg] && Rest(buffer) == [] && Contents() == old(Contents())
                 case More(msg) => Packets(buffer) != [] && msg == Packets(buffer)[0]
                                   && Contents() == old(Contents()) + Tagged(fd, Packets(buffer)[1..])
    {
      hide Packets, Rest, HasPacket, Find, RestIn, HalfBytes;
      if |buffer| == 1 {
        OneByte(fd, buffer);
        SaveUncomplete(Half(fd, 0, [], -1, buffer[0]));
        return Nothing;
      }
      var packSize := ReadSize(buffer[0], buffer[1]);
      if |buffer| - 2 < packSize {
        TooFewBytes(fd, buffer);
        SaveUncomplete(Half(fd, packSize, buffer[2..], |buffer| - 2, 0));
        return Nothing;
      }
      TakePacket(buffer);
      var msg, rest := buffer[2..2 + packSize], buffer[2 + packSize..];
      if |buffer| - 2 == packSize {
        EmptyStream();
        RestInFound(hash[HashFd(fd)], HashFd(fd), fd);
        assert buffer[2..] == msg && rest == [];
        return Data(buffer[2..]);
      }
      PushMore(fd, rest);
      return More(msg);
    }

    /** netpack.close: forgets the half packet of fd. */
    method Close(fd: int)
      requires Valid()
      modifies hash
      ensures Valid()
      ensures forall x :: RestOf(x) == if x == fd then [] else old(RestOf(x))
    {
      var uc := FindUncomplete(fd);
    }

    /** Hands out the packets of the ring until it is empty. */
    method Drain() returns (delivered: seq<Pack>)
      requires Valid()
      modifies this`head
      ensures Valid() && Contents() == []
      ensures delivered == old(Contents())
    {
      hide Contents;
      ghost var ring := Contents();
      delivered := [];
      var pack := Pop();
      while pack.Some?
        invariant Valid()
        invariant |delivered| <= |ring| && delivered == ring[..|delivered|]
        invariant pack.None? ==> |delivered| == |ring| && Contents() == []
        invariant pack.Some? ==>
                    |delivered| < |ring| && pack.value == ring[|delivered|] && Contents() == ring[|delivered| + 1..]
        decreases |ring| - |delivered|
      {
        delivered := delivered + [pack.value];
        pack := Pop();
      }
    }

    /** The DATA branch of dispatch_socket: hands the packets of a chunk to the handler, first the
        one filter returned, then the ring until it is empty. */
    method Dispatch(fd: int, chunk: seq<Byte>) returns (delivered: seq<Pack>)
      requires Valid() && Contents() == []
      modifies this`queue, this`head, this`tail, queue, hash
      ensures Valid() && (queue == old(queue) || fresh(queue)) && Contents() == []
      ensures var s := old(RestOf(fd)) + chunk;
              && delivered == Tagged(fd, Packets(s))
              && (forall x :: RestOf(x) == if x == fd then Rest(s) else old(RestOf(x)))
    {
      hide Packets, Rest, RestIn;
      ghost var s := RestOf(fd) + chunk;
      var r := FilterData(fd, chunk);
      match r
      case Nothing =>
        delivered := [];
      case Data(msg) =>
        delivered := [Pack(fd, msg)];
      case More(msg) =>
        delivered := Drain();
        delivered := [Pack(fd, msg)] + delivered;
        FirstOfTagged(fd, Packets(s));
    }
  }

  // ----- whole runs over many connections -----

  /** The bytes of connection fd since it was last closed. */
  ghost function Life(events: seq<Event>, fd: int): seq<Byte> {
    if events == [] then [] else
      var front := events[..|events| - 1];
      match events[|events| - 1]
      case Chunk(x, bytes) => if x == fd then Life(front, fd) + bytes else Life(front, fd)
      case Closed(x) => if x == fd then [] else Life(front, fd)
  }

  /** The packets of the earlier lives of fd: each close ends one. */
  ghost function Past(events: seq<Event>, fd: int): seq<seq<Byte>> {
    if events == [] then [] else
      var front := events[..|events| - 1];
      match events[|events| - 1]
      case Chunk(x, bytes) => Past(front, fd)
      case Closed(x) => if x == fd then Past(front, fd) + Packets(Life(front, fd)) else Past(front, fd)
  }

  /** The messages delivered for connection fd, in order. */
  ghost function For(delivered: seq<Pack>, fd: int): seq<seq<Byte>> {
    if delivered == [] then [] else
      var last := delivered[|delivered| - 1];
      For(delivered[..|delivered| - 1], fd) + if last.id == fd then [last.buffer] else []
  }

  lemma {:induction false} ForTagged(delivered: seq<Pack>, x: int, msgs: seq<seq<Byte>>, fd: int)
    ensures For(delivered + Tagged(x, msgs), fd) == For(delivered, fd) + if x == fd then msgs else []
  {
    if msgs == [] {
      assert delivered + Tagged(x, msgs) == delivered;
    } else {
      var n := |msgs| - 1;
      var all := delivered + Tagged(x, msgs);
      ForTagged(delivered, x, msgs[..n], fd);
      TaggedOneMore(x, msgs[..n], msgs[n]);
      hide Tagged;
      assert all[..|all| - 1] == delivered + Tagged(x, msgs[..n]);
      assert msgs == msgs[..n] + [msgs[n]];
    }
  }

  lemma {:induction false} EventsOneMore(events: seq<Event>, e: Event, fd: int)
    ensures Life(events + [e], fd)
            == match e
               case Chunk(x, bytes) => if x == fd then Life(events, fd) + bytes else Life(events, fd)
               case Closed(x) => if x == fd then [] else Life(events, fd)
    ensures Past(events + [e], fd)
            == match e
               case Chunk(x, bytes) => Past(events, fd)
               case Closed(x) =>
                 if x == fd then Past(events, fd) + Packets(Life(events, fd)) else Past(events, fd)
  {
    assert (events + [e])[..|events|] == events;
  }

  /** What connection fd must have been given by the end of a run. */
  ghost function Expected(events: seq<Event>, fd: int): seq<seq<Byte>> {
    Past(events, fd) + Packets(Life(events, fd))
  }

  lemma ExpectedAfterChunk(events: seq<Event>, x: int, bytes: seq<Byte>, fd: int)
    ensures var s := Rest(Life(events, x)) + bytes;
            && Expected(events + [Chunk(x, bytes)], fd) == Expected(events, fd) + (if x == fd then Packets(s) else [])
            && Rest(Life(events + [Chunk(x, bytes)], fd)) == if x == fd then Rest(s) else Rest(Life(events, fd))
  {
    hide Packets, Rest, Life, Past;
    EventsOneMore(events, Chunk(x, bytes), fd);
    ParseContinues(Life(events, x), bytes);
  }

  lemma ExpectedAfterClose(events: seq<Event>, x: int, fd: int)
    ensures Expected(events + [Closed(x)], fd) == Expected(events, fd)
    ensures Rest(Life(events + [Closed(x)], fd)) == if x == fd then [] else Rest(Life(events, fd))
  {
    hide Packets, Rest, Life, Past;
    EventsOneMore(events, Closed(x), fd);
    EmptyStream();
  }

  /** Chunking independence: however the streams of any number of connections are cut up and mixed,
      each connection is given exactly the packets of its byte stream, life by life, and what is
      kept of it is exactly the unparsed rest of its current life. */
  method Run(events: seq<Event>) returns (delivered: seq<Pack>, q: Queue)
    ensures q.Valid() && fresh(q)
    ensures forall fd :: For(delivered, fd) == Expected(events, fd)
    ensures forall fd :: q.RestOf(fd) == Rest(Life(events, fd))
  {
    hide Packets, Rest, Life, Expected, For, RestIn;
    q := new Queue();
    delivered := [];
    forall fd
      ensures For([], fd) == Expected([], fd) && Rest(Life([], fd)) == []
    {
      NothingYet(fd);
    }
    for k := 0 to |events|
      invariant q.Valid() && fresh(q) && fresh(q.hash) && fresh(q.queue) && q.Contents() == []
      invariant forall fd :: For(delivered, fd) == Expected(events[..k], fd)
      invariant forall fd :: q.RestOf(fd) == Rest(Life(events[..k], fd))
    {
      ghost var sofar, before := events[..k], delivered;
      assert events[..k + 1] == sofar + [events[k]];
      match events[k]
      case Chunk(x, bytes) =>
        ghost var s := Rest(Life(sofar, x)) + bytes;
        var more := q.Dispatch(x, bytes);
        delivered := delivered + more;
        forall fd
          ensures For(delivered, fd) == Expected(events[..k + 1], fd)
          ensures q.RestOf(fd) == Rest(Life(events[..k + 1], fd))
        {
          ExpectedAfterChunk(sofar, x, bytes, fd);
          ForTagged(before, x, Packets(s), fd);
        }
      case Closed(x) =>
        q.Close(x);
        forall fd
          ensures For(delivered, fd) == Expected(events[..k + 1], fd)
          ensures q.RestOf(fd) == Rest(Life(events[..k + 1], fd))
        {
          ExpectedAfterClose(sofar, x, fd);
        }
    }
    assert events[..|events|] == events;
  }

  lemma NothingYet(fd: int)
    ensures For([], fd) == Expected([], fd) && Rest(Life([], fd)) == []
  {
  }

  ghost function Flatten(chunks: seq<seq<Byte>>): seq<Byte> {
    if chunks == [] then [] else Flatten(chunks[..|chunks| - 1]) + chunks[|chunks| - 1]
  }

  ghost function Arriving(fd: int, chunks: seq<seq<Byte>>): seq<Event> {
    if chunks == [] then [] else Arriving(fd, chunks[..|chunks| - 1]) + [Chunk(fd, chunks[|chunks| - 1])]
  }

  lemma {:induction false} LifeOfChunks(fd: int, chunks: seq<seq<Byte>>)
    ensures Life(Arriving(fd, chunks), fd) == Flatten(chunks)
    ensures Past(Arriving(fd, chunks), fd) == []
  {
    if chunks != [] {
      var front := chunks[..|chunks| - 1];
      LifeOfChunks(fd, front);
      EventsOneMore(Arriving(fd, front), Chunk(fd, chunks[|chunks| - 1]), fd);
    }
  }

  /** Sending and receiving: messages that are packed, concatenated and cut anywhere are delivered
      as they were, in order, and nothing is left over. */
  lemma PackedMessagesArrive(fd: int, msgs: seq<seq<Byte>>, chunks: seq<seq<Byte>>)
    requires AllShort(msgs) && Flatten(chunks) == Frames(msgs)
    ensures Expected(Arriving(fd, chunks), fd) == msgs
    ensures Rest(Life(Arriving(fd, chunks), fd)) == []
  {
    hide Packets, Rest, Life, Past, Frames;
    LifeOfChunks(fd, chunks);
    FramesParse(msgs, []);
    EmptyStream();
    assert Frames(msgs) + [] == Frames(msgs);
  }
}
