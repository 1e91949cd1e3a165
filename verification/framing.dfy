/**
 The packet format on the wire, without any buffering: a message of less than 2^16 bytes is sent
 behind its length in two big-endian bytes.
 */
module Framing {

  type Byte = b: int | 0 <= b < 0x100

  const TOO_LONG := 0x1_0000

  datatype Packed = Packet(bytes: seq<Byte>) | TooLong

  function Frame(msg: seq<Byte>): seq<Byte>
    requires |msg| < TOO_LONG
  {
    [|msg| / 0x100, |msg| % 0x100] + msg
  }

  function ReadSize(a: Byte, b: Byte): nat {
    a * 0x100 + b
  }

  /** The first packet of a stream is complete. */
  predicate HasPacket(s: seq<Byte>) {
    |s| >= 2 && |s| - 2 >= ReadSize(s[0], s[1])
  }

  /** All complete packets of a stream, in order, without their headers. */
  ghost function Packets(s: seq<Byte>): seq<seq<Byte>>
    decreases |s|
  {
    if !HasPacket(s) then [] else
      var n := ReadSize(s[0], s[1]);
      [s[2..2 + n]] + Packets(s[2 + n..])
  }

  /** The bytes behind the last complete packet: a half packet or nothing. */
  ghost function Rest(s: seq<Byte>): (r: seq<Byte>)
    ensures !HasPacket(r) && |r| <= |s|
    decreases |s|
  {
    if !HasPacket(s) then s else Rest(s[2 + ReadSize(s[0], s[1])..])
  }

  ghost predicate AllShort(msgs: seq<seq<Byte>>) {
    forall m <- msgs :: |m| < TOO_LONG
  }

  /** The messages, packed one after the other. */
  ghost function Frames(msgs: seq<seq<Byte>>): seq<Byte>
    requires AllShort(msgs)
  {
    if msgs == [] then [] else Frame(msgs[0]) + Frames(msgs[1..])
  }

  lemma FirstPacket(msg: seq<Byte>, rest: seq<Byte>)
    requires |msg| < TOO_LONG
    ensures HasPacket(Frame(msg) + rest)
    ensures Packets(Frame(msg) + rest) == [msg] + Packets(rest)
    ensures Rest(Frame(msg) + rest) == Rest(rest)
  {
    var s := Frame(msg) + rest;
    assert ReadSize(s[0], s[1]) == |msg|;
    assert s[2..2 + |msg|] == msg;
    assert s[2 + |msg|..] == rest;
  }

  lemma SplitFirst(s: seq<Byte>) returns (msg: seq<Byte>, tail: seq<Byte>)
    requires HasPacket(s)
    ensures |msg| < TOO_LONG && s == Frame(msg) + tail && |tail| < |s|
    ensures Packets(s) == [msg] + Packets(tail) && Rest(s) == Rest(tail)
  {
    var n := ReadSize(s[0], s[1]);
    msg, tail := s[2..2 + n], s[2 + n..];
  }

  /** Packed messages come back in order, whatever bytes follow. */
  lemma {:induction false} FramesParse(msgs: seq<seq<Byte>>, rest: seq<Byte>)
    requires AllShort(msgs)
    ensures Packets(Frames(msgs) + rest) == msgs + Packets(rest)
    ensures Rest(Frames(msgs) + rest) == Rest(rest)
  {
    hide Packets, Rest, Frame, HasPacket;
    if msgs == [] {
      assert Frames(msgs) + rest == rest;
    } else {
      var later := Frames(msgs[1..]) + rest;
      assert Frames(msgs) + rest == Frame(msgs[0]) + later;
      FirstPacket(msgs[0], later);
      FramesParse(msgs[1..], rest);
    }
  }

  /** A stream is its packets, packed again, followed by its rest ... */
  lemma {:induction false} ParseLosesNothing(s: seq<Byte>)
    ensures AllShort(Packets(s)) && s == Frames(Packets(s)) + Rest(s)
    decreases |s|
  {
    if HasPacket(s) {
      var msg, tail := SplitFirst(s);
      hide Packets, Rest, Frame, HasPacket;
      ParseLosesNothing(tail);
      var msgs := [msg] + Packets(tail);
      assert msgs[1..] == Packets(tail);
      assert s == Frame(msg) + Frames(Packets(tail)) + Rest(tail);
    }
  }

  /** ... and parsing is the only way to read it so. */
  lemma ParseIsUnique(s: seq<Byte>, msgs: seq<seq<Byte>>, rest: seq<Byte>)
    requires !HasPacket(rest)
    ensures AllShort(msgs) && s == Frames(msgs) + rest <==> msgs == Packets(s) && rest == Rest(s)
  {
    ParseLosesNothing(s);
    if AllShort(msgs) && s == Frames(msgs) + rest {
      FramesParse(msgs, rest);
    }
  }

  lemma Incomplete(s: seq<Byte>)
    requires !HasPacket(s)
    ensures Packets(s) == [] && Rest(s) == s
  {
  }

  /** More bytes continue the parse where it stood: only the rest matters. */
  lemma {:induction false} ParseContinues(s: seq<Byte>, more: seq<Byte>)
    ensures Packets(s + more) == Packets(s) + Packets(Rest(s) + more)
    ensures Rest(s + more) == Rest(Rest(s) + more)
    decreases |s|
  {
    hide Packets, Rest, Frame, HasPacket;
    if HasPacket(s) {
      var msg, tail := SplitFirst(s);
      assert s + more == Frame(msg) + (tail + more);
      FirstPacket(msg, tail + more);
      ParseContinues(tail, more);
    } else {
      Incomplete(s);
    }
  }

  /** The length, most significant byte first, and the message. What is packed arrives as that one message
      with nothing left over; what is refused no stream of bytes could deliver. */
  function Pack(msg: seq<Byte>): (r: Packed)
    ensures |msg| < 0x1_0000 ==> r == Packet([|msg| / 0x100, |msg| % 0x100] + msg)
    ensures r.Packet? ==> Packets(r.bytes) == [msg] && Rest(r.bytes) == []
    ensures r.TooLong? <==> forall s: seq<Byte> :: msg !in Packets(s)
  {
    if |msg| >= TOO_LONG then
      OnlyShortArrive(msg);
      TooLong
    else
      Arrives(msg);
      Packet(Frame(msg))
  }

  lemma OnlyShortArrive(msg: seq<Byte>)
    requires |msg| >= TOO_LONG
    ensures forall s: seq<Byte> :: msg !in Packets(s)
  {
    forall s: seq<Byte> ensures msg !in Packets(s) {
      ParseLosesNothing(s);
    }
  }

  lemma Arrives(msg: seq<Byte>)
    requires |msg| < TOO_LONG
    ensures Packets(Frame(msg)) == [msg] && Rest(Frame(msg)) == [] && msg in Packets(Frame(msg))
  {
    FirstPacket(msg, []);
    assert Frame(msg) + [] == Frame(msg);
  }
}
