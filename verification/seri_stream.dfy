/**
 Whole messages: lists of values as one byte string, with or without a length in front.
 */
module SeriStream {
  import opened LuaValue
  import opened SeriFormat
  import opened SeriDecode
  import opened SeriRoundTrip
  import opened SeriLimits

  ghost function Contents(vs: seq<Value>, i: nat): (ds: seq<Data>)
    ensures i <= |vs| ==> |ds| == |vs| - i
    decreases |vs| - i
  {
    if i >= |vs| then [] else [Content(vs[i])] + Contents(vs, i + 1)
  }

  /** Well-formed values, and every border in them is b or a good one. */
  ghost predicate ProperBut(vs: seq<Value>, b: nat) {
    forall i | 0 <= i < |vs| :: WellFormed(vs[i]) && BordersBut(vs[i], b)
  }

  ghost predicate Proper(vs: seq<Value>) {
    ProperBut(vs, 0)
  }

  ghost predicate AllShort(vs: seq<Value>) {
    forall i | 0 <= i < |vs| :: ShortStrings(vs[i])
  }

  ghost predicate Fit(vs: seq<Value>) {
    forall i | 0 <= i < |vs| :: WellFormed(vs[i]) && Measurable(vs[i])
  }

  lemma ProperFit(vs: seq<Value>, b: nat)
    requires ProperBut(vs, b) && AllShort(vs) && GoodBorder(b)
    ensures Fit(vs)
  {
    forall i | 0 <= i < |vs| ensures Measurable(vs[i]) {
      GoodIsMeasurable(vs[i], b);
    }
  }

  lemma {:induction false} ListRoundTrip(vs: seq<Value>, i: nat, s: seq<Byte>, p: nat)
    requires Fit(vs) && i <= |vs| && PackAll(vs, i).Some?
    requires At(s, p, PackAll(vs, i).value) && p + |PackAll(vs, i).value| == |s|
    ensures UnpackAll(s, p) == Some(Contents(vs, i))
    decreases |vs| - i
  {
    hide Pack, UnpackOne;
    if i < |vs| {
      var first, rest := Pack(vs[i], 0).value, PackAll(vs, i + 1).value;
      assert PackAll(vs, i).value == first + rest;
      AtParts(s, p, first, rest);
      ValueRoundTrip(vs[i], 0, s, p);
      ListRoundTrip(vs, i + 1, s, p + |first|);
    }
  }

  // ----- more bytes behind a value never change it -----

  lemma ReadsExtend(s: seq<Byte>, e: seq<Byte>, p: nat, n: nat)
    requires p <= |s| && GetBytes(s, p, n).Read?
    ensures GetBytes(s + e, p, n) == GetBytes(s, p, n)
  {
    assert (s + e)[p..p + n] == s[p..p + n];
  }

  lemma IntegerExtends(s: seq<Byte>, e: seq<Byte>, p: nat, cookie: nat)
    requires p <= |s| && GetInteger(s, p, cookie).Read?
    ensures GetInteger(s + e, p, cookie) == GetInteger(s, p, cookie)
  {
    hide FromLittleEndian, GetBytes, Int64Of;
    if cookie != NUMBER_ZERO {
      ReadsExtend(s, e, p, if cookie == NUMBER_QWORD then 8 else cookie);
    }
  }

  lemma BufferExtends(s: seq<Byte>, e: seq<Byte>, p: nat, n: nat)
    requires p <= |s| && GetBuffer(s, p, n).Read?
    ensures GetBuffer(s + e, p, n) == GetBuffer(s, p, n)
  {
    hide GetBytes;
    ReadsExtend(s, e, p, n);
  }

  lemma LongStringExtends(s: seq<Byte>, e: seq<Byte>, p: nat, cookie: nat)
    requires p <= |s| && GetLongString(s, p, cookie).Read?
    ensures GetLongString(s + e, p, cookie) == GetLongString(s, p, cookie)
  {
    hide FromLittleEndian, GetBytes, GetBuffer;
    ReadsExtend(s, e, p, cookie);
    match GetBytes(s, p, cookie)
    case Invalid =>
    case Read(bytes, at) => BufferExtends(s, e, at, FromLittleEndian(bytes));
  }

  lemma {:induction false} OneExtends(s: seq<Byte>, e: seq<Byte>, p: nat)
    requires p <= |s| && UnpackOne(s, p).Read?
    ensures UnpackOne(s + e, p) == UnpackOne(s, p)
    decreases |s| - p, 0
  {
    hide PushValue;
    PushExtends(s, e, p + 1, s[p] % 8, s[p] / 8);
  }

  lemma {:induction false} PushExtends(s: seq<Byte>, e: seq<Byte>, p: nat, kind: nat, cookie: nat)
    requires p <= |s| && cookie < MAX_COOKIE && PushValue(s, p, kind, cookie).Read?
    ensures PushValue(s + e, p, kind, cookie) == PushValue(s, p, kind, cookie)
    decreases |s| - p, 3
  {
    hide UnpackTable, GetBuffer, GetLongString, GetInteger, GetBytes;
    if kind == TYPE_NUMBER && cookie != NUMBER_REAL {
      IntegerExtends(s, e, p, cookie);
    } else if kind == TYPE_NUMBER || kind == TYPE_USERDATA {
      ReadsExtend(s, e, p, 8);
    } else if kind == TYPE_SHORT_STRING {
      BufferExtends(s, e, p, cookie);
    } else if kind == TYPE_LONG_STRING {
      LongStringExtends(s, e, p, cookie);
    } else if kind == TYPE_TABLE {
      TableExtends(s, e, p, cookie);
    }
  }

  lemma SizeExtends(s: seq<Byte>, e: seq<Byte>, p: nat, cookie: nat)
    requires p <= |s| && cookie < MAX_COOKIE && GetArraySize(s, p, cookie).Read?
    ensures GetArraySize(s + e, p, cookie) == GetArraySize(s, p, cookie)
  {
    hide GetInteger;
    if cookie == MAX_COOKIE - 1 {
      IntegerExtends(s, e, p + 1, s[p] / 8);
    }
  }

  lemma {:induction false} TableExtends(s: seq<Byte>, e: seq<Byte>, p: nat, cookie: nat)
    requires p <= |s| && cookie < MAX_COOKIE && UnpackTable(s, p, cookie).Read?
    ensures UnpackTable(s + e, p, cookie) == UnpackTable(s, p, cookie)
    decreases |s| - p, 2
  {
    hide UnpackArray, UnpackHash, GetArraySize;
    SizeExtends(s, e, p, cookie);
    var size := GetArraySize(s, p, cookie);
    ArrayExtends(s, e, size.at, 1, size.value, Fields(map[], []));
    var t := UnpackArray(s, size.at, 1, size.value, Fields(map[], []));
    HashExtends(s, e, t.at, t.value);
  }

  lemma {:induction false} ArrayExtends(s: seq<Byte>, e: seq<Byte>, p: nat, i: nat, size: int, t: Data)
    requires p <= |s| && t.Fields? && i > 0 && size < 0x8000_0000 && UnpackArray(s, p, i, size, t).Read?
    ensures UnpackArray(s + e, p, i, size, t) == UnpackArray(s, p, i, size, t)
    decreases |s| - p, 1
  {
    hide UnpackOne;
    if i <= size {
      OneExtends(s, e, p);
      var v := UnpackOne(s, p);
      ArrayExtends(s, e, v.at, i + 1, size, RawSet(t, Leaf(Integer(i)), v.value).value);
    }
  }

  lemma {:induction false} HashExtends(s: seq<Byte>, e: seq<Byte>, p: nat, t: Data)
    requires p <= |s| && t.Fields? && UnpackHash(s, p, t).Read?
    ensures UnpackHash(s + e, p, t) == UnpackHash(s, p, t)
    decreases |s| - p, 1
  {
    hide UnpackOne, RawSet;
    OneExtends(s, e, p);
    var key := UnpackOne(s, p);
    if key.value != Absent {
      OneExtends(s, e, key.at);
      var v := UnpackOne(s, key.at);
      HashExtends(s, e, v.at, RawSet(t, key.value, v.value).value);
    }
  }

  lemma {:induction false} AllExtends(s: seq<Byte>, e: seq<Byte>, p: nat)
    requires p <= |s| && UnpackAll(s, p).Some? && UnpackAll(s + e, p).Some?
    ensures UnpackAll(s + e, |s|).Some?
    ensures UnpackAll(s + e, p).value == UnpackAll(s, p).value + UnpackAll(s + e, |s|).value
    decreases |s| - p
  {
    hide UnpackOne;
    if p < |s| {
      OneExtends(s, e, p);
      AllExtends(s, e, UnpackOne(s, p).at);
    }
  }

  // ----- messages -----

  /** unserialize: the length goes through a 32-bit int, and none or a negative one means no values. */
  function Unserialize(s: seq<Byte>, len: int): Option<seq<Data>>
    requires len <= |s|
  {
    if len <= 0 then Some([]) else UnpackAll(s[..len], 0)
  }

  /** Serialising and reading back gives the same list exactly if the strings and the whole take fewer
      than 2^31 bytes each. */
  lemma MessageRoundTrip(vs: seq<Value>)
    requires Proper(vs) && PackAll(vs, 0).Some?
    ensures var bytes := PackAll(vs, 0).value;
            Unserialize(bytes, Int32(|bytes|)) == Some(Contents(vs, 0)) <==> AllShort(vs) && |bytes| < 0x8000_0000
  {
    if AllShort(vs) {
      ProperFit(vs, 0);
      FitRoundTrip(vs);
    } else {
      LongListLost(vs);
    }
  }

  lemma FitRoundTrip(vs: seq<Value>)
    requires Fit(vs) && PackAll(vs, 0).Some?
    ensures var bytes := PackAll(vs, 0).value;
            Unserialize(bytes, Int32(|bytes|)) == Some(Contents(vs, 0)) <==> |bytes| < 0x8000_0000
  {
    var bytes := PackAll(vs, 0).value;
    var len := Int32(|bytes|);
    assert bytes[0..0 + |bytes|] == bytes;
    ListRoundTrip(vs, 0, bytes, 0);
    hide UnpackAll, PackAll;
    if |bytes| < 0x8000_0000 {
      assert bytes[..len] == bytes;
      if bytes == [] {
        NothingToUnpack();
      }
    } else {
      var shorter := if len <= 0 then [] else bytes[..len];
      assert shorter + bytes[|shorter|..] == bytes;
      NothingToUnpack();
      if UnpackAll(shorter, 0).Some? {
        AllExtends(shorter, bytes[|shorter|..], 0);
        SomethingLeft(bytes, |shorter|);
      }
    }
  }

  lemma {:induction false} AllDecodedShort(s: seq<Byte>, p: nat)
    requires p <= |s| && UnpackAll(s, p).Some?
    ensures forall i | 0 <= i < |UnpackAll(s, p).value| :: ShortData(UnpackAll(s, p).value[i])
    decreases |s| - p
  {
    hide UnpackOne, ShortData;
    if p < |s| {
      DecodedShort(s, p);
      AllDecodedShort(s, UnpackOne(s, p).at);
    }
  }

  lemma {:induction false} ContentAt(vs: seq<Value>, i: nat, k: nat)
    requires i <= k < |vs|
    ensures Contents(vs, i)[k - i] == Content(vs[k])
    decreases k - i
  {
    hide Content;
    if i < k {
      ContentAt(vs, i + 1, k);
    }
  }

  lemma {:induction false} AllPack(vs: seq<Value>, i: nat, k: nat)
    requires i <= k < |vs| && PackAll(vs, i).Some?
    ensures Pack(vs[k], 0).Some?
    decreases |vs| - i
  {
    hide Pack;
    if i < k {
      AllPack(vs, i + 1, k);
    }
  }

  lemma LongListLost(vs: seq<Value>)
    requires Proper(vs) && PackAll(vs, 0).Some? && !AllShort(vs)
    ensures forall s: seq<Byte>, len: int | len <= |s| :: Unserialize(s, len) != Some(Contents(vs, 0))
  {
    var k :| 0 <= k < |vs| && !ShortStrings(vs[k]);
    AllPack(vs, 0, k);
    PackSucceeds(vs[k], 0);
    ContentShort(vs[k]);
    ContentAt(vs, 0, k);
    hide PackAll, Pack, Content, Contents, ShortData, ShortStrings, UnpackAll;
    forall s: seq<Byte>, len: int | len <= |s| ensures Unserialize(s, len) != Some(Contents(vs, 0)) {
      if len > 0 && UnpackAll(s[..len], 0).Some? {
        AllDecodedShort(s[..len], 0);
      }
    }
  }

  /** The list survives, if it takes fewer than 2^31 bytes. */
  ghost predicate ListRestored(vs: seq<Value>) {
    PackAll(vs, 0).Some? && |PackAll(vs, 0).value| < 0x8000_0000 ==>
      Unserialize(PackAll(vs, 0).value, |PackAll(vs, 0).value|) == Some(Contents(vs, 0))
  }

  /** A border is safe in every list, however deep, if and only if it is a good one. */
  lemma ListBordersExactly(b: nat)
    ensures GoodBorder(b) <==> forall vs :: ProperBut(vs, b) && AllShort(vs) ==> ListRestored(vs)
  {
    hide PackAll, Contents, Unserialize;
    if GoodBorder(b) {
      forall vs | ProperBut(vs, b) && AllShort(vs) ensures ListRestored(vs) {
        ProperFit(vs, b);
        if PackAll(vs, 0).Some? {
          FitRoundTrip(vs);
        }
      }
    } else {
      var v, s := BorderLost(b);
      OneLost(v, s);
      hide GoodBorder, ListRestored;
      assert ProperBut([v], b) && AllShort([v]);
    }
  }

  lemma OneLost(v: Value, s: seq<Byte>)
    requires Pack(v, 0) == Some(s) && 0 < |s| < 0x8000_0000 && forall at :: UnpackOne(s, 0) != Read(Content(v), at)
    ensures !ListRestored([v])
  {
    hide Pack, UnpackOne, Content;
    assert PackAll([v], 1) == Some([]) && s + [] == s;
    assert PackAll([v], 0) == Some(s);
    assert Contents([v], 1) == [] && Contents([v], 0) == [Content(v)] + [];
    assert s[..|s|] == s;
    if UnpackOne(s, 0).Read? && UnpackAll(s, 0).Some? {
      assert UnpackAll(s, 0).value[0] == UnpackOne(s, 0).value;
      assert UnpackOne(s, 0) == Read(UnpackOne(s, 0).value, UnpackOne(s, 0).at);
    }
  }

  lemma NothingToUnpack()
    ensures UnpackAll([], 0) == Some([])
  {
  }

  lemma SomethingLeft(s: seq<Byte>, p: nat)
    requires p < |s| && UnpackAll(s, p).Some?
    ensures UnpackAll(s, p).value != []
  {
    hide UnpackOne;
  }

  /** packstring: the length first, in four bytes, most significant first. */
  function WithLength(bytes: seq<Byte>): (s: seq<Byte>)
    ensures |s| == 4 + |bytes| && s[4..] == bytes
  {
    var n := |bytes| % 0x1_0000_0000;
    [n / 0x100_0000, n / 0x1_0000 % 0x100, n / 0x100 % 0x100, n % 0x100] + bytes
  }

  function LengthAhead(s: seq<Byte>): (n: nat)
    requires |s| >= 4
    ensures n < 0x1_0000_0000
  {
    s[0] as nat * 0x100_0000 + s[1] as nat * 0x1_0000 + s[2] as nat * 0x100 + s[3] as nat
  }

  /** unpackstring: the test that the bytes are there is done modulo 2^32. */
  function UnpackString(s: seq<Byte>): Option<seq<Data>> {
    if |s| < 4 then None
    else
      var len := LengthAhead(s);
      if |s| < (4 + len) % 0x1_0000_0000 then None else Unserialize(s[4..], Int32(len))
  }

  lemma LengthReadsBack(bytes: seq<Byte>, suffix: seq<Byte>)
    ensures LengthAhead(WithLength(bytes) + suffix) == |bytes| % 0x1_0000_0000
  {
    var n := |bytes| % 0x1_0000_0000;
    assert n / 0x1_0000 == n / 0x100_0000 * 0x100 + n / 0x1_0000 % 0x100;
    assert n / 0x100 == n / 0x1_0000 * 0x100 + n / 0x100 % 0x100;
  }

  lemma LengthModulo(n: nat)
    ensures Int32(n % 0x1_0000_0000) == Int32(n)
    ensures (4 + n % 0x1_0000_0000) % 0x1_0000_0000 <= 4 + n % 0x1_0000_0000 <= 4 + n
    ensures Int32(n) <= n
  {
  }

  /** Reading back what packstring wrote, with anything behind it, gives the same list on the same
      condition. */
  lemma PackedStringRoundTrip(vs: seq<Value>, suffix: seq<Byte>)
    requires Proper(vs) && PackAll(vs, 0).Some?
    ensures var bytes := PackAll(vs, 0).value;
            UnpackString(WithLength(bytes) + suffix) == Some(Contents(vs, 0)) <==>
              AllShort(vs) && |bytes| < 0x8000_0000
  {
    hide UnpackAll, PackAll, LengthAhead, WithLength, Int32;
    var bytes := PackAll(vs, 0).value;
    LengthReadsBack(bytes, suffix);
    LengthModulo(|bytes|);
    ReadsList(bytes, suffix);
    MessageRoundTrip(vs);
  }

  lemma ReadsList(bytes: seq<Byte>, suffix: seq<Byte>)
    requires LengthAhead(WithLength(bytes) + suffix) == |bytes| % 0x1_0000_0000
    ensures UnpackString(WithLength(bytes) + suffix) == Unserialize(bytes, Int32(|bytes|))
  {
    var s := WithLength(bytes) + suffix;
    LengthModulo(|bytes|);
    hide UnpackAll, LengthAhead, WithLength, Int32;
    var len := Int32(|bytes|);
    assert s[4..] == bytes + suffix;
    assert len > 0 ==> s[4..][..len] == bytes[..len];
  }

  /** A message that is cut short is refused, except when its length field is so large that adding the
      four bytes wraps around: then it is taken for an empty one. */
  lemma CutShort(s: seq<Byte>)
    requires 4 <= |s| < 4 + LengthAhead(s)
    ensures UnpackString(s) == None <==> LengthAhead(s) < 0x1_0000_0000 - 4
    ensures UnpackString(s) == None || UnpackString(s) == Some([])
  {
    hide UnpackAll, LengthAhead;
  }

  /** Four bytes announce 2^32 - 1 more, none of which are there. */
  lemma TakenForEmpty()
    ensures var s: seq<Byte> := [255, 255, 255, 255];
            LengthAhead(s) == 0xffff_ffff && UnpackString(s) == Some([])
  {
    hide UnpackAll;
  }
}
