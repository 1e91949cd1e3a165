/**
 Decoding undoes encoding, for any order of lua_next and any border that survives as the size in the
 head of a table, whatever bytes follow. SeriLimits shows that the other borders do not.
 */
module SeriRoundTrip {
  import opened LuaValue
  import opened SeriFormat
  import opened SeriDecode

  /** The buffer holds these bytes at p. */
  ghost predicate At(s: seq<Byte>, p: nat, bytes: seq<Byte>) {
    p + |bytes| <= |s| && s[p..p + |bytes|] == bytes
  }

  lemma AtParts(s: seq<Byte>, p: nat, a: seq<Byte>, b: seq<Byte>)
    requires At(s, p, a + b)
    ensures At(s, p, a) && At(s, p + |a|, b)
  {
    assert s[p..p + |a|] == (a + b)[..|a|] == a;
    assert s[p + |a|..p + |a| + |b|] == (a + b)[|a|..] == b;
  }

  /** A border that the head of a table stands for: one that is still a size as a 32-bit int, or one
      of whose negative int the cookie shows nothing. */
  predicate GoodBorder(b: nat) {
    Int32(b) >= 0 || Int32(b) % 32 == 0
  }

  /** Every string and every border in it survives its way through a 32-bit int. */
  ghost predicate Measurable(v: Value) {
    match v
    case Scalar(a) => a.Str? ==> |a.s| < 0x8000_0000
    case Table(rawlen, entries) =>
      && GoodBorder(rawlen)
      && (forall i | 0 <= i < |entries| :: Measurable(entries[i].key) && Measurable(entries[i].value))
    case _ => true
  }

  // ----- scalars -----

  lemma AtHead(s: seq<Byte>, p: nat, kind: nat, cookie: nat, rest: seq<Byte>)
    requires kind < 8 && cookie < 32 && At(s, p, [CombineType(kind, cookie)] + rest)
    ensures p < |s| && s[p] % 8 == kind && s[p] / 8 == cookie && At(s, p + 1, rest)
  {
    AtParts(s, p, [CombineType(kind, cookie)], rest);
    assert s[p] == s[p..p + 1][0];
  }

  lemma TwosComplement(v: Int64)
    ensures Int64Of(v % 0x1_0000_0000_0000_0000) == Int64Of(v) == v
  {
  }

  lemma TwosComplement32(v: int)
    requires Int32(v) == v
    ensures Int32(v % 0x1_0000_0000) == v
  {
  }

  lemma OneByte(v: Byte)
    ensures FromLittleEndian([v]) == v
  {
    assert [v][1..] == [];
  }

  lemma IntegerRoundTrip(s: seq<Byte>, p: nat, v: Int64)
    requires At(s, p, IntegerBytes(v))
    ensures p < |s| && s[p] % 8 == TYPE_NUMBER && s[p] / 8 != NUMBER_REAL
    ensures GetInteger(s, p + 1, s[p] / 8) == Read(v, p + |IntegerBytes(v)|)
  {
    FixedWidthsReadBack(v);
    TwosComplement(v);
    hide CombineType, FromLittleEndian, LittleEndian, Int64Of;
    if v == 0 {
      assert IntegerBytes(v) == [CombineType(TYPE_NUMBER, NUMBER_ZERO)] + [];
      AtHead(s, p, TYPE_NUMBER, NUMBER_ZERO, []);
    } else if v != Int32(v) {
      AtHead(s, p, TYPE_NUMBER, NUMBER_QWORD, Unsigned64(v));
    } else if v < 0 || v >= 0x1_0000 {
      TwosComplement32(v);
      AtHead(s, p, TYPE_NUMBER, NUMBER_DWORD, Unsigned32(v));
    } else if v < 0x100 {
      assert IntegerBytes(v) == [CombineType(TYPE_NUMBER, NUMBER_BYTE)] + [v];
      AtHead(s, p, TYPE_NUMBER, NUMBER_BYTE, [v]);
      OneByte(v);
    } else {
      AtHead(s, p, TYPE_NUMBER, NUMBER_WORD, Unsigned16(v));
    }
  }

  lemma StringRoundTrip(s: seq<Byte>, p: nat, str: seq<Byte>)
    requires |str| < 0x8000_0000 && At(s, p, StringBytes(str))
    ensures UnpackOne(s, p) == Read(Leaf(Str(str)), p + |StringBytes(str)|)
  {
    StringForm(str);
    hide CombineType, StringBytes, GetBuffer, GetLongString, UnpackOne, LengthBytes;
    if |str| < MAX_COOKIE {
      AtHead(s, p, TYPE_SHORT_STRING, |str|, str);
      StringAhead(s, p);
      ShortBuffer(s, p + 1, str);
    } else {
      var bytes := LengthBytes(str);
      LengthReadsBack(str);
      hide FromLittleEndian;
      AtHead(s, p, TYPE_LONG_STRING, |bytes|, bytes + str);
      StringAhead(s, p);
      LengthAndBytes(s, p + 1, |bytes|, bytes, str);
    }
  }

  lemma StringAhead(s: seq<Byte>, p: nat)
    requires p < |s|
    ensures s[p] % 8 == TYPE_SHORT_STRING ==> UnpackOne(s, p) == GetBuffer(s, p + 1, s[p] / 8)
    ensures s[p] % 8 == TYPE_LONG_STRING ==> UnpackOne(s, p) == GetLongString(s, p + 1, s[p] / 8)
  {
    hide UnpackTable, GetBuffer, GetLongString, GetWord, GetInteger;
  }

  function LengthBytes(str: seq<Byte>): (r: seq<Byte>)
    ensures |r| == 2 || |r| == 4
  {
    if |str| < 0x1_0000 then Unsigned16(|str|) else Unsigned32(|str|)
  }

  lemma StringForm(str: seq<Byte>)
    requires |str| < 0x8000_0000
    ensures |str| < MAX_COOKIE ==> StringBytes(str) == [CombineType(TYPE_SHORT_STRING, |str|)] + str
    ensures |str| >= MAX_COOKIE ==>
              StringBytes(str) == [CombineType(TYPE_LONG_STRING, |LengthBytes(str)|)] + (LengthBytes(str) + str)
  {
    hide CombineType, FromLittleEndian, Unsigned16, Unsigned32;
    assert Int32(|str|) == |str|;
    assert str[..|str|] == str;
    if |str| < MAX_COOKIE {
      assert |str| == 0 ==> str == [];
    } else {
      var kind, len := [CombineType(TYPE_LONG_STRING, |LengthBytes(str)|)], LengthBytes(str);
      assert StringBytes(str) == kind + len + str;
      hide StringBytes, LengthBytes;
      assert kind + len + str == kind + (len + str);
    }
  }

  lemma LengthReadsBack(str: seq<Byte>)
    requires |str| < 0x8000_0000
    ensures FromLittleEndian(LengthBytes(str)) == |str|
  {
    hide FromLittleEndian, Unsigned16, Unsigned32;
    FixedWidthsReadBack(|str|);
  }

  lemma ShortBuffer(s: seq<Byte>, p: nat, str: seq<Byte>)
    requires |str| < 0x8000_0000 && At(s, p, str)
    ensures GetBuffer(s, p, |str|) == Read(Leaf(Str(str)), p + |str|)
  {
  }

  lemma LengthAndBytes(s: seq<Byte>, p: nat, width: nat, bytes: seq<Byte>, str: seq<Byte>)
    requires |str| < 0x8000_0000 && width in {2, 4} && |bytes| == width && FromLittleEndian(bytes) == |str|
    requires At(s, p, bytes + str)
    ensures GetLongString(s, p, width) == Read(Leaf(Str(str)), p + width + |str|)
  {
    AtParts(s, p, bytes, str);
  }

  lemma AtomRoundTrip(s: seq<Byte>, p: nat, a: Atom)
    requires a.Str? ==> |a.s| < 0x8000_0000
    requires At(s, p, AtomBytes(a))
    ensures UnpackOne(s, p) == Read(Leaf(a), p + |AtomBytes(a)|)
  {
    hide CombineType;
    match a {
      case Boolean(b) =>
        assert AtomBytes(a) == [CombineType(TYPE_BOOLEAN, if b then 1 else 0)] + [];
        AtHead(s, p, TYPE_BOOLEAN, if b then 1 else 0, []);
      case Integer(n) => IntegerRoundTrip(s, p, n);
      case Real(bits) => AtHead(s, p, TYPE_NUMBER, NUMBER_REAL, bits);
      case Pointer(addr) => AtHead(s, p, TYPE_USERDATA, 0, addr);
      case Str(str) => StringRoundTrip(s, p, str);
    }
  }

  lemma NilRoundTrip(s: seq<Byte>, p: nat)
    requires At(s, p, [CombineType(TYPE_NIL, 0)])
    ensures UnpackOne(s, p) == Read(Absent, p + 1)
  {
    assert [CombineType(TYPE_NIL, 0)] == [CombineType(TYPE_NIL, 0)] + [];
    AtHead(s, p, TYPE_NIL, 0, []);
  }

  /** The string length is exactly what limits it: cut down to 32 bits, a longer one is lost. */
  lemma LongStringLost(s: seq<Byte>, p: nat, str: seq<Byte>)
    requires |str| >= 0x8000_0000 && At(s, p, StringBytes(str))
    ensures !exists at :: UnpackOne(s, p) == Read(Leaf(Str(str)), at)
  {
    var len := Int32(|str|);
    if 0 <= len {
      assert |str[..len]| == len;
      StringBytesOfPrefix(str);
      StringRoundTrip(s, p, str[..len]);
    } else {
      assert StringBytes(str) == [CombineType(TYPE_SHORT_STRING, len % 32)] + [];
      AtHead(s, p, TYPE_SHORT_STRING, len % 32, []);
    }
  }

  lemma StringBytesOfPrefix(str: seq<Byte>)
    requires 0 <= Int32(|str|) <= |str|
    ensures StringBytes(str[..Int32(|str|)]) == StringBytes(str)
  {
    var len := Int32(|str|);
    assert str[..len][..len] == str[..len];
  }

  // ----- tables -----

  ghost predicate InSlots(k: Atom, n: int) {
    k.Integer? && 0 < k.n <= n
  }

  /** A table with its first n slots filled. */
  ghost function Slots(t: Value, n: int): (r: Data)
    requires t.Table?
    ensures r.Fields?
  {
    Fields(map k | k in FieldsOf(t, |t.entries|) && InSlots(k, n) :: FieldsOf(t, |t.entries|)[k], [])
  }

  /** And then with the first e entries. */
  ghost function SlotsAndEntries(t: Value, size: int, e: nat): (r: Data)
    requires t.Table? && e <= |t.entries|
    ensures r.Fields?
  {
    Fields(map k | k in FieldsOf(t, |t.entries|) && (InSlots(k, size) || k in FieldsOf(t, e))
             :: FieldsOf(t, |t.entries|)[k],
           KeyedOf(t, e))
  }

  lemma SlotAdded(t: Value, i: Int64)
    requires t.Table? && ProperEntries(t.entries) && Supported(t) && i > 0
    ensures RawSet(Slots(t, i - 1), Leaf(Integer(i)), Content(Get(t.entries, i))) == Some(Slots(t, i))
  {
    GetIsField(t, i);
    GetFindsEntry(t.entries, i);
    assert Get(t.entries, i) != Other;
    hide FieldsOf, Get;
    assert Content(Get(t.entries, i)) == Absent <==> Get(t.entries, i) == Nil;
    hide Content;
    var was, now, v := Slots(t, i - 1).fields, Slots(t, i).fields, Content(Get(t.entries, i));
    assert now == if v == Absent then was - {Integer(i)} else was[Integer(i) := v];
  }

  lemma EntryAdded(t: Value, size: int, e: nat)
    requires t.Table? && ProperEntries(t.entries) && e < |t.entries| && t.entries[e].key != Other
             && t.entries[e].value != Other
    ensures InArray(t.entries[e].key, size) ==> SlotsAndEntries(t, size, e + 1) == SlotsAndEntries(t, size, e)
    ensures !InArray(t.entries[e].key, size) ==>
              Some(SlotsAndEntries(t, size, e + 1)) ==
              RawSet(SlotsAndEntries(t, size, e), Content(t.entries[e].key), Content(t.entries[e].value))
  {
    var key, value, all := t.entries[e].key, Content(t.entries[e].value), FieldsOf(t, |t.entries|);
    var was, now := SlotsAndEntries(t, size, e).fields, SlotsAndEntries(t, size, e + 1).fields;
    assert value != Absent;
    if key.Scalar? {
      FieldOfEntry(t, |t.entries|, e);
      assert forall k :: k in FieldsOf(t, e + 1) <==> k in FieldsOf(t, e) || k == key.atom;
      hide FieldsOf;
      assert all[key.atom] == value;
      if InArray(key, size) {
        assert now == was;
      } else {
        assert now == was[key.atom := value];
      }
    } else {
      assert FieldsOf(t, e + 1) == FieldsOf(t, e);
      hide FieldsOf;
      assert now == was;
    }
  }

  lemma AllAdded(t: Value, size: int)
    requires t.Table?
    ensures SlotsAndEntries(t, size, |t.entries|) == Content(t)
    ensures SlotsAndEntries(t, size, 0) == Slots(t, size)
    ensures Slots(t, 0) == Fields(map[], [])
  {
    var all := FieldsOf(t, |t.entries|);
    assert all == map k | k in all && (InSlots(k, size) || k in all) :: all[k];
    assert FieldsOf(t, 0) == map[];
    hide FieldsOf;
    assert SlotsAndEntries(t, size, 0).fields == Slots(t, size).fields;
    assert Slots(t, 0).fields == map[];
  }

  lemma PackArrayParts(entries: seq<Entry>, i: nat, size: int, depth: nat)
    requires i <= size && PackArray(entries, i, size, depth).Some?
    ensures Pack(Get(entries, i), depth).Some? && PackArray(entries, i + 1, size, depth).Some?
    ensures PackArray(entries, i, size, depth).value
         == Pack(Get(entries, i), depth).value + PackArray(entries, i + 1, size, depth).value
  {
    hide Pack, Get;
  }

  lemma UnpackArrayStep(s: seq<Byte>, p: nat, i: nat, size: int, t: Data, v: Data, at: nat, t': Data)
    requires p <= |s| && t.Fields? && 0 < i <= size < 0x8000_0000 && UnpackOne(s, p) == Read(v, at)
    requires RawSet(t, Leaf(Integer(i)), v) == Some(t')
    ensures at <= |s| && UnpackArray(s, p, i, size, t) == UnpackArray(s, at, i + 1, size, t')
  {
    hide UnpackOne, RawSet;
  }

  lemma {:induction false} ArrayRoundTrip(t: Value, i: nat, size: int, depth: nat, s: seq<Byte>, p: nat)
    requires t.Table? && WellFormed(t) && Supported(t) && Measurable(t) && 0 < i && size < 0x8000_0000
    requires PackArray(t.entries, i, size, depth).Some? && At(s, p, PackArray(t.entries, i, size, depth).value)
    ensures UnpackArray(s, p, i, size, Slots(t, i - 1))
         == Read(Slots(t, if size < i - 1 then i - 1 else size), p + |PackArray(t.entries, i, size, depth).value|)
    decreases t, 1, size - i
  {
    if i > size {
      hide UnpackOne, Pack;
    } else {
      hide Pack, PackArray, UnpackOne, UnpackArray, RawSet, Slots, Get, Content;
      PackArrayParts(t.entries, i, size, depth);
      var first, rest := Pack(Get(t.entries, i), depth).value, PackArray(t.entries, i + 1, size, depth).value;
      AtParts(s, p, first, rest);
      SlotRoundTrip(t, i, depth, s, p);
      hide At;
      SlotAdded(t, i);
      UnpackArrayStep(s, p, i, size, Slots(t, i - 1), Content(Get(t.entries, i)), p + |first|, Slots(t, i));
      ArrayRoundTrip(t, i + 1, size, depth, s, p + |first|);
    }
  }

  lemma SlotRoundTrip(t: Value, i: nat, depth: nat, s: seq<Byte>, p: nat)
    requires t.Table? && WellFormed(t) && Measurable(t)
    requires Pack(Get(t.entries, i), depth).Some? && At(s, p, Pack(Get(t.entries, i), depth).value)
    ensures UnpackOne(s, p) == Read(Content(Get(t.entries, i)), p + |Pack(Get(t.entries, i), depth).value|)
    decreases t, 0, 0
  {
    var v := Get(t.entries, i);
    if v == Nil {
      PackNil(depth);
      NilRoundTrip(s, p);
    } else {
      GetFindsEntry(t.entries, i);
      var j :| 0 <= j < |t.entries| && t.entries[j].value == v;
      hide Pack, UnpackOne, Content;
      ValueRoundTrip(t.entries[j].value, depth, s, p);
    }
  }

  lemma PackNil(depth: nat)
    requires Pack(Nil, depth).Some?
    ensures Pack(Nil, depth) == Some([CombineType(TYPE_NIL, 0)])
  {
  }

  lemma PackHashParts(entries: seq<Entry>, e: nat, size: int, depth: nat)
    requires e < |entries| && PackHash(entries, e, size, depth).Some?
    ensures PackHash(entries, e + 1, size, depth).Some?
    ensures InArray(entries[e].key, size) ==> PackHash(entries, e, size, depth) == PackHash(entries, e + 1, size, depth)
    ensures !InArray(entries[e].key, size) ==>
              && Pack(entries[e].key, depth).Some? && Pack(entries[e].value, depth).Some?
              && PackHash(entries, e, size, depth).value ==
                 Pack(entries[e].key, depth).value + Pack(entries[e].value, depth).value
                   + PackHash(entries, e + 1, size, depth).value
  {
    hide Pack;
  }

  lemma UnpackHashStep(s: seq<Byte>, p: nat, t: Data, key: Data, at: nat, v: Data, at': nat, t': Data)
    requires p <= |s| && t.Fields? && UnpackOne(s, p) == Read(key, at) && key != Absent
    requires at <= |s| && UnpackOne(s, at) == Read(v, at') && RawSet(t, key, v) == Some(t')
    ensures at' <= |s| && UnpackHash(s, p, t) == UnpackHash(s, at', t')
  {
    hide UnpackOne, RawSet;
  }

  lemma UnpackHashEnds(s: seq<Byte>, p: nat, t: Data)
    requires t.Fields? && At(s, p, [CombineType(TYPE_NIL, 0)])
    ensures UnpackHash(s, p, t) == Read(t, p + 1)
  {
    NilRoundTrip(s, p);
    hide UnpackOne;
  }

  lemma {:induction false} HashRoundTrip(t: Value, e: nat, size: int, depth: nat, s: seq<Byte>, p: nat)
    requires t.Table? && WellFormed(t) && Supported(t) && Measurable(t) && e <= |t.entries|
    requires PackHash(t.entries, e, size, depth).Some?
    requires At(s, p, PackHash(t.entries, e, size, depth).value + [CombineType(TYPE_NIL, 0)])
    ensures UnpackHash(s, p, SlotsAndEntries(t, size, e))
            == Read(Content(t), p + |PackHash(t.entries, e, size, depth).value| + 1)
    decreases t, 1, |t.entries| - e
  {
    hide Pack, UnpackOne, UnpackHash, RawSet, SlotsAndEntries, CombineType;
    if e == |t.entries| {
      assert PackHash(t.entries, e, size, depth).value == [];
      assert [] + [CombineType(TYPE_NIL, 0)] == [CombineType(TYPE_NIL, 0)];
      UnpackHashEnds(s, p, Content(t));
      AllAdded(t, size);
    } else {
      EntryAdded(t, size, e);
      PackHashParts(t.entries, e, size, depth);
      hide PackHash;
      if InArray(t.entries[e].key, size) {
        HashRoundTrip(t, e + 1, size, depth, s, p);
      } else {
        PairRoundTrip(t, e, size, depth, s, p);
      }
    }
  }

  lemma PairRoundTrip(t: Value, e: nat, size: int, depth: nat, s: seq<Byte>, p: nat)
    requires t.Table? && WellFormed(t) && Supported(t) && Measurable(t) && e < |t.entries|
    requires PackHash(t.entries, e, size, depth).Some? && !InArray(t.entries[e].key, size)
    requires At(s, p, PackHash(t.entries, e, size, depth).value + [CombineType(TYPE_NIL, 0)])
    ensures UnpackHash(s, p, SlotsAndEntries(t, size, e))
            == Read(Content(t), p + |PackHash(t.entries, e, size, depth).value| + 1)
    decreases t, 1, |t.entries| - e, 0
  {
    hide Pack, PackHash, UnpackOne, UnpackHash, RawSet, SlotsAndEntries, CombineType, Content;
    PackHashParts(t.entries, e, size, depth);
    var key, value := Pack(t.entries[e].key, depth).value, Pack(t.entries[e].value, depth).value;
    var rest, end := PackHash(t.entries, e + 1, size, depth).value, [CombineType(TYPE_NIL, 0)];
    assert key + value + rest + end == key + (value + (rest + end));
    AtParts(s, p, key, value + (rest + end));
    AtParts(s, p + |key|, value, rest + end);
    ValueRoundTrip(t.entries[e].key, depth, s, p);
    ValueRoundTrip(t.entries[e].value, depth, s, p + |key|);
    EntryAdded(t, size, e);
    KeyIsThere(t, e);
    UnpackHashStep(s, p, SlotsAndEntries(t, size, e), Content(t.entries[e].key), p + |key|, Content(t.entries[e].value),
                   p + |key| + |value|, SlotsAndEntries(t, size, e + 1));
    HashRoundTrip(t, e + 1, size, depth, s, p + |key| + |value|);
  }

  lemma KeyIsThere(t: Value, e: nat)
    requires t.Table? && e < |t.entries| && ProperEntries(t.entries) && Supported(t)
    ensures Content(t.entries[e].key) != Absent
  {
  }

  function SizeOf(size: int): nat {
    if size < 0 then 0 else size
  }

  lemma HeadRoundTrip(s: seq<Byte>, p: nat, size: int)
    requires -0x8000_0000 <= size < 0x8000_0000 && (size >= 0 || size % 32 == 0) && At(s, p, TableHead(size))
    ensures p < |s| && s[p] % 8 == TYPE_TABLE
    ensures GetArraySize(s, p + 1, s[p] / 8) == Read(SizeOf(size), p + |TableHead(size)|)
  {
    if size < 0 {
      assert TableHead(size) == [CombineType(TYPE_TABLE, 0)] + [];
      hide CombineType;
      AtHead(s, p, TYPE_TABLE, 0, []);
      return;
    }
    hide CombineType, IntegerBytes, GetInteger;
    if size >= MAX_COOKIE - 1 {
      AtHead(s, p, TYPE_TABLE, MAX_COOKIE - 1, IntegerBytes(size));
      IntegerRoundTrip(s, p + 1, size);
    } else {
      assert TableHead(size) == [CombineType(TYPE_TABLE, size)] + [];
      AtHead(s, p, TYPE_TABLE, size, []);
    }
  }

  lemma PackTableParts(v: Value, depth: nat)
    requires v.Table? && Pack(v, depth).Some?
    ensures var size := Int32(v.rawlen);
            && depth <= MAX_DEPTH
            && PackArray(v.entries, 1, size, depth + 1).Some? && PackHash(v.entries, 0, size, depth + 1).Some?
            && Pack(v, depth).value == TableHead(size) + PackArray(v.entries, 1, size, depth + 1).value
                 + PackHash(v.entries, 0, size, depth + 1).value + [CombineType(TYPE_NIL, 0)]
  {
    hide TableHead, PackArray, PackHash, CombineType, Int32;
  }

  lemma UnpackTableStep(s: seq<Byte>, p: nat, size: int, at: nat, t: Data, at': nat)
    requires p < |s| && s[p] % 8 == TYPE_TABLE && GetArraySize(s, p + 1, s[p] / 8) == Read(size, at)
    requires UnpackArray(s, at, 1, size, Fields(map[], [])) == Read(t, at')
    ensures t.Fields? && at' <= |s| && UnpackOne(s, p) == UnpackHash(s, at', t)
  {
    hide UnpackArray, UnpackHash, GetArraySize;
    assert UnpackOne(s, p) == PushValue(s, p + 1, TYPE_TABLE, s[p] / 8);
    assert PushValue(s, p + 1, TYPE_TABLE, s[p] / 8) == UnpackTable(s, p + 1, s[p] / 8);
  }

  /** Decoding a value's bytes gives back what the value means, and stops right behind them. */
  lemma {:induction false} ValueRoundTrip(v: Value, depth: nat, s: seq<Byte>, p: nat)
    requires WellFormed(v) && Measurable(v) && Pack(v, depth).Some? && At(s, p, Pack(v, depth).value)
    ensures UnpackOne(s, p) == Read(Content(v), p + |Pack(v, depth).value|)
    decreases v, 2, 0
  {
    match v {
      case Nil =>
        PackNil(depth);
        NilRoundTrip(s, p);
      case Scalar(a) =>
        assert Pack(v, depth) == Some(AtomBytes(a));
        hide AtomBytes, UnpackOne;
        AtomRoundTrip(s, p, a);
      case Table(rawlen, entries) =>
        TableRoundTrip(v, depth, s, p);
      case Other =>
    }
  }

  lemma NegativeIsNone(t: Value, size: int, depth: nat)
    requires t.Table?
    ensures PackArray(t.entries, 1, SizeOf(size), depth) == PackArray(t.entries, 1, size, depth)
    ensures Slots(t, SizeOf(size)) == Slots(t, size)
  {
    hide FieldsOf, Pack;
  }

  lemma TableRoundTrip(v: Value, depth: nat, s: seq<Byte>, p: nat)
    requires v.Table? && WellFormed(v) && Measurable(v) && Pack(v, depth).Some? && At(s, p, Pack(v, depth).value)
    ensures UnpackOne(s, p) == Read(Content(v), p + |Pack(v, depth).value|)
    decreases v, 1, 0x1_0000_0000 + |v.entries|, 1
  {
    hide Pack, PackArray, PackHash, TableHead, UnpackOne, UnpackArray, UnpackHash, GetArraySize, Content,
      SlotsAndEntries, Slots, CombineType;
    PackSucceeds(v, depth);
    PackTableParts(v, depth);
    var size := Int32(v.rawlen);
    var head, arr := TableHead(size), PackArray(v.entries, 1, size, depth + 1).value;
    var hash, end := PackHash(v.entries, 0, size, depth + 1).value, [CombineType(TYPE_NIL, 0)];
    assert head + arr + hash + end == head + (arr + (hash + end));
    AtParts(s, p, head, arr + (hash + end));
    AtParts(s, p + |head|, arr, hash + end);
    HeadRoundTrip(s, p, size);
    AllAdded(v, size);
    NegativeIsNone(v, size, depth + 1);
    ArrayRoundTrip(v, 1, SizeOf(size), depth + 1, s, p + |head|);
    UnpackTableStep(s, p, SizeOf(size), p + |head|, Slots(v, size), p + |head| + |arr|);
    HashRoundTrip(v, 0, size, depth + 1, s, p + |head| + |arr|);
  }
}
