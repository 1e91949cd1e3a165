/**
 What the round trip needs, exactly: strings whose length is an int, and borders that survive as the
 size in the head of a table.
 */
module SeriLimits {
  import opened LuaValue
  import opened SeriFormat
  import opened SeriDecode
  import opened SeriRoundTrip

  // ----- strings -----

  predicate ShortAtom(a: Atom) {
    a.Str? ==> |a.s| < 0x8000_0000
  }

  /** Every string in it is shorter than 2^31 bytes. */
  ghost predicate ShortStrings(v: Value) {
    match v
    case Scalar(a) => ShortAtom(a)
    case Table(_, entries) =>
      forall i | 0 <= i < |entries| :: ShortStrings(entries[i].key) && ShortStrings(entries[i].value)
    case _ => true
  }

  ghost predicate ShortData(d: Data) {
    match d
    case Absent => true
    case Leaf(a) => ShortAtom(a)
    case Fields(fields, keyed) =>
      && (forall k | k in fields :: ShortAtom(k) && ShortData(fields[k]))
      && (forall i | 0 <= i < |keyed| :: ShortData(keyed[i].0) && ShortData(keyed[i].1))
  }

  lemma KeyShort(a: Atom)
    requires ShortAtom(a) && KeyOf(a).Some?
    ensures ShortAtom(KeyOf(a).value)
  {
    hide FromLittleEndian, Pow2;
  }

  lemma SetShort(t: Data, key: Data, value: Data)
    requires t.Fields? && ShortData(t) && ShortData(key) && ShortData(value) && RawSet(t, key, value).Some?
    ensures ShortData(RawSet(t, key, value).value)
  {
    if key.Leaf? {
      KeyShort(key.atom);
    }
    hide KeyOf;
  }

  /** Whatever the bytes, no decoded value has a longer string in it. */
  lemma {:induction false} DecodedShort(s: seq<Byte>, p: nat)
    requires p <= |s|
    ensures UnpackOne(s, p).Read? ==> ShortData(UnpackOne(s, p).value)
    decreases |s| - p, 0, 0
  {
    if p < |s| {
      ValueShort(s, p + 1, s[p] % 8, s[p] / 8);
      hide PushValue, ShortData;
    }
  }

  lemma {:induction false} ValueShort(s: seq<Byte>, p: nat, kind: nat, cookie: nat)
    requires p <= |s| && cookie < MAX_COOKIE
    ensures PushValue(s, p, kind, cookie).Read? ==> ShortData(PushValue(s, p, kind, cookie).value)
    decreases |s| - p, 3, 0
  {
    if kind == TYPE_TABLE {
      TableShort(s, p, cookie);
      hide UnpackTable, ShortData;
    } else {
      hide UnpackTable, GetInteger, FromLittleEndian;
    }
  }

  lemma {:induction false} TableShort(s: seq<Byte>, p: nat, cookie: nat)
    requires p <= |s| && cookie < MAX_COOKIE
    ensures UnpackTable(s, p, cookie).Read? ==> ShortData(UnpackTable(s, p, cookie).value)
    decreases |s| - p, 2, 0
  {
    assert ShortData(Fields(map[], []));
    hide GetArraySize, UnpackArray, UnpackHash, ShortData;
    match GetArraySize(s, p, cookie)
    case Invalid =>
    case Read(size, at) =>
      ArrayShort(s, at, 1, size, Fields(map[], []));
      match UnpackArray(s, at, 1, size, Fields(map[], []))
      case Invalid =>
      case Read(t, at') => HashShort(s, at', t);
  }

  lemma {:induction false} ArrayShort(s: seq<Byte>, p: nat, i: nat, size: int, t: Data)
    requires p <= |s| && t.Fields? && i > 0 && size < 0x8000_0000 && ShortData(t)
    ensures UnpackArray(s, p, i, size, t).Read? ==> ShortData(UnpackArray(s, p, i, size, t).value)
    decreases |s| - p, 1, 0
  {
    if i <= size {
      assert ShortData(Leaf(Integer(i)));
      hide UnpackOne, ShortData, RawSet;
      DecodedShort(s, p);
      match UnpackOne(s, p)
      case Invalid =>
      case Read(v, at) =>
        IndexIsKey(t, i, v);
        SetShort(t, Leaf(Integer(i)), v);
        ArrayShort(s, at, i + 1, size, RawSet(t, Leaf(Integer(i)), v).value);
    }
  }

  lemma IndexIsKey(t: Data, i: Int64, v: Data)
    requires t.Fields?
    ensures RawSet(t, Leaf(Integer(i)), v).Some?
  {
  }

  lemma {:induction false} HashShort(s: seq<Byte>, p: nat, t: Data)
    requires p <= |s| && t.Fields? && ShortData(t)
    ensures UnpackHash(s, p, t).Read? ==> ShortData(UnpackHash(s, p, t).value)
    decreases |s| - p, 1, 0
  {
    hide UnpackOne, ShortData, RawSet;
    DecodedShort(s, p);
    match UnpackOne(s, p)
    case Invalid =>
    case Read(key, at) =>
      if key != Absent {
        DecodedShort(s, at);
        match UnpackOne(s, at)
        case Invalid =>
        case Read(v, at') =>
          if RawSet(t, key, v).Some? {
            SetShort(t, key, v);
            HashShort(s, at', RawSet(t, key, v).value);
          }
      }
  }

  lemma {:induction false} KeyedEntry(t: Value, n: nat, i: nat)
    requires t.Table? && i < n <= |t.entries| && t.entries[i].key.Table?
    ensures exists j ::
              0 <= j < |KeyedOf(t, n)| && KeyedOf(t, n)[j] == (Content(t.entries[i].key), Content(t.entries[i].value))
  {
    hide Content;
    if i < n - 1 {
      KeyedEntry(t, n - 1, i);
      var j :| 0 <= j < |KeyedOf(t, n - 1)|
               && KeyedOf(t, n - 1)[j] == (Content(t.entries[i].key), Content(t.entries[i].value));
      assert KeyedOf(t, n)[j] == KeyedOf(t, n - 1)[j];
    } else {
      assert KeyedOf(t, n)[|KeyedOf(t, n - 1)|] == (Content(t.entries[i].key), Content(t.entries[i].value));
    }
  }

  lemma {:induction false} EntryOfKeyed(t: Value, n: nat, j: nat) returns (i: nat)
    requires t.Table? && n <= |t.entries| && j < |KeyedOf(t, n)|
    ensures i < n && t.entries[i].key.Table?
    ensures KeyedOf(t, n)[j] == (Content(t.entries[i].key), Content(t.entries[i].value))
  {
    hide Content;
    if t.entries[n - 1].key.Table? && j == |KeyedOf(t, n - 1)| {
      i := n - 1;
    } else {
      i := EntryOfKeyed(t, n - 1, j);
    }
  }

  /** What a value means has the strings that the value has. */
  lemma {:induction false} ContentShort(v: Value)
    requires WellFormed(v) && Supported(v)
    ensures ShortData(Content(v)) <==> ShortStrings(v)
  {
    if v.Table? {
      forall i | 0 <= i < |v.entries|
        ensures ShortData(Content(v.entries[i].key)) <==> ShortStrings(v.entries[i].key)
        ensures ShortData(Content(v.entries[i].value)) <==> ShortStrings(v.entries[i].value)
      {
        ContentShort(v.entries[i].key);
        ContentShort(v.entries[i].value);
      }
      if ShortStrings(v) {
        TableContentShort(v);
      } else {
        TableContentLong(v);
      }
    }
  }

  ghost predicate PartsAgree(v: Value)
    requires v.Table?
  {
    forall i | 0 <= i < |v.entries| ::
      && (ShortData(Content(v.entries[i].key)) <==> ShortStrings(v.entries[i].key))
      && (ShortData(Content(v.entries[i].value)) <==> ShortStrings(v.entries[i].value))
  }

  lemma TableContentShort(v: Value)
    requires v.Table? && PartsAgree(v) && ShortStrings(v) && WellFormed(v)
    ensures ShortData(Content(v))
  {
    var fields, keyed := FieldsOf(v, |v.entries|), KeyedOf(v, |v.entries|);
    assert Content(v) == Fields(fields, keyed);
    forall k | k in fields ensures ShortAtom(k) && ShortData(fields[k]) {
      var i := EntryOfField(v, |v.entries|, k);
      FieldOfEntry(v, |v.entries|, i);
      assert ShortStrings(v.entries[i].key);
    }
    forall j | 0 <= j < |keyed| ensures ShortData(keyed[j].0) && ShortData(keyed[j].1) {
      var i := EntryOfKeyed(v, |v.entries|, j);
    }
    hide Content, FieldsOf, KeyedOf;
  }

  lemma TableContentLong(v: Value)
    requires v.Table? && PartsAgree(v) && !ShortStrings(v) && WellFormed(v) && Supported(v)
    ensures !ShortData(Content(v))
  {
    var fields, keyed := FieldsOf(v, |v.entries|), KeyedOf(v, |v.entries|);
    assert Content(v) == Fields(fields, keyed);
    var i :| 0 <= i < |v.entries| && !(ShortStrings(v.entries[i].key) && ShortStrings(v.entries[i].value));
    assert Supported(v.entries[i].key) && v.entries[i].key != Nil;
    if v.entries[i].key.Scalar? {
      FieldOfEntry(v, |v.entries|, i);
      assert ShortStrings(v.entries[i].key) == ShortAtom(v.entries[i].key.atom);
    } else {
      KeyedEntry(v, |v.entries|, i);
      var j :| 0 <= j < |keyed| && keyed[j] == (Content(v.entries[i].key), Content(v.entries[i].value));
      assert !(ShortData(keyed[j].0) && ShortData(keyed[j].1));
    }
    hide Content, FieldsOf, KeyedOf;
  }

  // ----- borders -----

  /** Every border in it is b or a good one. */
  ghost predicate BordersBut(v: Value, b: nat) {
    v.Table? ==>
      && (GoodBorder(v.rawlen) || v.rawlen == b)
      && (forall i | 0 <= i < |v.entries| :: BordersBut(v.entries[i].key, b) && BordersBut(v.entries[i].value, b))
  }

  ghost predicate GoodBorders(v: Value) {
    BordersBut(v, 0)
  }

  lemma {:induction false} GoodIsMeasurable(v: Value, b: nat)
    requires BordersBut(v, b) && GoodBorder(b)
    ensures ShortStrings(v) <==> Measurable(v)
  {
    if v.Table? {
      forall i | 0 <= i < |v.entries|
        ensures ShortStrings(v.entries[i].key) <==> Measurable(v.entries[i].key)
        ensures ShortStrings(v.entries[i].value) <==> Measurable(v.entries[i].value)
      {
        GoodIsMeasurable(v.entries[i].key, b);
        GoodIsMeasurable(v.entries[i].value, b);
      }
    }
  }

  /** With good borders a value is restored if and only if its strings are shorter than 2^31 bytes. */
  lemma ValueRestored(v: Value, depth: nat, s: seq<Byte>, p: nat)
    requires WellFormed(v) && GoodBorders(v) && Pack(v, depth).Some? && At(s, p, Pack(v, depth).value)
    ensures ShortStrings(v) ==> UnpackOne(s, p) == Read(Content(v), p + |Pack(v, depth).value|)
    ensures !ShortStrings(v) ==> forall at :: UnpackOne(s, p) != Read(Content(v), at)
  {
    GoodIsMeasurable(v, 0);
    PackSucceeds(v, depth);
    ContentShort(v);
    hide Pack, UnpackOne, Content, ShortData;
    if ShortStrings(v) {
      ValueRoundTrip(v, depth, s, p);
    } else {
      assert p <= |s|;
      DecodedShort(s, p);
    }
  }

  /** The bytes of the value, wherever they stand, decode to what it means. */
  ghost predicate Restored(v: Value, depth: nat, s: seq<Byte>, p: nat) {
    Pack(v, depth).Some? && At(s, p, Pack(v, depth).value) ==>
      UnpackOne(s, p) == Read(Content(v), p + |Pack(v, depth).value|)
  }

  /** A border is safe in every table, anywhere in any value, if and only if it is a good one. */
  lemma BordersExactly(b: nat)
    ensures GoodBorder(b) <==>
              forall v: Value, depth: nat, s: seq<Byte>, p: nat ::
                WellFormed(v) && ShortStrings(v) && BordersBut(v, b) ==> Restored(v, depth, s, p)
  {
    hide Pack, UnpackOne, Content, WellFormed, ShortStrings, BordersBut;
    if GoodBorder(b) {
      forall v: Value, depth: nat, s: seq<Byte>, p: nat | WellFormed(v) && ShortStrings(v) && BordersBut(v, b)
        ensures Restored(v, depth, s, p)
      {
        if Pack(v, depth).Some? && At(s, p, Pack(v, depth).value) {
          GoodIsMeasurable(v, b);
          ValueRoundTrip(v, depth, s, p);
        }
      }
    } else {
      var v, s := BorderLost(b);
      hide GoodBorder;
      assert !Restored(v, 0, s, 0);
    }
  }

  /** Otherwise even the table that has nothing but its border does not come back. */
  lemma BorderLost(b: nat) returns (v: Value, s: seq<Byte>)
    requires !GoodBorder(b)
    ensures v == Table(b, if b < 0x8000_0000_0000_0000 then [Entry(Scalar(Integer(b)), Scalar(Boolean(true)))] else [])
    ensures WellFormed(v) && ShortStrings(v) && BordersBut(v, b) && Pack(v, 0) == Some(s)
    ensures 0 < |s| <= 12 && At(s, 0, s) && forall at :: UnpackOne(s, 0) != Read(Content(v), at)
  {
    v := Table(b, if b < 0x8000_0000_0000_0000 then [Entry(Scalar(Integer(b)), Scalar(Boolean(true)))] else []);
    OneEntry(b, v);
    var cookie, k := Int32(b) % 32, if b < 0x8000_0000_0000_0000 then b else 0;
    HeadByte(cookie);
    assert |IntegerBytes(k)| <= 9;
    hide CombineType, IntegerBytes, Int32, WellFormed, ShortStrings, BordersBut;
    s := [CombineType(TYPE_TABLE, cookie)] + (if v.entries == [] then [] else IntegerBytes(k) + [9]) + [0];
    LostBytes(v, k, s);
    assert At(s, 0, s) by { assert s[0..|s|] == s; }
    TableIs(s, 0);
    hide Pack, UnpackOne, UnpackTable, Content;
    if v.entries == [] {
      EmptyLost(s, cookie);
    } else {
      assert |s| == 3 + |IntegerBytes(b)| && s[1..1 + |IntegerBytes(b)|] == IntegerBytes(b);
      OwnLost(s, b, cookie, v);
    }
  }

  lemma OneEntry(b: nat, v: Value)
    requires !GoodBorder(b)
    requires v == Table(b, if b < 0x8000_0000_0000_0000 then [Entry(Scalar(Integer(b)), Scalar(Boolean(true)))] else [])
    ensures WellFormed(v) && ShortStrings(v) && BordersBut(v, b)
  {
    if b < 0x8000_0000_0000_0000 {
      var e := Entry(Scalar(Integer(b)), Scalar(Boolean(true)));
      assert v.entries == [e] && v.entries[0] == e;
      assert WellFormed(e.key) && WellFormed(e.value);
      assert ShortStrings(e.key) && ShortStrings(e.value);
      assert BordersBut(e.key, b) && BordersBut(e.value, b);
      assert ProperEntries(v.entries);
    }
  }

  lemma HeadByte(cookie: nat)
    requires cookie < 32
    ensures CombineType(TYPE_TABLE, cookie) % 8 == TYPE_TABLE && CombineType(TYPE_TABLE, cookie) / 8 == cookie
  {
  }

  lemma LostBytes(v: Value, k: Int64, s: seq<Byte>)
    requires v.Table? && !GoodBorder(v.rawlen)
    requires v.entries == [] || v.entries == [Entry(Scalar(Integer(k)), Scalar(Boolean(true)))]
    requires s == [CombineType(TYPE_TABLE, Int32(v.rawlen) % 32)]
                  + (if v.entries == [] then [] else IntegerBytes(k) + [9]) + [0]
    ensures Pack(v, 0) == Some(s)
  {
    var hash := if v.entries == [] then [] else IntegerBytes(k) + [9];
    PairBytes(v.entries, k, Int32(v.rawlen));
    Assembled(v, hash);
    NegativeHead(Int32(v.rawlen));
    hide *;
    assert s == [CombineType(TYPE_TABLE, Int32(v.rawlen) % 32)] + hash + [0];
  }

  lemma Assembled(v: Value, hash: seq<Byte>)
    requires v.Table? && Int32(v.rawlen) < 0 && PackHash(v.entries, 0, Int32(v.rawlen), 1) == Some(hash)
    ensures Pack(v, 0) == Some(TableHead(Int32(v.rawlen)) + hash + [CombineType(TYPE_NIL, 0)])
  {
    var size := Int32(v.rawlen);
    NoSlotBytes(v.entries, size);
    hide Pack, PackArray, PackHash, CombineType, TableHead, Int32;
    PartsPack(v, 0);
    PackTableParts(v, 0);
    assert TableHead(size) + [] == TableHead(size);
  }

  lemma NegativeHead(size: int)
    requires -0x8000_0000 <= size < 0
    ensures TableHead(size) == [CombineType(TYPE_TABLE, size % 32)] && CombineType(TYPE_NIL, 0) == 0
  {
    SameCookie(size);
    hide CombineType;
    assert CombineType(TYPE_NIL, 0) == 0 by { NilByte(); }
  }

  lemma SameCookie(size: int)
    ensures CombineType(TYPE_TABLE, size) == CombineType(TYPE_TABLE, size % 32)
  {
    assert size % 32 % 32 == size % 32;
  }

  lemma NilByte()
    ensures CombineType(TYPE_NIL, 0) == 0
  {
  }

  lemma PairBytes(entries: seq<Entry>, k: Int64, size: int)
    requires size < 0 && (entries == [] || entries == [Entry(Scalar(Integer(k)), Scalar(Boolean(true)))])
    ensures PackHash(entries, 0, size, 1) == Some(if entries == [] then [] else IntegerBytes(k) + [9])
  {
    hide Pack, IntegerBytes;
    if entries != [] {
      OnePair(entries, k, size);
    }
  }

  lemma NoSlotBytes(entries: seq<Entry>, size: int)
    requires size < 0
    ensures PackArray(entries, 1, size, 1) == Some([])
  {
  }

  lemma OnePair(entries: seq<Entry>, b: Int64, size: int)
    requires size < 0 && entries == [Entry(Scalar(Integer(b)), Scalar(Boolean(true)))]
    ensures PackHash(entries, 0, size, 1) == Some(IntegerBytes(b) + [9])
  {
    hide IntegerBytes;
    assert Pack(entries[0].key, 1) == Some(IntegerBytes(b)) && Pack(entries[0].value, 1) == Some([9]);
    assert PackHash(entries, 1, size, 1) == Some([]);
    hide Pack;
    assert IntegerBytes(b) + [9] + [] == IntegerBytes(b) + [9];
  }

  lemma TableIs(s: seq<Byte>, p: nat)
    requires p < |s| && s[p] % 8 == TYPE_TABLE
    ensures UnpackOne(s, p) == UnpackTable(s, p + 1, s[p] / 8)
  {
    hide UnpackTable;
  }

  lemma NothingLeft(s: seq<Byte>, i: nat, size: int, t: Data)
    requires t.Fields? && 0 < i && size < 0x8000_0000
    ensures UnpackOne(s, |s|) == Invalid && UnpackHash(s, |s|, t) == Invalid
    ensures UnpackArray(s, |s|, i, size, t) == if i > size then Read(t, |s|) else Invalid
  {
  }

  /** A key whose nil value is the last there is: the nil that has to end the table is missing. */
  lemma LastIsValue(s: seq<Byte>, p: nat, key: Data, t: Data)
    requires t.Fields? && |s| > 0 && p < |s| - 1 && UnpackOne(s, p) == Read(key, |s| - 1) && key != Absent
    requires UnpackOne(s, |s| - 1) == Read(Absent, |s|)
    ensures UnpackHash(s, p, t) == Invalid
  {
    hide UnpackOne, RawSet;
    if RawSet(t, key, Absent).Some? {
      NothingLeft(s, 1, 0, RawSet(t, key, Absent).value);
    }
  }

  lemma EmptyLost(s: seq<Byte>, cookie: nat)
    requires |s| == 2 && s[1] == 0 && 0 < cookie < 32
    ensures UnpackTable(s, 1, cookie) == Invalid
  {
    var none := Fields(map[], []);
    assert s[1..2] == [CombineType(TYPE_NIL, 0)];
    NilRoundTrip(s, 1);
    IndexIsKey(none, 1, Absent);
    var t := RawSet(none, Leaf(Integer(1)), Absent).value;
    hide UnpackOne, RawSet, UnpackHash, UnpackArray, FromLittleEndian;
    if cookie < 31 {
      UnpackArrayStep(s, 1, 1, cookie, none, Absent, 2, t);
      NothingLeft(s, 2, cookie, t);
    }
  }

  /** Key, true and nil, taken for as many slots as the cookie says. */
  lemma OwnLost(s: seq<Byte>, b: Int64, cookie: nat, v: Value)
    requires b >= 0 && !GoodBorder(b) && cookie == Int32(b) % 32
    requires v == Table(b, [Entry(Scalar(Integer(b)), Scalar(Boolean(true)))])
    requires |s| == 3 + |IntegerBytes(b)| && At(s, 1, IntegerBytes(b)) && s[|s| - 2] == 9 && s[|s| - 1] == 0
    ensures forall at :: UnpackTable(s, 1, cookie) != Read(Content(v), at)
  {
    var q, none, key, yes := |s| - 2, Fields(map[], []), Leaf(Integer(b)), Leaf(Boolean(true));
    OwnTokens(s, b);
    hide At, UnpackOne, RawSet, UnpackHash, UnpackArray, FromLittleEndian, GetInteger, IntegerBytes, Content;
    if cookie == 31 {
      NoSlots(s, q, Int32(b), none);
      LastIsValue(s, q, yes, none);
    } else {
      IndexIsKey(none, 1, key);
      var t1 := RawSet(none, Leaf(Integer(1)), key).value;
      UnpackArrayStep(s, 1, 1, cookie, none, key, q, t1);
      if cookie == 1 {
        NoSlots(s, q, -1, t1);
        assert UnpackArray(s, q, 2, 1, t1) == Read(t1, q) by { EnoughSlots(s, q, 2, 1, t1); }
        LastIsValue(s, q, yes, t1);
      } else {
        IndexIsKey(t1, 2, yes);
        var t2 := RawSet(t1, Leaf(Integer(2)), yes).value;
        UnpackArrayStep(s, q, 2, cookie, t1, yes, q + 1, t2);
        if cookie == 2 {
          EnoughSlots(s, q + 1, 3, 2, t2);
          TwoSlots(s, b, v, t1, t2);
        } else {
          TooManySlots(s, b, cookie);
        }
      }
    }
  }

  lemma TooManySlots(s: seq<Byte>, k: Int64, cookie: nat)
    requires 3 <= cookie < 31
    requires |s| == 3 + |IntegerBytes(k)| && At(s, 1, IntegerBytes(k)) && s[|s| - 2] == 9 && s[|s| - 1] == 0
    ensures UnpackTable(s, 1, cookie) == Invalid
  {
    var q, none, key, yes := |s| - 2, Fields(map[], []), Leaf(Integer(k)), Leaf(Boolean(true));
    OwnTokens(s, k);
    hide At, UnpackOne, RawSet, UnpackHash, UnpackArray, FromLittleEndian, GetInteger, IntegerBytes;
    IndexIsKey(none, 1, key);
    var t1 := RawSet(none, Leaf(Integer(1)), key).value;
    UnpackArrayStep(s, 1, 1, cookie, none, key, q, t1);
    IndexIsKey(t1, 2, yes);
    var t2 := RawSet(t1, Leaf(Integer(2)), yes).value;
    UnpackArrayStep(s, q, 2, cookie, t1, yes, q + 1, t2);
    IndexIsKey(t2, 3, Absent);
    var t3 := RawSet(t2, Leaf(Integer(3)), Absent).value;
    UnpackArrayStep(s, q + 1, 3, cookie, t2, Absent, |s|, t3);
    NothingLeft(s, 4, cookie, t3);
  }

  lemma EnoughSlots(s: seq<Byte>, p: nat, i: nat, size: int, t: Data)
    requires p <= |s| && t.Fields? && i > 0 && i > size && size < 0x8000_0000
    ensures UnpackArray(s, p, i, size, t) == Read(t, p)
  {
  }

  lemma NoSlots(s: seq<Byte>, p: nat, size: int, t: Data)
    requires p <= |s| && t.Fields? && size < 0
    ensures UnpackArray(s, p, 1, size, t) == Read(t, p)
  {
  }

  lemma OwnTokens(s: seq<Byte>, k: Int64)
    requires |s| == 3 + |IntegerBytes(k)| && At(s, 1, IntegerBytes(k)) && s[|s| - 2] == 9 && s[|s| - 1] == 0
    ensures var q := |s| - 2;
            && UnpackOne(s, 1) == Read(Leaf(Integer(k)), q)
            && UnpackOne(s, q) == Read(Leaf(Boolean(true)), q + 1)
            && UnpackOne(s, q + 1) == Read(Absent, |s|)
            && GetArraySize(s, 1, 31) == Read(Int32(k), q)
  {
    hide FromLittleEndian, IntegerBytes, GetInteger;
    AtomRoundTrip(s, 1, Integer(k));
    IntegerRoundTrip(s, 1, k);
    assert s[|s| - 1..|s|] == [CombineType(TYPE_NIL, 0)];
    NilRoundTrip(s, |s| - 1);
    assert s[|s| - 2..|s| - 1] == AtomBytes(Boolean(true));
    AtomRoundTrip(s, |s| - 2, Boolean(true));
  }

  lemma TwoSlots(s: seq<Byte>, b: Int64, v: Value, t1: Data, t2: Data)
    requires |s| > 0 && UnpackOne(s, |s| - 1) == Read(Absent, |s|)
    requires b > 2 && v == Table(b, [Entry(Scalar(Integer(b)), Scalar(Boolean(true)))])
    requires t1.Fields? && RawSet(t1, Leaf(Integer(2)), Leaf(Boolean(true))) == Some(t2)
    ensures UnpackHash(s, |s| - 1, t2) == Read(t2, |s|) && t2 != Content(v)
  {
    hide UnpackOne;
    assert Integer(2) in t2.fields;
    assert FieldsOf(v, 1) == FieldsOf(v, 0)[Integer(b) := Content(Scalar(Boolean(true)))];
    assert Integer(2) !in FieldsOf(v, 1);
  }

  /** Five bytes for the table { true } with the border 2^32 - 2: the head asks for 30 slots. */
  lemma ThirtySlotsAsked()
    ensures var v := Table(0xffff_fffe, [Entry(Scalar(Integer(1)), Scalar(Boolean(true)))]);
            var s: seq<Byte> := [246, 10, 1, 9, 0];
            !GoodBorder(v.rawlen) && Pack(v, 0) == Some(s) && UnpackOne(s, 0) == Invalid
  {
    var v := Table(0xffff_fffe, [Entry(Scalar(Integer(1)), Scalar(Boolean(true)))]);
    var s: seq<Byte> := [246, 10, 1, 9, 0];
    assert IntegerBytes(1) == [10, 1] && CombineType(TYPE_TABLE, Int32(v.rawlen) % 32) == 246;
    assert s == [246] + (IntegerBytes(1) + [9]) + [0] && s[1..3] == [10, 1];
    LostBytes(v, 1, s);
    TableIs(s, 0);
    TooManySlots(s, 1, 30);
    hide UnpackOne, UnpackTable, Pack;
  }
}
