/**
 The serialised form of Lua values: one head byte, a type in its low three bits and a cookie in the
 other five, then whatever that asks for. Numbers are in the machine's byte order, here little-endian.
 */
module SeriFormat {
  import opened LuaValue

  const MAX_COOKIE := 32
  const MAX_DEPTH := 32

  const TYPE_NIL := 0
  const TYPE_BOOLEAN := 1
  const TYPE_NUMBER := 2
  const TYPE_USERDATA := 3
  const TYPE_SHORT_STRING := 4
  const TYPE_LONG_STRING := 5
  const TYPE_TABLE := 6

  const NUMBER_ZERO := 0
  const NUMBER_BYTE := 1
  const NUMBER_WORD := 2
  const NUMBER_DWORD := 4
  const NUMBER_QWORD := 6
  const NUMBER_REAL := 8

  /** A conversion to a 32-bit signed integer: the value modulo 2^32. */
  function Int32(n: int): (r: int)
    ensures -0x8000_0000 <= r < 0x8000_0000
    ensures -0x8000_0000 <= n < 0x8000_0000 ==> r == n
  {
    (n + 0x8000_0000) % 0x1_0000_0000 - 0x8000_0000
  }

  /** The head byte; a cookie out of range loses its high bits. */
  function CombineType(kind: nat, cookie: int): Byte
    requires kind < 8
  {
    kind + 8 * (cookie % 32)
  }

  function Pow256(width: nat): (p: nat)
    ensures p > 0
  {
    if width == 0 then 1 else 0x100 * Pow256(width - 1)
  }

  function LittleEndian(n: nat, width: nat): (s: seq<Byte>)
    ensures |s| == width
  {
    if width == 0 then [] else [n % 0x100] + LittleEndian(n / 0x100, width - 1)
  }

  lemma {:induction false} ReadsBack(n: nat, width: nat)
    requires n < Pow256(width)
    ensures FromLittleEndian(LittleEndian(n, width)) == n
  {
    if width > 0 {
      ReadsBack(n / 0x100, width - 1);
    }
  }

  /** Fixed widths: the two's complement of n in that many bytes. */
  function Unsigned16(n: int): (s: seq<Byte>) ensures |s| == 2 { LittleEndian(n % 0x1_0000, 2) }
  function Unsigned32(n: int): (s: seq<Byte>) ensures |s| == 4 { LittleEndian(n % 0x1_0000_0000, 4) }
  function Unsigned64(n: int): (s: seq<Byte>) ensures |s| == 8 { LittleEndian(n % 0x1_0000_0000_0000_0000, 8) }

  lemma FixedWidthsReadBack(n: int)
    ensures FromLittleEndian(Unsigned16(n)) == n % 0x1_0000
    ensures FromLittleEndian(Unsigned32(n)) == n % 0x1_0000_0000
    ensures FromLittleEndian(Unsigned64(n)) == n % 0x1_0000_0000_0000_0000
  {
    assert Pow256(2) == 0x1_0000;
    assert Pow256(4) == 0x1_0000_0000;
    assert Pow256(8) == 0x1_0000_0000_0000_0000;
    ReadsBack(n % 0x1_0000, 2);
    ReadsBack(n % 0x1_0000_0000, 4);
    ReadsBack(n % 0x1_0000_0000_0000_0000, 8);
  }

  function IntegerBytes(v: Int64): seq<Byte> {
    if v == 0 then [CombineType(TYPE_NUMBER, NUMBER_ZERO)]
    else if v != Int32(v) then [CombineType(TYPE_NUMBER, NUMBER_QWORD)] + Unsigned64(v)
    else if v < 0 then [CombineType(TYPE_NUMBER, NUMBER_DWORD)] + Unsigned32(v)
    else if v < 0x100 then [CombineType(TYPE_NUMBER, NUMBER_BYTE), v]
    else if v < 0x1_0000 then [CombineType(TYPE_NUMBER, NUMBER_WORD)] + Unsigned16(v)
    else [CombineType(TYPE_NUMBER, NUMBER_DWORD)] + Unsigned32(v)
  }

  /** The length goes through a 32-bit int. */
  function StringBytes(s: seq<Byte>): seq<Byte> {
    var len := Int32(|s|);
    if len < MAX_COOKIE then [CombineType(TYPE_SHORT_STRING, len)] + if len > 0 then s[..len] else []
    else if len < 0x1_0000 then [CombineType(TYPE_LONG_STRING, 2)] + Unsigned16(len) + s[..len]
    else [CombineType(TYPE_LONG_STRING, 4)] + Unsigned32(len) + s[..len]
  }

  function AtomBytes(a: Atom): seq<Byte> {
    match a
    case Boolean(b) => [CombineType(TYPE_BOOLEAN, if b then 1 else 0)]
    case Integer(n) => IntegerBytes(n)
    case Real(bits) => [CombineType(TYPE_NUMBER, NUMBER_REAL)] + bits
    case Pointer(addr) => [CombineType(TYPE_USERDATA, 0)] + addr
    case Str(s) => StringBytes(s)
  }

  function TableHead(size: int): seq<Byte>
    requires -0x8000_0000 <= size < 0x8000_0000
  {
    if size >= MAX_COOKIE - 1 then [CombineType(TYPE_TABLE, MAX_COOKIE - 1)] + IntegerBytes(size)
    else [CombineType(TYPE_TABLE, size)]
  }

  predicate InArray(key: Value, size: int) {
    key.Scalar? && key.atom.Integer? && 0 < key.atom.n <= size
  }

  function Append(a: Option<seq<Byte>>, b: Option<seq<Byte>>): Option<seq<Byte>> {
    if a.Some? && b.Some? then Some(a.value + b.value) else None
  }

  /** The bytes of a value at this depth of nesting, or None for an error. */
  function Pack(v: Value, depth: nat): Option<seq<Byte>>
    decreases 33 - depth, 0, 0
  {
    if depth > MAX_DEPTH then None
    else match v
      case Nil => Some([CombineType(TYPE_NIL, 0)])
      case Scalar(a) => Some(AtomBytes(a))
      case Other => None
      case Table(rawlen, entries) =>
        var size := Int32(rawlen);
        Append(Append(Append(Some(TableHead(size)), PackArray(entries, 1, size, depth + 1)),
                      PackHash(entries, 0, size, depth + 1)),
               Some([CombineType(TYPE_NIL, 0)]))
  }

  /** Slots i to size, nil or not. */
  function PackArray(entries: seq<Entry>, i: nat, size: int, depth: nat): Option<seq<Byte>>
    decreases 33 - depth, 1, size - i
  {
    if i > size then Some([])
    else Append(Pack(Get(entries, i), depth), PackArray(entries, i + 1, size, depth))
  }

  /** From the i-th entry on, keys and values of those that are not slots. */
  function PackHash(entries: seq<Entry>, i: nat, size: int, depth: nat): Option<seq<Byte>>
    decreases 33 - depth, 1, |entries| - i
  {
    if i >= |entries| then Some([])
    else if InArray(entries[i].key, size) then PackHash(entries, i + 1, size, depth)
    else Append(Append(Pack(entries[i].key, depth), Pack(entries[i].value, depth)),
                PackHash(entries, i + 1, size, depth))
  }

  function PackAll(vs: seq<Value>, i: nat): Option<seq<Byte>>
    decreases |vs| - i
  {
    if i >= |vs| then Some([]) else Append(Pack(vs[i], 0), PackAll(vs, i + 1))
  }

  // ----- which values can be packed -----

  /** Nothing in it that has no serialised form. */
  ghost predicate Supported(v: Value) {
    match v
    case Nil => true
    case Scalar(_) => true
    case Other => false
    case Table(_, entries) => forall i | 0 <= i < |entries| :: Supported(entries[i].key) && Supported(entries[i].value)
  }

  /** Everything in it is at most `levels` tables deep. */
  ghost predicate Within(v: Value, levels: int)
  {
    levels >= 0 &&
    (v.Table? ==>
       && (Int32(v.rawlen) > 0 ==> levels > 0)
       && (forall i | 0 <= i < |v.entries| ::
             Within(v.entries[i].key, levels - 1) && Within(v.entries[i].value, levels - 1)))
  }

  ghost predicate Packable(v: Value, depth: nat) {
    Supported(v) && Within(v, MAX_DEPTH - depth)
  }

  ghost predicate SlotsPack(entries: seq<Entry>, i: nat, size: int, depth: nat) {
    forall n: nat | i <= n <= size :: Pack(Get(entries, n), depth).Some?
  }

  ghost predicate EntryPacks(e: Entry, depth: nat) {
    Pack(e.key, depth).Some? && Pack(e.value, depth).Some?
  }

  /** Packing fails exactly for values with an unsupported part or something below level 32. */
  lemma {:induction false} PackSucceeds(v: Value, depth: nat)
    requires WellFormed(v)
    ensures Pack(v, depth).Some? <==> Packable(v, depth)
    decreases v
  {
    hide Pack, Packable, EntryPacks;
    if depth > MAX_DEPTH || !v.Table? {
      LeafPacks(v, depth);
    } else {
      TablePacks(v, depth);
      EntriesPackable(v, depth);
      forall i | 0 <= i < |v.entries|
        ensures Packable(v.entries[i].key, depth + 1) && Packable(v.entries[i].value, depth + 1)
                <==> EntryPacks(v.entries[i], depth + 1)
      {
        PackSucceeds(v.entries[i].key, depth + 1);
        PackSucceeds(v.entries[i].value, depth + 1);
        PairPacks(v.entries[i], depth + 1);
      }
    }
  }

  lemma LeafPacks(v: Value, depth: nat)
    requires depth > MAX_DEPTH || !v.Table?
    ensures Pack(v, depth).Some? <==> Packable(v, depth)
  {
    hide AtomBytes, PackArray, PackHash, TableHead;
  }

  lemma PairPacks(e: Entry, depth: nat)
    ensures EntryPacks(e, depth) <==> Pack(e.key, depth).Some? && Pack(e.value, depth).Some?
  {
  }

  lemma PartsPack(v: Value, depth: nat)
    requires v.Table? && depth <= MAX_DEPTH
    ensures var size := Int32(v.rawlen);
            Pack(v, depth).Some? <==>
              PackArray(v.entries, 1, size, depth + 1).Some? && PackHash(v.entries, 0, size, depth + 1).Some?
  {
    hide TableHead, PackArray, PackHash, Int32;
  }

  lemma TablePacks(v: Value, depth: nat)
    requires v.Table? && ProperEntries(v.entries) && depth <= MAX_DEPTH
    ensures Pack(v, depth).Some? <==>
              && (Int32(v.rawlen) > 0 ==> depth < MAX_DEPTH)
              && (forall i | 0 <= i < |v.entries| :: EntryPacks(v.entries[i], depth + 1))
  {
    hide Pack, PackArray, PackHash;
    var size := Int32(v.rawlen);
    PartsPack(v, depth);
    ArraySucceeds(v.entries, 1, size, depth + 1);
    HashSucceeds(v.entries, 0, size, depth + 1);
    SlotsAreEntries(v.entries, size, depth + 1);
  }

  lemma EntriesPackable(v: Value, depth: nat)
    requires v.Table? && depth <= MAX_DEPTH
    ensures Packable(v, depth) <==>
              && (Int32(v.rawlen) > 0 ==> depth < MAX_DEPTH)
              && (forall i | 0 <= i < |v.entries| ::
                    Packable(v.entries[i].key, depth + 1) && Packable(v.entries[i].value, depth + 1))
  {
  }

  lemma {:induction false} ArraySucceeds(entries: seq<Entry>, i: nat, size: int, depth: nat)
    ensures PackArray(entries, i, size, depth).Some? <==> SlotsPack(entries, i, size, depth)
    decreases size - i
  {
    if i <= size {
      ArraySucceeds(entries, i + 1, size, depth);
      assert PackArray(entries, i, size, depth).Some? <==>
             Pack(Get(entries, i), depth).Some? && PackArray(entries, i + 1, size, depth).Some?;
      hide PackArray, Pack;
    }
  }

  lemma {:induction false} HashSucceeds(entries: seq<Entry>, i: nat, size: int, depth: nat)
    ensures PackHash(entries, i, size, depth).Some? <==>
              forall j | i <= j < |entries| && !InArray(entries[j].key, size) :: EntryPacks(entries[j], depth)
    decreases |entries| - i
  {
    if i < |entries| {
      HashSucceeds(entries, i + 1, size, depth);
    }
  }

  /** Slots and the other entries together cover every entry. */
  lemma SlotsAreEntries(entries: seq<Entry>, size: int, depth: nat)
    requires ProperEntries(entries)
    ensures && SlotsPack(entries, 1, size, depth)
            && (forall j | 0 <= j < |entries| && !InArray(entries[j].key, size) :: EntryPacks(entries[j], depth))
       <==> (size > 0 ==> depth <= MAX_DEPTH) && (forall j | 0 <= j < |entries| :: EntryPacks(entries[j], depth))
  {
    if && SlotsPack(entries, 1, size, depth)
       && forall j | 0 <= j < |entries| && !InArray(entries[j].key, size) :: EntryPacks(entries[j], depth) {
      if size > 0 {
        assert Pack(Get(entries, 1), depth).Some?;
      }
      forall j | 0 <= j < |entries| ensures EntryPacks(entries[j], depth) {
        if InArray(entries[j].key, size) {
          GetFindsEntry(entries, entries[j].key.atom.n);
          assert Pack(Get(entries, entries[j].key.atom.n), depth).Some?;
        }
      }
    }
    if (size > 0 ==> depth <= MAX_DEPTH) && forall j | 0 <= j < |entries| :: EntryPacks(entries[j], depth) {
      forall n: nat | 1 <= n <= size ensures Pack(Get(entries, n), depth).Some? {
        GetFindsEntry(entries, n);
        if Get(entries, n) != Nil {
          var j :| 0 <= j < |entries| && entries[j].value == Get(entries, n);
          assert EntryPacks(entries[j], depth);
        }
      }
    }
  }
}
