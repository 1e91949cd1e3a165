/**
 The serialiser and deserialiser themselves: one appends to a buffer, the other moves through one.
 */
module Seri {
  import opened LuaValue
  import opened SeriFormat
  import opened SeriDecode
  import opened SeriStream
  import opened SeriWire

  class WriteBlock {
    var b: seq<Byte>

    constructor ()
      ensures b == []
    {
      b := [];
    }

    method Add(bytes: seq<Byte>)
      modifies this
      ensures b == old(b) + bytes
    {
      b := b + bytes;
    }

    method WbNil()
      modifies this
      ensures b == old(b) + [CombineType(TYPE_NIL, 0)] == old(b) + [0]
    {
      Add([CombineType(TYPE_NIL, 0)]);
    }

    /** The narrowest form that holds the number: its head byte, and 0, 1, 2, 4 or 8 more. */
    method WbInteger(v: Int64)
      modifies this
      ensures b == old(b) + IntegerBytes(v)
      ensures v == 0 ==> b == old(b) + [2]
      ensures 0 < v < 0x100 ==> b == old(b) + [10, v]
      ensures 0x100 <= v < 0x1_0000 ==> b == old(b) + [18, v % 0x100, v / 0x100]
      ensures -0x8000_0000 <= v < 0 || 0x1_0000 <= v < 0x8000_0000 ==>
                |b| == |old(b)| + 5 && old(b) + [34] <= b
      ensures v < -0x8000_0000 || v >= 0x8000_0000 ==>
                |b| == |old(b)| + 9 && old(b) + [50] <= b
    {
      IntegerWire(v);
      IntegerParts(v);
      hide CombineType, Unsigned16, Unsigned32, Unsigned64, IntegerBytes;
      Starts(b, IntegerBytes(v));
      if v == 0 {
        Add([CombineType(TYPE_NUMBER, NUMBER_ZERO)]);
      } else if v != Int32(v) {
        Add([CombineType(TYPE_NUMBER, NUMBER_QWORD)]);
        Add(Unsigned64(v));
      } else if v < 0 {
        Add([CombineType(TYPE_NUMBER, NUMBER_DWORD)]);
        Add(Unsigned32(v));
      } else if v < 0x100 {
        Add([CombineType(TYPE_NUMBER, NUMBER_BYTE)]);
        Add([v]);
      } else if v < 0x1_0000 {
        Add([CombineType(TYPE_NUMBER, NUMBER_WORD)]);
        Add(Unsigned16(v));
      } else {
        Add([CombineType(TYPE_NUMBER, NUMBER_DWORD)]);
        Add(Unsigned32(v));
      }
    }

    lemma IntegerParts(v: Int64)
      ensures v == 0 ==> IntegerBytes(v) == [CombineType(TYPE_NUMBER, NUMBER_ZERO)]
      ensures v != Int32(v) ==> IntegerBytes(v) == [CombineType(TYPE_NUMBER, NUMBER_QWORD)] + Unsigned64(v)
      ensures v == Int32(v) && (v < 0 || v >= 0x1_0000) ==>
                IntegerBytes(v) == [CombineType(TYPE_NUMBER, NUMBER_DWORD)] + Unsigned32(v)
      ensures 0 < v < 0x100 ==> IntegerBytes(v) == [CombineType(TYPE_NUMBER, NUMBER_BYTE)] + [v]
      ensures 0x100 <= v < 0x1_0000 ==>
                IntegerBytes(v) == [CombineType(TYPE_NUMBER, NUMBER_WORD)] + Unsigned16(v)
    {
      hide CombineType, Unsigned16, Unsigned32, Unsigned64;
    }

    lemma Starts(before: seq<Byte>, bytes: seq<Byte>)
      ensures bytes != [] ==> before + [bytes[0]] <= before + bytes
    {
    }

    method WbString(str: seq<Byte>)
      modifies this
      ensures b == old(b) + StringBytes(str)
      ensures |str| < 32 ==> b == old(b) + ([4 + 8 * |str|] + str)
      ensures 32 <= |str| < 0x1_0000 ==> b == old(b) + ([21, |str| % 0x100, |str| / 0x100] + str)
      ensures 0x1_0000 <= |str| < 0x8000_0000 ==> |b| == |old(b)| + 5 + |str| && old(b) + [37] <= b
    {
      StringWire(str);
      StringParts(str);
      hide CombineType, Unsigned16, Unsigned32, StringBytes;
      var len := Int32(|str|);
      if len < MAX_COOKIE {
        Add([CombineType(TYPE_SHORT_STRING, len)]);
        if len > 0 {
          Add(str[..len]);
        }
      } else {
        if len < 0x1_0000 {
          Add([CombineType(TYPE_LONG_STRING, 2)]);
          Add(Unsigned16(len));
        } else {
          Add([CombineType(TYPE_LONG_STRING, 4)]);
          Add(Unsigned32(len));
        }
        Add(str[..len]);
      }
    }

    lemma StringParts(str: seq<Byte>)
      ensures var len := Int32(|str|);
              && (len <= 0 ==> StringBytes(str) == [CombineType(TYPE_SHORT_STRING, len)])
              && (0 < len < MAX_COOKIE ==> StringBytes(str) == [CombineType(TYPE_SHORT_STRING, len)] + str[..len])
              && (MAX_COOKIE <= len < 0x1_0000 ==>
                    StringBytes(str) == [CombineType(TYPE_LONG_STRING, 2)] + Unsigned16(len) + str[..len])
              && (len >= 0x1_0000 ==>
                    StringBytes(str) == [CombineType(TYPE_LONG_STRING, 4)] + Unsigned32(len) + str[..len])
    {
      hide CombineType, Unsigned16, Unsigned32;
    }

    method WbAtom(a: Atom)
      modifies this
      ensures b == old(b) + AtomBytes(a)
      ensures a.Boolean? ==> b == old(b) + [if a.b then 9 else 1]
      ensures a.Real? ==> b == old(b) + ([66] + a.bits)
      ensures a.Pointer? ==> b == old(b) + ([3] + a.addr)
    {
      if a.Real? {
        AtomWire(a.bits);
      } else if a.Pointer? {
        AtomWire(a.addr);
      } else if a.Boolean? {
        BooleanWire(a.b);
      }
      hide CombineType, IntegerBytes, StringBytes;
      match a {
        case Boolean(v) => Add([CombineType(TYPE_BOOLEAN, if v then 1 else 0)]);
        case Integer(n) => WbInteger(n);
        case Real(bits) =>
          Add([CombineType(TYPE_NUMBER, NUMBER_REAL)]);
          Add(bits);
        case Pointer(addr) =>
          Add([CombineType(TYPE_USERDATA, 0)]);
          Add(addr);
        case Str(s) => WbString(s);
      }
    }

    /** The border and the slots up to it. */
    method WbTableArray(rawlen: nat, entries: seq<Entry>, depth: nat) returns (ok: bool, arraySize: int)
      modifies this
      ensures arraySize == Int32(rawlen)
      ensures ok <==> PackArray(entries, 1, arraySize, depth).Some?
      ensures ok ==> b == old(b) + TableHead(arraySize) + PackArray(entries, 1, arraySize, depth).value
      decreases 33 - depth, 1
    {
      hide Pack, Get, IntegerBytes, CombineType, Int32, AtomBytes;
      arraySize := Int32(rawlen);
      if arraySize >= MAX_COOKIE - 1 {
        Add([CombineType(TYPE_TABLE, MAX_COOKIE - 1)]);
        WbInteger(arraySize);
      } else {
        Add([CombineType(TYPE_TABLE, arraySize)]);
      }
      assert b == old(b) + TableHead(arraySize);
      hide TableHead;
      ghost var whole := PackArray(entries, 1, arraySize, depth);
      ghost var start := b;
      var i := 1;
      while i <= arraySize
        invariant 1 <= i
        invariant whole.Some? <==> PackArray(entries, i, arraySize, depth).Some?
        invariant whole.Some? ==> start + whole.value == b + PackArray(entries, i, arraySize, depth).value
        decreases arraySize - i
      {
        ghost var was := b;
        var packed := PackOne(Get(entries, i), depth);
        if !packed {
          return false, arraySize;
        }
        if whole.Some? {
          assert was + (Pack(Get(entries, i), depth).value + PackArray(entries, i + 1, arraySize, depth).value)
              == b + PackArray(entries, i + 1, arraySize, depth).value;
        }
        i := i + 1;
      }
      ok := true;
    }

    /** The other entries in the order of lua_next, and a nil. */
    method WbTableHash(entries: seq<Entry>, depth: nat, arraySize: int) returns (ok: bool)
      modifies this
      ensures ok <==> PackHash(entries, 0, arraySize, depth).Some?
      ensures ok ==> b == old(b) + PackHash(entries, 0, arraySize, depth).value + [CombineType(TYPE_NIL, 0)]
      decreases 33 - depth, 1
    {
      hide Pack, CombineType, InArray, AtomBytes;
      ghost var whole := PackHash(entries, 0, arraySize, depth);
      for i := 0 to |entries|
        invariant whole.Some? <==> PackHash(entries, i, arraySize, depth).Some?
        invariant whole.Some? ==> old(b) + whole.value == b + PackHash(entries, i, arraySize, depth).value
      {
        if InArray(entries[i].key, arraySize) {
          continue;
        }
        ghost var was := b;
        var packed := PackOne(entries[i].key, depth);
        if packed {
          packed := PackOne(entries[i].value, depth);
        }
        if !packed {
          return false;
        }
        if whole.Some? {
          ghost var key, value := Pack(entries[i].key, depth).value, Pack(entries[i].value, depth).value;
          ghost var rest := PackHash(entries, i + 1, arraySize, depth).value;
          assert was + (key + value + rest) == b + rest;
        }
      }
      WbNil();
      ok := true;
    }

    /** Append one value, or report what cannot be packed: something unsupported, or too deep. */
    method PackOne(v: Value, depth: nat) returns (ok: bool)
      modifies this
      ensures ok <==> Pack(v, depth).Some?
      ensures ok ==> b == old(b) + Pack(v, depth).value
      ensures depth > 32 || v.Other? ==> !ok
      ensures v.Nil? && depth <= 32 ==> ok && b == old(b) + [0]
      ensures v.Scalar? && depth <= 32 ==> ok && b == old(b) + AtomBytes(v.atom)
      ensures ok && v.Table? && v.rawlen < 31 ==> old(b) + [6 + 8 * v.rawlen] <= b
      decreases 33 - depth, 0
    {
      hide AtomBytes, PackArray, PackHash, TableHead, CombineType;
      if depth > MAX_DEPTH {
        return false;
      }
      match v {
        case Nil =>
          WbNil();
          ok := true;
        case Scalar(a) =>
          WbAtom(a);
          ok := true;
        case Other =>
          ok := false;
        case Table(rawlen, entries) =>
          var arraySize;
          ok, arraySize := WbTableArray(rawlen, entries, depth + 1);
          if ok {
            ok := WbTableHash(entries, depth + 1, arraySize);
          }
          if ok {
            ghost var head, slots := TableHead(arraySize), PackArray(entries, 1, arraySize, depth + 1).value;
            ghost var pairs := PackHash(entries, 0, arraySize, depth + 1).value;
            if rawlen < 31 {
              TableWire(rawlen);
              assert b == old(b) + [6 + 8 * rawlen] + slots + pairs + [CombineType(TYPE_NIL, 0)];
            }
            assert old(b) + head + slots + pairs + [CombineType(TYPE_NIL, 0)]
                == old(b) + (head + slots + pairs + [CombineType(TYPE_NIL, 0)]);
          }
      }
    }
  }

  /** What a read leaves behind: the value the format defines, the block right behind it. */
  ghost predicate Stepped<T>(step: Step<T>, r: Option<T>, ptr: nat) {
    && (r.Some? <==> step.Read?)
    && (r.Some? ==> r.value == step.value && ptr == step.at)
  }

  /** What is left of a message. */
  class ReadBlock {
    const buffer: seq<Byte>
    var len: int
    var ptr: nat

    ghost predicate Valid()
      reads this
    {
      ptr + len == |buffer| && len >= 0
    }

    constructor (bytes: seq<Byte>)
      ensures Valid() && buffer == bytes && ptr == 0
    {
      buffer, len, ptr := bytes, |bytes|, 0;
    }

    method RbRead(sz: nat) returns (r: Option<seq<Byte>>)
      requires Valid()
      modifies this
      ensures Valid() && Stepped(GetBytes(buffer, old(ptr), sz), r, ptr)
    {
      if len < sz {
        return None;
      }
      r := Some(buffer[ptr..ptr + sz]);
      ptr := ptr + sz;
      len := len - sz;
    }

    method ReadInteger(cookie: nat) returns (r: Option<Int64>)
      requires Valid()
      modifies this
      ensures Valid() && Stepped(GetInteger(buffer, old(ptr), cookie), r, ptr)
    {
      hide FromLittleEndian, Int64Of;
      if cookie == NUMBER_ZERO {
        return Some(0);
      }
      if cookie !in {NUMBER_BYTE, NUMBER_WORD, NUMBER_DWORD, NUMBER_QWORD} {
        return None;
      }
      var bytes := RbRead(if cookie == NUMBER_QWORD then 8 else cookie);
      if bytes.None? {
        return None;
      }
      var n := FromLittleEndian(bytes.value);
      r := Some(if cookie == NUMBER_DWORD then Int32(n) else Int64Of(n));
    }

    method ReadWord(isReal: bool) returns (r: Option<Data>)
      requires Valid()
      modifies this
      ensures Valid() && Stepped(GetWord(buffer, old(ptr), isReal), r, ptr)
    {
      var bytes := RbRead(8);
      if bytes.None? {
        return None;
      }
      r := Some(Leaf(if isReal then Real(bytes.value) else Pointer(bytes.value)));
    }

    method ReadBuffer(n: nat) returns (r: Option<Data>)
      requires Valid()
      modifies this
      ensures Valid() && Stepped(GetBuffer(buffer, old(ptr), n), r, ptr)
    {
      if n >= 0x8000_0000 {
        return None;
      }
      var bytes := RbRead(n);
      if bytes.None? {
        return None;
      }
      r := Some(Leaf(Str(bytes.value)));
    }

    method ReadLongString(cookie: nat) returns (r: Option<Data>)
      requires Valid()
      modifies this
      ensures Valid() && Stepped(GetLongString(buffer, old(ptr), cookie), r, ptr)
    {
      hide FromLittleEndian, GetBuffer;
      if cookie !in {2, 4} {
        return None;
      }
      var bytes := RbRead(cookie);
      if bytes.None? {
        return None;
      }
      r := ReadBuffer(FromLittleEndian(bytes.value));
    }

    method ReadArraySize(cookie: nat) returns (r: Option<int>)
      requires Valid() && cookie < MAX_COOKIE
      modifies this
      ensures Valid() && Stepped(GetArraySize(buffer, old(ptr), cookie), r, ptr)
    {
      hide GetInteger;
      if cookie != MAX_COOKIE - 1 {
        return Some(cookie);
      }
      var head := RbRead(1);
      if head.None? || head.value[0] % 8 != TYPE_NUMBER || head.value[0] / 8 == NUMBER_REAL {
        return None;
      }
      var n := ReadInteger(head.value[0] / 8);
      if n.None? {
        return None;
      }
      r := Some(Int32(n.value));
    }

    /** The next value, or None if the bytes are not one. It takes at least one byte. */
    method UnpackValue() returns (r: Option<Data>)
      requires Valid()
      modifies this
      ensures Valid() && Stepped(UnpackOne(buffer, old(ptr)), r, ptr)
      ensures r.Some? ==> len < old(len)
      decreases len, 0
    {
      hide PushValue;
      var head := RbRead(1);
      if head.None? {
        return None;
      }
      r := ReadValue(head.value[0] % 8, head.value[0] / 8);
    }

    method ReadValue(kind: nat, cookie: nat) returns (r: Option<Data>)
      requires Valid() && cookie < MAX_COOKIE
      modifies this
      ensures Valid() && Stepped(PushValue(buffer, old(ptr), kind, cookie), r, ptr)
      decreases len, 3
    {
      hide GetWord, GetInteger, GetBuffer, GetLongString, UnpackTable;
      if kind == TYPE_NIL {
        r := Some(Absent);
      } else if kind == TYPE_BOOLEAN {
        r := Some(Leaf(Boolean(cookie != 0)));
      } else if kind == TYPE_NUMBER {
        if cookie == NUMBER_REAL {
          r := ReadWord(true);
        } else {
          var n := ReadInteger(cookie);
          r := if n.Some? then Some(Leaf(Integer(n.value))) else None;
        }
      } else if kind == TYPE_USERDATA {
        r := ReadWord(false);
      } else if kind == TYPE_SHORT_STRING {
        r := ReadBuffer(cookie);
      } else if kind == TYPE_LONG_STRING {
        r := ReadLongString(cookie);
      } else if kind == TYPE_TABLE {
        r := ReadTable(cookie);
      } else {
        r := None;
      }
    }

    method ReadTable(cookie: nat) returns (r: Option<Data>)
      requires Valid() && cookie < MAX_COOKIE
      modifies this
      ensures Valid() && Stepped(UnpackTable(buffer, old(ptr), cookie), r, ptr)
      decreases len, 2
    {
      hide UnpackArray, UnpackHash, GetArraySize;
      var size := ReadArraySize(cookie);
      if size.None? {
        return None;
      }
      r := ReadSlots(size.value);
      if r.None? {
        return None;
      }
      r := ReadPairs(r.value);
    }

    method ReadSlots(size: int) returns (r: Option<Data>)
      requires Valid() && size < 0x8000_0000
      modifies this
      ensures Valid() && Stepped(UnpackArray(buffer, old(ptr), 1, size, Fields(map[], [])), r, ptr)
      decreases len, 1
    {
      hide UnpackOne;
      ghost var whole := UnpackArray(buffer, ptr, 1, size, Fields(map[], []));
      var t: Data := Fields(map[], []);
      var i := 1;
      while i <= size
        invariant Valid() && 1 <= i && t.Fields? && old(ptr) <= ptr
        invariant UnpackArray(buffer, ptr, i, size, t) == whole
        decreases size - i
      {
        var v := UnpackValue();
        if v.None? {
          return None;
        }
        t := RawSet(t, Leaf(Integer(i)), v.value).value;
        i := i + 1;
      }
      r := Some(t);
    }

    method ReadPairs(slots: Data) returns (r: Option<Data>)
      requires Valid() && slots.Fields?
      modifies this
      ensures Valid() && Stepped(UnpackHash(buffer, old(ptr), slots), r, ptr)
      decreases len, 1
    {
      hide UnpackOne;
      ghost var whole := UnpackHash(buffer, ptr, slots);
      var t := slots;
      while true
        invariant Valid() && t.Fields? && old(ptr) <= ptr
        invariant UnpackHash(buffer, ptr, t) == whole
        decreases len
      {
        var key := UnpackValue();
        if key.None? {
          return None;
        }
        if key.value == Absent {
          return Some(t);
        }
        var v := UnpackValue();
        if v.None? {
          return None;
        }
        var next := RawSet(t, key.value, v.value);
        if next.None? {
          return None;
        }
        t := next.value;
      }
    }
  }

  /** All the values given, as one byte string. */
  method Serialize(vs: seq<Value>) returns (r: Option<seq<Byte>>)
    ensures r == PackAll(vs, 0)
  {
    hide Pack;
    var block := new WriteBlock();
    ghost var whole := PackAll(vs, 0);
    for i := 0 to |vs|
      invariant fresh(block)
      invariant whole.Some? <==> PackAll(vs, i).Some?
      invariant whole.Some? ==> whole.value == block.b + PackAll(vs, i).value
    {
      ghost var was := block.b;
      var packed := block.PackOne(vs[i], 0);
      if !packed {
        return None;
      }
      if whole.Some? {
        assert was + (Pack(vs[i], 0).value + PackAll(vs, i + 1).value) == block.b + PackAll(vs, i + 1).value;
      }
    }
    assert PackAll(vs, |vs|) == Some([]) && block.b + [] == block.b;
    r := Some(block.b);
  }

  /** All the values in the first len bytes; it stops for every byte string. */
  method UnpackBuffer(buffer: seq<Byte>, len: int) returns (r: Option<seq<Data>>)
    requires len <= |buffer|
    ensures r == Unserialize(buffer, len)
  {
    hide UnpackOne;
    if len <= 0 {
      return Some([]);
    }
    var block := new ReadBlock(buffer[..len]);
    ghost var whole := UnpackAll(block.buffer, 0);
    var values: seq<Data> := [];
    while block.len > 0
      invariant block.Valid() && fresh(block)
      invariant whole.Some? <==> UnpackAll(block.buffer, block.ptr).Some?
      invariant whole.Some? ==> whole.value == values + UnpackAll(block.buffer, block.ptr).value
      decreases block.len
    {
      var v := block.UnpackValue();
      if v.None? {
        return None;
      }
      if whole.Some? {
        ghost var rest := UnpackAll(block.buffer, block.ptr).value;
        assert values + ([v.value] + rest) == values + [v.value] + rest;
      }
      values := values + [v.value];
    }
    assert UnpackAll(block.buffer, block.ptr) == Some([]) && values + [] == values;
    r := Some(values);
  }

  method PackStringOf(vs: seq<Value>) returns (r: Option<seq<Byte>>)
    ensures r.Some? <==> PackAll(vs, 0).Some?
    ensures r.Some? ==> r.value == WithLength(PackAll(vs, 0).value)
    ensures r.Some? ==>
              var bytes := PackAll(vs, 0).value;
              var n := |bytes| % 0x1_0000_0000;
              r.value == [n / 0x100_0000, n / 0x1_0000 % 0x100, n / 0x100 % 0x100, n % 0x100] + bytes
  {
    hide PackAll;
    r := Serialize(vs);
    if r.Some? {
      r := Some(WithLength(r.value));
    }
  }

  method UnpackStringOf(s: seq<Byte>) returns (r: Option<seq<Data>>)
    ensures r == UnpackString(s)
  {
    hide Unserialize, LengthAhead;
    if |s| < 4 {
      return None;
    }
    var len := LengthAhead(s);
    if |s| < (4 + len) % 0x1_0000_0000 {
      return None;
    }
    r := UnpackBuffer(s[4..], Int32(len));
  }
}
