/**
 The serialised form byte by byte, as another implementation of the format has to know it, and that an
 integer has no shorter form than the one it is given.
 */
module SeriWire {
  import opened LuaValue
  import opened SeriFormat
  import opened SeriDecode

  // ----- numbers in the machine's byte order -----

  lemma Bytes2(n: nat)
    ensures LittleEndian(n, 2) == [n % 0x100, n / 0x100 % 0x100]
  {
    assert LittleEndian(n / 0x100, 1) == [n / 0x100 % 0x100] + LittleEndian(n / 0x100 / 0x100, 0);
  }

  lemma Bytes4(n: nat)
    ensures LittleEndian(n, 4)
            == [n % 0x100, n / 0x100 % 0x100, n / 0x1_0000 % 0x100, n / 0x100_0000 % 0x100]
  {
    Bytes2(n / 0x1_0000);
    assert n / 0x100 / 0x100 == n / 0x1_0000 && n / 0x1_0000 / 0x100 == n / 0x100_0000;
    assert LittleEndian(n, 4) == [n % 0x100] + LittleEndian(n / 0x100, 3);
    assert LittleEndian(n / 0x100, 3) == [n / 0x100 % 0x100] + LittleEndian(n / 0x1_0000, 2);
  }

  lemma Bytes8(n: nat)
    ensures LittleEndian(n, 8)
            == [n % 0x100, n / 0x100 % 0x100, n / 0x1_0000 % 0x100, n / 0x100_0000 % 0x100,
                n / 0x1_0000_0000 % 0x100, n / 0x100_0000_0000 % 0x100, n / 0x1_0000_0000_0000 % 0x100,
                n / 0x100_0000_0000_0000 % 0x100]
  {
    var high := n / 0x1_0000_0000;
    Bytes4(high);
    Bytes4(n);
    LowAndHigh(n);
    assert high / 0x100 == n / 0x100_0000_0000 && high / 0x1_0000 == n / 0x1_0000_0000_0000;
    assert high / 0x100_0000 == n / 0x100_0000_0000_0000;
  }

  lemma LowAndHigh(n: nat)
    ensures LittleEndian(n, 8) == LittleEndian(n, 4) + LittleEndian(n / 0x1_0000_0000, 4)
  {
    var a, b, c, d := n / 0x100, n / 0x1_0000, n / 0x100_0000, n / 0x1_0000_0000;
    Quotients(n);
    FrontByte(n, 8);
    FrontByte(a, 7);
    FrontByte(b, 6);
    FrontByte(c, 5);
    Bytes4(n);
    hide LittleEndian;
  }

  lemma FrontByte(n: nat, width: nat)
    requires width > 0
    ensures LittleEndian(n, width) == [n % 0x100] + LittleEndian(n / 0x100, width - 1)
  {
  }

  lemma Quotients(n: nat)
    ensures n / 0x100 / 0x100 == n / 0x1_0000 && n / 0x1_0000 / 0x100 == n / 0x100_0000
    ensures n / 0x100_0000 / 0x100 == n / 0x1_0000_0000
  {
  }

  lemma TopByte(n: nat)
    ensures n < 0x1_0000 ==> n / 0x100 % 0x100 == n / 0x100
    ensures n < 0x1_0000_0000 ==> n / 0x100_0000 % 0x100 == n / 0x100_0000
    ensures n < 0x1_0000_0000_0000_0000 ==> n / 0x100_0000_0000_0000 % 0x100 == n / 0x100_0000_0000_0000
  {
  }

  lemma NothingCutOff(n: nat)
    ensures n < 0x1_0000 ==> n % 0x1_0000 == n
    ensures n < 0x1_0000_0000 ==> n % 0x1_0000_0000 == n
  {
  }

  // ----- values -----

  /** Every integer, in each of its ranges; a negative one in two's complement. */
  lemma IntegerWire(n: Int64)
    ensures n == 0 ==> IntegerBytes(n) == [2]
    ensures 0 < n < 0x100 ==> IntegerBytes(n) == [10, n]
    ensures 0x100 <= n < 0x1_0000 ==> IntegerBytes(n) == [18, n % 0x100, n / 0x100]
    ensures -0x8000_0000 <= n < 0 || 0x1_0000 <= n < 0x8000_0000 ==>
              var m := n % 0x1_0000_0000;
              IntegerBytes(n) == [34, m % 0x100, m / 0x100 % 0x100, m / 0x1_0000 % 0x100, m / 0x100_0000]
    ensures n < -0x8000_0000 || n >= 0x8000_0000 ==>
              var m := n % 0x1_0000_0000_0000_0000;
              IntegerBytes(n)
              == [50, m % 0x100, m / 0x100 % 0x100, m / 0x1_0000 % 0x100, m / 0x100_0000 % 0x100,
                  m / 0x1_0000_0000 % 0x100, m / 0x100_0000_0000 % 0x100, m / 0x1_0000_0000_0000 % 0x100,
                  m / 0x100_0000_0000_0000]
  {
    hide IntegerBytes;
    if n < -0x8000_0000 || n >= 0x8000_0000 {
      LongIntegerWire(n);
    } else if n < 0 || n >= 0x1_0000 {
      IntIntegerWire(n);
    } else {
      ShortIntegerWire(n);
    }
  }

  lemma ShortIntegerWire(n: Int64)
    requires 0 <= n < 0x1_0000
    ensures IntegerBytes(n)
            == if n == 0 then [2] else if n < 0x100 then [10, n] else [18, n % 0x100, n / 0x100]
  {
    hide LittleEndian, Unsigned16, Unsigned32, Unsigned64, Int32, CombineType;
    NumberHeads();
    Length(n);
    LengthIn2(n);
  }

  lemma NumberHeads()
    ensures CombineType(TYPE_NUMBER, NUMBER_ZERO) == 2 && CombineType(TYPE_NUMBER, NUMBER_BYTE) == 10
    ensures CombineType(TYPE_NUMBER, NUMBER_WORD) == 18
  {
  }

  lemma IntIntegerWire(n: Int64)
    requires -0x8000_0000 <= n < 0 || 0x1_0000 <= n < 0x8000_0000
    ensures var m := n % 0x1_0000_0000;
            IntegerBytes(n) == [34, m % 0x100, m / 0x100 % 0x100, m / 0x1_0000 % 0x100, m / 0x100_0000]
  {
    hide LittleEndian;
    Bytes4(n % 0x1_0000_0000);
    TopByte(n % 0x1_0000_0000);
    assert IntegerBytes(n) == [34] + LittleEndian(n % 0x1_0000_0000, 4);
  }

  lemma LongIntegerWire(n: Int64)
    requires n < -0x8000_0000 || n >= 0x8000_0000
    ensures var m := n % 0x1_0000_0000_0000_0000;
            IntegerBytes(n)
            == [50, m % 0x100, m / 0x100 % 0x100, m / 0x1_0000 % 0x100, m / 0x100_0000 % 0x100,
                m / 0x1_0000_0000 % 0x100, m / 0x100_0000_0000 % 0x100, m / 0x1_0000_0000_0000 % 0x100,
                m / 0x100_0000_0000_0000]
  {
    LongHead(n);
    hide LittleEndian, IntegerBytes;
    Bytes8(n % 0x1_0000_0000_0000_0000);
    TopByte(n % 0x1_0000_0000_0000_0000);
  }

  lemma LongHead(n: Int64)
    requires n < -0x8000_0000 || n >= 0x8000_0000
    ensures IntegerBytes(n) == [50] + LittleEndian(n % 0x1_0000_0000_0000_0000, 8)
  {
    hide LittleEndian;
  }

  lemma StringWire(s: seq<Byte>)
    ensures |s| < 32 ==> StringBytes(s) == [4 + 8 * |s|] + s
    ensures 32 <= |s| < 0x1_0000 ==> StringBytes(s) == [21, |s| % 0x100, |s| / 0x100] + s
    ensures 0x1_0000 <= |s| < 0x8000_0000 ==>
              StringBytes(s)
              == [37, |s| % 0x100, |s| / 0x100 % 0x100, |s| / 0x1_0000 % 0x100, |s| / 0x100_0000] + s
  {
    hide StringBytes;
    if |s| < 32 {
      ShortStringWire(s);
    } else if |s| < 0x1_0000 {
      LongStringWire(s);
      LengthIn2(|s|);
    } else if |s| < 0x8000_0000 {
      LongStringWire(s);
      LengthIn4(|s|);
    }
  }

  lemma LengthIn2(n: nat)
    requires n < 0x1_0000
    ensures LittleEndian(n, 2) == [n % 0x100, n / 0x100]
  {
    hide LittleEndian;
    Bytes2(n);
    TopByte(n);
  }

  lemma LengthIn4(n: nat)
    requires n < 0x8000_0000
    ensures LittleEndian(n, 4) == [n % 0x100, n / 0x100 % 0x100, n / 0x1_0000 % 0x100, n / 0x100_0000]
  {
    hide LittleEndian;
    Bytes4(n);
    TopByte(n);
  }

  lemma ShortStringWire(s: seq<Byte>)
    requires |s| < 32
    ensures StringBytes(s) == [4 + 8 * |s|] + s
  {
    hide CombineType, Int32, Unsigned16, Unsigned32;
    StringHeads(|s|);
    Length(|s|);
    assert s[..|s|] == s;
  }

  lemma StringHeads(n: nat)
    ensures n < 32 ==> CombineType(TYPE_SHORT_STRING, n) == 4 + 8 * n
    ensures CombineType(TYPE_LONG_STRING, 2) == 21 && CombineType(TYPE_LONG_STRING, 4) == 37
  {
  }

  lemma Length(n: nat)
    requires n < 0x8000_0000
    ensures Int32(n) == n && Unsigned32(n) == LittleEndian(n, 4)
    ensures n < 0x1_0000 ==> Unsigned16(n) == LittleEndian(n, 2)
  {
    NothingCutOff(n);
    hide LittleEndian, Int32;
  }

  lemma LongStringWire(s: seq<Byte>)
    requires 32 <= |s| < 0x8000_0000
    ensures |s| < 0x1_0000 ==> StringBytes(s) == [21] + LittleEndian(|s|, 2) + s
    ensures |s| >= 0x1_0000 ==> StringBytes(s) == [37] + LittleEndian(|s|, 4) + s
  {
    hide LittleEndian, CombineType, Int32, Unsigned16, Unsigned32;
    StringHeads(|s|);
    Length(|s|);
    assert s[..|s|] == s;
  }

  lemma BooleanWire(v: bool)
    ensures AtomBytes(Boolean(v)) == [if v then 9 else 1]
  {
  }

  lemma AtomWire(bits: Word)
    ensures AtomBytes(Boolean(false)) == [1] && AtomBytes(Boolean(true)) == [9]
    ensures AtomBytes(Real(bits)) == [66] + bits && AtomBytes(Pointer(bits)) == [3] + bits
  {
  }

  /** A table starts with its border, in the head byte up to 30. */
  lemma TableWire(size: int)
    requires 0 <= size < 0x8000_0000
    ensures size < 31 ==> TableHead(size) == [6 + 8 * size]
    ensures size >= 31 ==> TableHead(size) == [254] + IntegerBytes(size)
  {
    hide IntegerBytes;
  }

  /** Tables go up to 32 deep. */
  function Nested(levels: nat): Value {
    if levels == 0 then Scalar(Boolean(true)) else Table(1, [Entry(Scalar(Integer(1)), Nested(levels - 1))])
  }

  lemma {:induction false} DepthLimit(levels: nat, depth: nat)
    ensures Pack(Nested(levels), depth).Some? <==> levels + depth <= 32
    decreases levels
  {
    if depth <= 32 && levels > 0 {
      DepthLimit(levels - 1, depth + 1);
      OneSlot(Nested(levels - 1), depth);
    }
  }

  lemma OneSlot(v: Value, depth: nat)
    requires depth <= 32
    ensures Pack(Table(1, [Entry(Scalar(Integer(1)), v)]), depth).Some? <==> Pack(v, depth + 1).Some?
  {
    var entries := [Entry(Scalar(Integer(1)), v)];
    assert Get(entries, 1) == v;
    assert PackArray(entries, 2, 1, depth + 1) == Some([]);
    assert PackHash(entries, 1, 1, depth + 1) == Some([]);
    hide TableHead, Get;
  }

  // ----- no integer has a shorter form -----

  lemma {:induction false} Small(s: seq<Byte>)
    ensures FromLittleEndian(s) < Pow256(|s|)
  {
    if s != [] {
      Small(s[1..]);
    }
  }

  lemma FirstPowers()
    ensures Pow256(1) == 0x100 && Pow256(2) == 0x1_0000
  {
  }

  /** What a field of that width can hold. */
  lemma Holds(s: seq<Byte>, p: nat, cookie: nat, n: Int64, at: nat)
    requires p <= |s| && GetInteger(s, p, cookie) == Read(n, at)
    ensures at == p ==> n == 0
    ensures at == p + 1 ==> 0 <= n < 0x100
    ensures at == p + 2 ==> 0 <= n < 0x1_0000
    ensures at == p + 4 ==> -0x8000_0000 <= n < 0x8000_0000
    ensures at - p in {0, 1, 2, 4, 8}
  {
    hide FromLittleEndian, Pow256;
    if cookie in {NUMBER_BYTE, NUMBER_WORD} {
      Small(GetBytes(s, p, cookie).value);
      FirstPowers();
    }
  }

  /** Whatever bytes decode to the integer are at least as many as those it is encoded in. */
  lemma NoShorterForm(n: Int64, s: seq<Byte>, p: nat, at: nat)
    requires p <= |s| && UnpackOne(s, p) == Read(Leaf(Integer(n)), at)
    ensures at - p >= |IntegerBytes(n)|
  {
    hide GetInteger, UnpackTable;
    IntegerWire(n);
    hide IntegerBytes;
    Holds(s, p + 1, s[p] / 8, n, at);
  }
}
