/**
 Lua values as the C API shows them, and what they mean.

 A table is what its caller can observe through the API: the border that lua_rawlen reports and the
 entries in the order in which lua_next delivers them. Neither is determined by the contents.
 */
module LuaValue {

  type Byte = b: int | 0 <= b < 0x100

  type Int64 = n: int | -0x8000_0000_0000_0000 <= n < 0x8000_0000_0000_0000

  /** A double or a pointer as it lies in memory, least significant byte first. */
  type Word = w: seq<Byte> | |w| == 8 witness [0, 0, 0, 0, 0, 0, 0, 0]

  datatype Option<T> = None | Some(value: T)

  datatype Atom = Boolean(b: bool) | Integer(n: Int64) | Real(bits: Word) | Pointer(addr: Word) | Str(s: seq<Byte>)

  /** Other stands for functions, threads and full userdata. */
  datatype Value = Nil | Scalar(atom: Atom) | Table(rawlen: nat, entries: seq<Entry>) | Other

  datatype Entry = Entry(key: Value, value: Value)

  /** What a value means: a table is a map, plus the pairs whose keys are themselves tables, each such
      key being an object of its own. */
  datatype Data = Absent | Leaf(atom: Atom) | Fields(fields: map<Atom, Data>, keyed: seq<(Data, Data)>)

  ghost function Content(v: Value): Data
    decreases v, 1, 0
  {
    match v
    case Nil => Absent
    case Scalar(a) => Leaf(a)
    case Table(_, entries) => Fields(FieldsOf(v, |entries|), KeyedOf(v, |entries|))
    case Other => Absent
  }

  /** The fields that the first n entries make. */
  ghost function FieldsOf(t: Value, n: nat): map<Atom, Data>
    requires t.Table? && n <= |t.entries|
    decreases t, 0, n
  {
    if n == 0 then map[]
    else if t.entries[n - 1].key.Scalar? then
      FieldsOf(t, n - 1)[t.entries[n - 1].key.atom := Content(t.entries[n - 1].value)]
    else FieldsOf(t, n - 1)
  }

  ghost function KeyedOf(t: Value, n: nat): seq<(Data, Data)>
    requires t.Table? && n <= |t.entries|
    decreases t, 0, n
  {
    if n == 0 then []
    else if t.entries[n - 1].key.Table? then
      KeyedOf(t, n - 1) + [(Content(t.entries[n - 1].key), Content(t.entries[n - 1].value))]
    else KeyedOf(t, n - 1)
  }

  ghost predicate WellFormed(v: Value) {
    v.Table? ==>
      && (forall i | 0 <= i < |v.entries| :: WellFormed(v.entries[i].key) && WellFormed(v.entries[i].value))
      && ProperEntries(v.entries)
  }

  /** Keys are not nil and not NaN, floats with an integer value are stored as that integer, no key
      occurs twice, and no value is nil. */
  ghost predicate ProperEntries(entries: seq<Entry>) {
    && (forall i | 0 <= i < |entries| ::
          && entries[i].value != Nil && entries[i].key != Nil
          && (entries[i].key.Scalar? ==> KeyOf(entries[i].key.atom) == Some(entries[i].key.atom)))
    && (forall i, j | 0 <= i < j < |entries| && entries[i].key.Scalar? :: entries[i].key != entries[j].key)
  }

  /** The number whose bytes are s, least significant first. */
  function FromLittleEndian(s: seq<Byte>): nat {
    if s == [] then 0 else s[0] as nat + 0x100 * FromLittleEndian(s[1..])
  }

  function Pow2(k: nat): (p: nat)
    ensures p > 0
  {
    if k == 0 then 1 else 2 * Pow2(k - 1)
  }

  /** The key under which the table files a scalar; NaN is refused. */
  function KeyOf(a: Atom): Option<Atom> {
    if a.Real? then RealKey(a.bits) else Some(a)
  }

  /** IEEE 754 binary64: sign, 11 bits of exponent, 52 of fraction. */
  function RealKey(w: Word): Option<Atom> {
    var high: int, next: int := w[7], w[6];
    var exponent := high % 128 * 16 + next / 16;
    var fraction := FromLittleEndian(w[..6]) + 0x1_0000_0000_0000 * (next % 16);
    if exponent == 2047 then
      if fraction == 0 then Some(Real(w)) else None
    else if exponent == 0 then
      if fraction == 0 then Some(Integer(0)) else Some(Real(w))
    else
      var mantissa := Pow2(52) + fraction;
      var whole :=
        if exponent >= 1075 then Some(mantissa * Pow2(exponent - 1075))
        else if mantissa % Pow2(1075 - exponent) == 0 then Some(mantissa / Pow2(1075 - exponent))
        else None;
      if whole.None? then Some(Real(w))
      else
        var n := if w[7] >= 128 then -whole.value else whole.value;
        if -0x8000_0000_0000_0000 <= n < 0x8000_0000_0000_0000 then Some(Integer(n)) else Some(Real(w))
  }

  /** A double whose low six bytes are 0. */
  function Double(next: Byte, high: Byte): Word {
    [0, 0, 0, 0, 0, 0, next, high]
  }

  lemma LowBytes(next: Byte, high: Byte)
    ensures FromLittleEndian(Double(next, high)[..6]) == 0
  {
    assert Double(next, high)[..6] == [0, 0, 0, 0, 0, 0];
    assert FromLittleEndian([0, 0, 0]) == 0;
    assert [0, 0, 0, 0, 0, 0][1..] == [0, 0, 0, 0, 0] && [0, 0, 0, 0, 0][1..] == [0, 0, 0, 0];
    assert [0, 0, 0, 0][1..] == [0, 0, 0];
  }

  lemma Powers()
    ensures Pow2(52) == 0x10_0000_0000_0000 && Pow2(53) == 0x20_0000_0000_0000
  {
    assert Pow2(8) == 0x100;
    assert Pow2(16) == 0x1_0000;
    assert Pow2(24) == 0x100_0000;
    assert Pow2(32) == 0x1_0000_0000;
    assert Pow2(40) == 0x100_0000_0000;
    assert Pow2(48) == 0x1_0000_0000_0000;
    assert Pow2(52) == 0x10_0000_0000_0000;
  }

  lemma WholeDoubles()
    ensures RealKey(Double(0xF0, 0x3F)) == Some(Integer(1)) && RealKey(Double(0xF0, 0xBF)) == Some(Integer(-1))
  {
    hide FromLittleEndian, Pow2;
    LowBytes(0xF0, 0x3F);
    LowBytes(0xF0, 0xBF);
    Powers();
  }

  lemma OneHalf()
    ensures RealKey(Double(0xE0, 0x3F)) == Some(Real(Double(0xE0, 0x3F)))
  {
    hide FromLittleEndian, Pow2;
    LowBytes(0xE0, 0x3F);
    Powers();
  }

  /** 1.0, -1.0 and -0.0 are filed under the integers 1, -1 and 0, one half and infinity under themselves, and
      NaN is no key. */
  lemma DoubleKeys()
    ensures RealKey(Double(0xF0, 0x3F)) == Some(Integer(1)) && RealKey(Double(0xF0, 0xBF)) == Some(Integer(-1))
    ensures RealKey(Double(0, 0x80)) == Some(Integer(0))
    ensures RealKey(Double(0xE0, 0x3F)) == Some(Real(Double(0xE0, 0x3F)))
    ensures RealKey(Double(0xF0, 0x7F)) == Some(Real(Double(0xF0, 0x7F)))
    ensures RealKey(Double(0xF8, 0x7F)) == None
  {
    hide FromLittleEndian, Pow2;
    WholeDoubles();
    OneHalf();
    LowBytes(0, 0x80);
    LowBytes(0xF0, 0x7F);
    LowBytes(0xF8, 0x7F);
  }

  /** lua_rawset on a table under construction; a nil value clears the field. */
  function RawSet(t: Data, key: Data, value: Data): (r: Option<Data>)
    requires t.Fields?
    ensures r.Some? ==> r.value.Fields?
  {
    match key
    case Absent => None
    case Leaf(a) =>
      (match KeyOf(a)
       case None => None
       case Some(k) => Some(if value == Absent then t.(fields := t.fields - {k})
                            else t.(fields := t.fields[k := value])))
    case Fields(_, _) => Some(if value == Absent then t else t.(keyed := t.keyed + [(key, value)]))
  }

  /** lua_rawgeti. */
  function Get(entries: seq<Entry>, n: int): Value {
    if entries == [] then Nil
    else
      var e := entries[|entries| - 1];
      if e.key.Scalar? && e.key.atom.Integer? && e.key.atom.n == n then e.value else Get(entries[..|entries| - 1], n)
  }

  /** Each entry with a scalar key is a field. */
  lemma {:induction false} FieldOfEntry(t: Value, n: nat, i: nat)
    requires t.Table? && ProperEntries(t.entries) && i < n <= |t.entries| && t.entries[i].key.Scalar?
    ensures t.entries[i].key.atom in FieldsOf(t, n)
    ensures FieldsOf(t, n)[t.entries[i].key.atom] == Content(t.entries[i].value)
  {
    if i < n - 1 {
      FieldOfEntry(t, n - 1, i);
      assert t.entries[i].key != t.entries[n - 1].key;
    }
  }

  /** And there are no others. */
  lemma {:induction false} EntryOfField(t: Value, n: nat, k: Atom) returns (i: nat)
    requires t.Table? && n <= |t.entries| && k in FieldsOf(t, n)
    ensures i < n && t.entries[i].key == Scalar(k)
  {
    if t.entries[n - 1].key == Scalar(k) {
      i := n - 1;
    } else {
      i := EntryOfField(t, n - 1, k);
    }
  }

  /** The entries whose keys are tables come one behind the other, each as a pair of its own. */
  lemma {:induction false} KeyedInOrder(t: Value, n: nat, i: nat)
    requires t.Table? && i < n <= |t.entries|
    ensures |KeyedOf(t, i + 1)| == |KeyedOf(t, i)| + if t.entries[i].key.Table? then 1 else 0
    ensures KeyedOf(t, i + 1) <= KeyedOf(t, n)
    ensures t.entries[i].key.Table? ==>
              KeyedOf(t, n)[|KeyedOf(t, i)|] == (Content(t.entries[i].key), Content(t.entries[i].value))
    decreases n
  {
    if i < n - 1 {
      KeyedInOrder(t, n - 1, i);
    }
  }

  lemma {:induction false} GetFindsEntry(entries: seq<Entry>, n: int)
    ensures Get(entries, n) != Nil ==>
              exists i | 0 <= i < |entries| ::
                && entries[i].key.Scalar? && entries[i].key.atom.Integer? && entries[i].key.atom.n == n
                && entries[i].value == Get(entries, n)
    ensures forall i | 0 <= i < |entries| && ProperEntries(entries) ::
              (entries[i].key.Scalar? && entries[i].key.atom.Integer? && entries[i].key.atom.n == n
               ==> Get(entries, n) == entries[i].value)
  {
    if entries != [] {
      GetFindsEntry(entries[..|entries| - 1], n);
      var last, rest := |entries| - 1, entries[..|entries| - 1];
      assert ProperEntries(entries) ==> ProperEntries(rest);
      if Get(entries, n) != Nil && Get(rest, n) == Get(entries, n) {
        var i :| 0 <= i < |rest| && rest[i].key.Scalar? && rest[i].key.atom.Integer? && rest[i].key.atom.n == n
                 && rest[i].value == Get(rest, n);
        assert entries[i] == rest[i];
      }
      forall i | 0 <= i < |entries| && ProperEntries(entries) && entries[i].key.Scalar? && entries[i].key.atom.Integer?
                 && entries[i].key.atom.n == n
        ensures Get(entries, n) == entries[i].value
      {
        if i < last {
          assert rest[i] == entries[i] && entries[i].key != entries[last].key;
        }
      }
    }
  }

  /** lua_rawgeti reads the map. */
  lemma GetIsField(t: Value, n: Int64)
    requires t.Table? && ProperEntries(t.entries)
    ensures Get(t.entries, n) == Nil <==> Integer(n) !in FieldsOf(t, |t.entries|)
    ensures Get(t.entries, n) != Nil ==> FieldsOf(t, |t.entries|)[Integer(n)] == Content(Get(t.entries, n))
  {
    GetFindsEntry(t.entries, n);
    if Get(t.entries, n) != Nil {
      var i :| 0 <= i < |t.entries| && t.entries[i].key == Scalar(Integer(n))
        && t.entries[i].value == Get(t.entries, n);
      FieldOfEntry(t, |t.entries|, i);
    } else if Integer(n) in FieldsOf(t, |t.entries|) {
      var i := EntryOfField(t, |t.entries|, Integer(n));
    }
  }
}
