/**
 When the deep copy of a packed table ends: push_table with a bound on the number of rounds and of
 nested calls that are left, which it must never run into.
 */
module SharedCopy {
  import opened LuaValue
  import opened SharedTable
  import opened SharedLookup
  import opened SharedIteration
  import opened SharedData

  const NO_FIELDS := Fields(map[], [])

  /** The rest of push_table: prev is the key of the last round and d what has been copied so far. */
  ghost function CopyFrom(t: Shared, prev: Key, d: Data, fuel: nat): (r: Option<Data>)
    requires d.Fields? && WellBuilt(t)
    ensures r.Some? ==> r.value.Fields?
    decreases fuel, 0
  {
    var q := Next(t, prev);
    if fuel == 0 then None
    else if q == Size(t) then Some(d)
    else
      AtPosition(t, q);
      var data := CopyValue(ValueAt(t, q), fuel - 1);
      if data.None? then None else CopyFrom(t, KeyAt(t, q), SetField(d, KeyAt(t, q), data.value), fuel - 1)
  }

  ghost function CopyValue(v: SharedValue, fuel: nat): Option<Data>
    requires WellBuiltValue(v)
    decreases fuel, 1
  {
    match v
    case VNil => Some(Absent)
    case VAtom(a) => Some(Leaf(a))
    case VTable(sub) => CopyFrom(sub, START, NO_FIELDS, fuel)
  }

  ghost function SetField(d: Data, key: Key, data: Data): (r: Data)
    requires d.Fields?
    ensures r.Fields?
  {
    RawSet(d, Leaf(KeyAtom(key)), data).value
  }

  /** push_table ends, after however many steps. */
  ghost predicate CopyEnds(t: Shared)
    requires WellBuilt(t)
  {
    exists fuel: nat :: CopyFrom(t, START, NO_FIELDS, fuel).Some?
  }

  lemma NoRound(t: Shared, prev: Key, d: Data, fuel: nat)
    requires d.Fields? && WellBuilt(t)
    ensures fuel == 0 ==> CopyFrom(t, prev, d, fuel) == None
    ensures fuel > 0 && Next(t, prev) == Size(t) ==> CopyFrom(t, prev, d, fuel) == Some(d)
  {
    hide WellBuilt, Next, CopyValue;
  }

  /** One round of the loop. */
  lemma OneRound(t: Shared, prev: Key, d: Data, fuel: nat)
    requires d.Fields? && WellBuilt(t) && Next(t, prev) < Size(t) && fuel > 0
    ensures var q := Next(t, prev);
            && WellBuiltValue(ValueAt(t, q)) && |t.arr| <= MOST
            && (CopyValue(ValueAt(t, q), fuel - 1) == None ==> CopyFrom(t, prev, d, fuel) == None)
            && (CopyValue(ValueAt(t, q), fuel - 1).Some? ==>
                  var d' := SetField(d, KeyAt(t, q), CopyValue(ValueAt(t, q), fuel - 1).value);
                  CopyFrom(t, prev, d, fuel) == CopyFrom(t, KeyAt(t, q), d', fuel - 1))
  {
    hide WellBuilt, WellBuiltValue, Next, CopyValue, ValueAt, KeyAt, SetField, DataOf, FieldsUpTo;
    AllIsThere(t);
    AtPosition(t, Next(t, prev));
  }

  lemma ValueOf(v: SharedValue, fuel: nat)
    requires WellBuiltValue(v)
    ensures v.VTable? ==> WellBuilt(v.table) && CopyValue(v, fuel) == CopyFrom(v.table, START, NO_FIELDS, fuel)
    ensures !v.VTable? ==> CopyValue(v, fuel) == Some(DataOf(v))
  {
    hide WellBuilt, CopyFrom;
  }

  lemma {:induction false} MoreFuel(t: Shared, prev: Key, d: Data, fuel: nat, more: nat)
    requires d.Fields? && WellBuilt(t) && fuel <= more && CopyFrom(t, prev, d, fuel).Some?
    ensures CopyFrom(t, prev, d, more) == CopyFrom(t, prev, d, fuel)
    decreases fuel
  {
    hide CopyFrom, CopyValue, WellBuilt, WellBuiltValue, Next, ValueAt, KeyAt, SetField, DataOf;
    NoRound(t, prev, d, fuel);
    NoRound(t, prev, d, more);
    var q := Next(t, prev);
    if q < Size(t) {
      OneRound(t, prev, d, fuel);
      OneRound(t, prev, d, more);
      var v := ValueAt(t, q);
      ValueOf(v, fuel - 1);
      ValueOf(v, more - 1);
      if v.VTable? {
        MoreFuel(v.table, START, NO_FIELDS, fuel - 1, more - 1);
      }
      MoreFuel(t, KeyAt(t, q), SetField(d, KeyAt(t, q), CopyValue(v, fuel - 1).value), fuel - 1, more - 1);
    }
  }

  // ----- without the key 0 -----

  /** From position p on, fuel is enough to finish the copy. */
  ghost predicate Enough(t: Shared, prev: Key, p: nat, fuel: nat) {
    WellBuilt(t) && p <= Size(t) && CopyFrom(t, prev, Fields(FieldsUpTo(t, p), []), fuel) == Some(DataOf(VTable(t)))
  }

  lemma {:induction false} RestEnds(t: Shared, prev: Key, p: nat) returns (fuel: nat)
    requires WellBuilt(t) && NoZero(t) && p <= Size(t) && Next(t, prev) == FirstFrom(t, p)
    ensures Enough(t, prev, p, fuel)
    decreases t, Size(t) - p
  {
    hide Enough, WellBuilt, NoZero, FirstFrom, Next, ValueAt, KeyAt;
    var q := FirstFrom(t, p);
    if q == Size(t) {
      fuel := 1;
      LastRound(t, prev, p);
    } else {
      LeadsOn(t, q);
      var v := ValueAt(t, q);
      var inner := 0;
      if v.VTable? {
        StartsFirst(v.table);
        inner := RestEnds(v.table, START, 0);
      }
      var rest := RestEnds(t, KeyAt(t, q), q + 1);
      fuel := (if inner > rest then inner else rest) + 1;
      FirstOfRest(t, prev, p, inner, rest, fuel);
    }
  }

  lemma StartsFirst(t: Shared)
    ensures Next(t, START) == FirstFrom(t, 0)
  {
  }

  lemma LastRound(t: Shared, prev: Key, p: nat)
    requires WellBuilt(t) && p <= Size(t) && Next(t, prev) == FirstFrom(t, p) == Size(t)
    ensures Enough(t, prev, p, 1)
  {
    SkipNil(t, p, Size(t));
    NoRound(t, prev, Fields(FieldsUpTo(t, p), []), 1);
    hide WellBuilt, FieldsUpTo, FirstFrom, Next, CopyFrom;
  }

  lemma FirstOfRest(t: Shared, prev: Key, p: nat, inner: nat, rest: nat, fuel: nat)
    requires WellBuilt(t) && |t.arr| <= MOST && p <= Size(t) && inner < fuel && rest < fuel
    requires Next(t, prev) == FirstFrom(t, p) < Size(t) && Enough(t, KeyAt(t, Next(t, prev)), Next(t, prev) + 1, rest)
    requires var v := ValueAt(t, Next(t, prev)); v.VTable? ==> Enough(v.table, START, 0, inner)
    ensures Enough(t, prev, p, fuel)
  {
    hide WellBuilt, FirstFrom, Next, CopyFrom, ValueAt, KeyAt, SetField, DataOf, FieldsUpTo;
    var q := Next(t, prev);
    var v := ValueAt(t, q);
    SkipNil(t, p, q);
    FieldSet(t, q);
    if v.VTable? {
      SubEnds(v, inner);
    }
    hide Enough, WellBuiltValue;
    assert CopyFrom(t, KeyAt(t, q), Fields(FieldsUpTo(t, q + 1), []), rest) == Some(DataOf(VTable(t))) by {
      EnoughIs(t, KeyAt(t, q), q + 1, rest);
    }
    Together(t, prev, Fields(FieldsUpTo(t, p), []), inner, rest, fuel);
    EnoughIs(t, prev, p, fuel);
  }

  lemma EnoughIs(t: Shared, prev: Key, p: nat, fuel: nat)
    requires WellBuilt(t) && p <= Size(t)
    ensures Enough(t, prev, p, fuel) <==>
              CopyFrom(t, prev, Fields(FieldsUpTo(t, p), []), fuel) == Some(DataOf(VTable(t)))
  {
  }

  lemma SubEnds(v: SharedValue, fuel: nat)
    requires v.VTable? && Enough(v.table, START, 0, fuel)
    ensures WellBuilt(v.table) && CopyFrom(v.table, START, NO_FIELDS, fuel) == Some(DataOf(v))
  {
    NothingYet(v.table);
    hide WellBuilt, CopyFrom, DataOf, FieldsUpTo;
    assert v == VTable(v.table);
  }

  lemma Together(t: Shared, prev: Key, d: Data, inner: nat, rest: nat, fuel: nat)
    requires WellBuilt(t) && d.Fields? && |t.arr| <= MOST && Next(t, prev) < Size(t) && inner < fuel && rest < fuel
    requires var v := ValueAt(t, Next(t, prev));
             WellBuiltValue(v) && (v.VTable? ==> CopyFrom(v.table, START, NO_FIELDS, inner) == Some(DataOf(v)))
    requires var q := Next(t, prev);
             CopyFrom(t, KeyAt(t, q), SetField(d, KeyAt(t, q), DataOf(ValueAt(t, q))), rest).Some?
    ensures var q := Next(t, prev);
            CopyFrom(t, prev, d, fuel)
            == CopyFrom(t, KeyAt(t, q), SetField(d, KeyAt(t, q), DataOf(ValueAt(t, q))), rest)
  {
    hide WellBuilt, Next, CopyFrom, CopyValue, ValueAt, KeyAt, SetField, DataOf;
    var q := Next(t, prev);
    var v := ValueAt(t, q);
    OneRound(t, prev, d, fuel);
    ValueOf(v, fuel - 1);
    if v.VTable? {
      MoreFuel(v.table, START, NO_FIELDS, inner, fuel - 1);
    }
    MoreFuel(t, KeyAt(t, q), SetField(d, KeyAt(t, q), DataOf(v)), rest, fuel - 1);
  }

  lemma LeadsOn(t: Shared, q: nat)
    requires WellBuilt(t) && NoZero(t) && q < Size(t) && ValueAt(t, q) != VNil
    ensures |t.arr| <= MOST && WellBuiltValue(ValueAt(t, q)) && Next(t, KeyAt(t, q)) == FirstFrom(t, q + 1)
    ensures ValueAt(t, q).VTable? ==> WellBuilt(ValueAt(t, q).table) && NoZero(ValueAt(t, q).table)
    ensures ValueAt(t, q).VTable? ==> (t decreases to ValueAt(t, q).table)
  {
    AtPosition(t, q);
    BuiltIsIterable(t);
    KeyIsNotZero(t, q);
    NextOfPosition(t, q);
    if ValueAt(t, q).VTable? {
      ValueIsSmaller(t, q);
    }
    hide WellBuilt, NoZero, Iterable, FirstFrom, Next;
  }

  lemma FieldSet(t: Shared, q: nat)
    requires WellBuilt(t) && q < Size(t) && ValueAt(t, q) != VNil
    ensures WellBuiltValue(ValueAt(t, q))
    ensures SetField(Fields(FieldsUpTo(t, q), []), KeyAt(t, q), DataOf(ValueAt(t, q)))
            == Fields(FieldsUpTo(t, q + 1), [])
  {
    AtPosition(t, q);
    hide FieldsUpTo;
  }

  lemma KeyIsNotZero(t: Shared, p: nat)
    requires NoZero(t) && p < Size(t) && |t.arr| <= MOST
    ensures KeyAt(t, p) != START
  {
  }

  lemma WholeEnds(t: Shared) returns (fuel: nat)
    requires WellBuilt(t) && NoZero(t)
    ensures CopyFrom(t, START, NO_FIELDS, fuel) == Some(DataOf(VTable(t)))
  {
    NothingYet(t);
    hide WellBuilt, NoZero, FieldsUpTo, DataOf, CopyFrom;
    fuel := RestEnds(t, START, 0);
  }

  // ----- with it -----

  /** A round that is never got past: it leads back to the start, or its value is never copied. */
  ghost predicate Blocks(t: Shared, z: nat)
    requires |t.arr| <= MOST && z < Size(t)
  {
    ValueAt(t, z) != VNil && (KeyAt(t, z) == START || (ValueAt(t, z).VTable? && !NoZero(ValueAt(t, z).table)))
  }

  lemma AllIsThere(t: Shared)
    requires WellBuilt(t)
    ensures |t.arr| <= MOST && forall h | 0 <= h < |t.nodes| :: t.nodes[h].value != VNil
  {
    BuiltIsIterable(t);
    hide WellBuilt;
  }

  lemma SomethingBlocks(t: Shared) returns (z: nat)
    requires WellBuilt(t) && !NoZero(t)
    ensures |t.arr| <= MOST && z < Size(t) && Blocks(t, z)
  {
    hide WellBuilt, Blocks;
    AllIsThere(t);
    UnfoldNoZero(t);
    hide NoZero;
    if i :| 0 <= i < |t.arr| && t.arr[i].VTable? && !NoZero(t.arr[i].table) {
      z := i;
      SlotBlocks(t, i);
    } else {
      var h :| 0 <= h < |t.nodes|
               && !(t.nodes[h].key != START && (t.nodes[h].value.VTable? ==> NoZero(t.nodes[h].value.table)));
      z := |t.arr| + h;
      NodeBlocks(t, h);
    }
  }

  lemma UnfoldNoZero(t: Shared)
    ensures NoZero(t) <==>
              && (forall i | 0 <= i < |t.arr| :: t.arr[i].VTable? ==> NoZero(t.arr[i].table))
              && (forall h | 0 <= h < |t.nodes| ::
                    t.nodes[h].key != START && (t.nodes[h].value.VTable? ==> NoZero(t.nodes[h].value.table)))
  {
  }

  lemma SlotBlocks(t: Shared, i: nat)
    requires |t.arr| <= MOST && i < |t.arr| && t.arr[i].VTable? && !NoZero(t.arr[i].table)
    ensures Blocks(t, i)
  {
    hide NoZero;
  }

  lemma NodeBlocks(t: Shared, h: nat)
    requires |t.arr| <= MOST && h < |t.nodes| && t.nodes[h].value != VNil
    requires t.nodes[h].key == START || (t.nodes[h].value.VTable? && !NoZero(t.nodes[h].value.table))
    ensures Blocks(t, |t.arr| + h)
  {
    hide NoZero;
  }

  lemma {:induction false} NeverPast(t: Shared, z: nat, prev: Key, d: Data, fuel: nat)
    requires WellBuilt(t) && d.Fields? && |t.arr| <= MOST && z < Size(t) && Blocks(t, z) && Next(t, prev) <= z
    ensures CopyFrom(t, prev, d, fuel) == None
    decreases fuel, 0
  {
    hide WellBuilt, NoZero, Next, SetField, CopyFrom, CopyValue, ValueAt, KeyAt, WellBuiltValue, DataOf, Blocks;
    NoRound(t, prev, d, fuel);
    if fuel > 0 {
      var q := Next(t, prev);
      OneRound(t, prev, d, fuel);
      BlocksOrLeadsBack(t, z, q);
      var v := ValueAt(t, q);
      if v.VTable? && !NoZero(v.table) {
        ValueOf(v, fuel - 1);
        NeverCopied(v.table, fuel - 1);
      } else if CopyValue(v, fuel - 1).Some? {
        NeverPast(t, z, KeyAt(t, q), SetField(d, KeyAt(t, q), CopyValue(v, fuel - 1).value), fuel - 1);
      }
    }
  }

  lemma BlocksOrLeadsBack(t: Shared, z: nat, q: nat)
    requires WellBuilt(t) && |t.arr| <= MOST && z < Size(t) && Blocks(t, z) && q <= z
    ensures (ValueAt(t, q).VTable? && !NoZero(ValueAt(t, q).table)) || Next(t, KeyAt(t, q)) <= z
  {
    hide WellBuilt, NoZero, Next;
    if !(ValueAt(t, q).VTable? && !NoZero(ValueAt(t, q).table)) {
      StaysBefore(t, z, q);
    }
  }

  lemma StaysBefore(t: Shared, z: nat, q: nat)
    requires WellBuilt(t) && z < Size(t) && ValueAt(t, z) != VNil && q <= z && (q == z ==> KeyAt(t, q) == START)
    ensures Next(t, KeyAt(t, q)) <= z
  {
    BuiltIsIterable(t);
    hide WellBuilt, Built;
    if KeyAt(t, q) == START {
      FirstNotPast(t, 0, z);
    } else {
      NextOfPosition(t, q);
      FirstNotPast(t, q + 1, z);
    }
  }

  lemma FirstNotPast(t: Shared, p: nat, z: nat)
    requires p <= z < Size(t) && ValueAt(t, z) != VNil
    ensures FirstFrom(t, p) <= z
  {
  }

  lemma {:induction false} NeverCopied(t: Shared, fuel: nat)
    requires WellBuilt(t) && !NoZero(t)
    ensures CopyFrom(t, START, NO_FIELDS, fuel) == None
    decreases fuel, 1
  {
    hide WellBuilt, NoZero, CopyFrom;
    var z := SomethingBlocks(t);
    FirstNotPast(t, 0, z);
    hide Blocks;
    NeverPast(t, z, START, NO_FIELDS, fuel);
  }

  /** The deep copy ends if and only if the integer 0 is no key of the table or of any table inside;
      and then it is the table. */
  lemma CopyEndsExactly(t: Shared)
    requires WellBuilt(t)
    ensures CopyEnds(t) <==> NoZero(t)
    ensures forall fuel: nat | CopyFrom(t, START, NO_FIELDS, fuel).Some? ::
              CopyFrom(t, START, NO_FIELDS, fuel) == Some(DataOf(VTable(t)))
  {
    hide WellBuilt, NoZero, DataOf;
    if NoZero(t) {
      var enough := WholeEnds(t);
      forall fuel: nat | CopyFrom(t, START, NO_FIELDS, fuel).Some?
        ensures CopyFrom(t, START, NO_FIELDS, fuel) == Some(DataOf(VTable(t)))
      {
        MoreFuel(t, START, NO_FIELDS, fuel, if enough > fuel then enough else fuel);
        MoreFuel(t, START, NO_FIELDS, enough, if enough > fuel then enough else fuel);
      }
    } else {
      forall fuel: nat ensures CopyFrom(t, START, NO_FIELDS, fuel) == None {
        NeverCopied(t, fuel);
      }
    }
  }

  // ----- for the Lua table that was packed -----

  ghost predicate ZeroFreeData(d: Data) {
    d.Fields? ==> Integer(0) !in d.fields && forall k | k in d.fields :: ZeroFreeData(d.fields[k])
  }

  lemma {:induction false} PackedZero(t: Shared)
    requires WellBuilt(t)
    ensures NoZero(t) <==> ZeroFreeData(DataOf(VTable(t)))
    decreases t, 0
  {
    assert |t.arr| <= MOST;
    hide WellBuilt, NoZero, DataOf, ZeroFreeData;
    forall p | 0 <= p < Size(t)
      ensures ValueAt(t, p).VTable? ==> WellBuiltValue(ValueAt(t, p))
                                        && (NoZero(ValueAt(t, p).table) <==> ZeroFreeData(DataOf(ValueAt(t, p))))
    {
      AtPosition(t, p);
      if ValueAt(t, p).VTable? {
        PartIsSmaller(t, p);
        PackedZero(ValueAt(t, p).table);
      }
    }
    if NoZero(t) {
      DataHasNoZero(t);
    } else {
      DataHasZero(t);
    }
  }

  ghost predicate PartsZero(t: Shared)
    requires WellBuilt(t)
  {
    forall p | 0 <= p < Size(t) && ValueAt(t, p).VTable? ::
      WellBuiltValue(ValueAt(t, p)) && (NoZero(ValueAt(t, p).table) <==> ZeroFreeData(DataOf(ValueAt(t, p))))
  }

  lemma DataHasNoZero(t: Shared)
    requires WellBuilt(t) && NoZero(t) && PartsZero(t)
    ensures ZeroFreeData(DataOf(VTable(t)))
  {
    var fields := FieldsUpTo(t, Size(t));
    assert DataOf(VTable(t)) == Fields(fields, []);
    assert |t.arr| <= MOST;
    hide WellBuilt, NoZero, DataOf, FieldsUpTo;
    forall k | k in fields ensures k != Integer(0) && ZeroFreeData(fields[k]) {
      var p := FieldFrom(t, Size(t), k);
      FieldAt(t, Size(t), p);
      KeyIsNotZero(t, p);
      var v := ValueAt(t, p);
      hide ZeroFreeData, ValueAt, KeyAt;
      if v.VTable? {
        PartHasNoZero(t, p);
      } else {
        LeafIsFree(v);
      }
    }
  }

  lemma DataHasZero(t: Shared)
    requires WellBuilt(t) && !NoZero(t) && PartsZero(t)
    ensures !ZeroFreeData(DataOf(VTable(t)))
  {
    var fields := FieldsUpTo(t, Size(t));
    assert DataOf(VTable(t)) == Fields(fields, []);
    hide WellBuilt, NoZero, DataOf, FieldsUpTo;
    var z := SomethingBlocks(t);
    FieldAt(t, Size(t), z);
  }

  lemma LeafIsFree(v: SharedValue)
    requires !v.VTable?
    ensures ZeroFreeData(DataOf(v))
  {
  }

  lemma PartIsSmaller(t: Shared, p: nat)
    requires p < Size(t) && ValueAt(t, p).VTable?
    ensures t decreases to ValueAt(t, p).table
  {
  }

  lemma PartHasNoZero(t: Shared, p: nat)
    requires NoZero(t) && p < Size(t) && ValueAt(t, p).VTable?
    ensures NoZero(ValueAt(t, p).table)
  {
  }

  lemma {:induction false} LuaZero(v: Value)
    requires WellFormed(v) && Convertible(v)
    ensures ZeroFree(v) <==> ZeroFreeData(Content(v))
  {
    if v.Table? {
      var fields := FieldsOf(v, |v.entries|);
      assert Content(v) == Fields(fields, KeyedOf(v, |v.entries|));
      forall i | 0 <= i < |v.entries|
        ensures ZeroFree(v.entries[i].value) <==> ZeroFreeData(Content(v.entries[i].value))
      {
        LuaZero(v.entries[i].value);
      }
      forall i | 0 <= i < |v.entries|
        ensures v.entries[i].key.Scalar? && v.entries[i].key.atom in fields
        ensures fields[v.entries[i].key.atom] == Content(v.entries[i].value)
      {
        FieldOfEntry(v, |v.entries|, i);
      }
      hide Content, FieldsOf, Convertible, WellFormed;
      forall k | k in fields && ZeroFree(v) ensures k != Integer(0) && ZeroFreeData(fields[k]) {
        var i := EntryOfField(v, |v.entries|, k);
      }
    }
  }

  /** Packed from a Lua table, the copy ends if and only if the integer 0 is no key of it or of any table
      inside; and then it has the content of the Lua table. */
  lemma LuaCopyEndsExactly(v: Value, t: Shared)
    requires v.Table? && WellFormed(v) && Convertible(v) && Same(VTable(t), v)
    ensures CopyEnds(t) <==> ZeroFree(v)
    ensures forall fuel: nat | CopyFrom(t, START, NO_FIELDS, fuel).Some? ::
              CopyFrom(t, START, NO_FIELDS, fuel) == Some(Content(v))
  {
    CopyEndsExactly(t);
    PackedZero(t);
    LuaZero(v);
    hide WellBuilt, Content, DataOf, CopyEnds, NoZero, ZeroFree, ZeroFreeData;
  }
}
