/**
 Deep conversion of Lua tables to packed tables and back.
 */
module SharedData {
  import opened LuaValue
  import SeriFormat
  import opened SharedTable
  import opened SharedLookup
  import opened SharedIteration

  function KeyAtom(k: Key): Atom {
    match k
    case IntKey(n) => Integer(n)
    case StrKey(s) => Str(s)
  }

  /** Came out of Finish, the two parts sharing no key. */
  ghost predicate Built(t: Shared) {
    exists items, l :: ProperItems(items) && Complete(t.nodes, items, l) && NoSlotKeys(t.arr, items)
  }

  ghost predicate NoSlotKeys(arr: seq<SharedValue>, items: seq<Item>) {
    forall j | 0 <= j < |items| :: !InArray(arr, items[j].key)
  }

  ghost predicate WellBuilt(t: Shared) {
    && |t.arr| <= MOST && Built(t)
    && (forall i | 0 <= i < |t.arr| :: t.arr[i].VTable? ==> WellBuilt(t.arr[i].table))
    && (forall h | 0 <= h < |t.nodes| :: t.nodes[h].value.VTable? ==> WellBuilt(t.nodes[h].value.table))
  }

  ghost predicate WellBuiltValue(v: SharedValue) {
    v.VTable? ==> WellBuilt(v.table)
  }

  // ----- what a packed table means -----

  ghost function DataOf(v: SharedValue): Data
    requires WellBuiltValue(v)
    decreases v, 1, 0
  {
    match v
    case VNil => Absent
    case VAtom(a) => Leaf(a)
    case VTable(t) => Fields(FieldsUpTo(t, Size(t)), [])
  }

  ghost function FieldsUpTo(t: Shared, n: nat): map<Atom, Data>
    requires WellBuilt(t) && n <= Size(t)
    decreases t, 0, n
  {
    if n == 0 then map[]
    else if n <= |t.arr| then
      if t.arr[n - 1] == VNil then FieldsUpTo(t, n - 1) else FieldsUpTo(t, n - 1)[Integer(n) := DataOf(t.arr[n - 1])]
    else
      FieldsUpTo(t, n - 1)[KeyAtom(t.nodes[n - 1 - |t.arr|].key) := DataOf(t.nodes[n - 1 - |t.arr|].value)]
  }

  lemma AtPosition(t: Shared, p: nat)
    requires WellBuilt(t) && p < Size(t)
    ensures WellBuiltValue(ValueAt(t, p))
    ensures FieldsUpTo(t, p + 1) ==
            if ValueAt(t, p) == VNil then FieldsUpTo(t, p)
            else FieldsUpTo(t, p)[KeyAtom(KeyAt(t, p)) := DataOf(ValueAt(t, p))]
  {
    BuiltIsIterable(t);
    hide Built;
  }

  lemma {:induction false} SkipNil(t: Shared, p: nat, q: nat)
    requires WellBuilt(t) && p <= q <= Size(t) && forall i | p <= i < q :: ValueAt(t, i) == VNil
    ensures FieldsUpTo(t, p) == FieldsUpTo(t, q)
    decreases q - p
  {
    if p < q {
      AtPosition(t, p);
      hide *;
      SkipNil(t, p + 1, q);
    }
  }

  lemma BuiltIsIterable(t: Shared)
    requires WellBuilt(t)
    ensures Iterable(t)
  {
    var items, l :| ProperItems(items) && Complete(t.nodes, items, l) && NoSlotKeys(t.arr, items);
    hide Complete, ProperItems;
    PackedIsIterable(t, items, l);
  }

  ghost predicate NoZero(t: Shared) {
    && (forall i | 0 <= i < |t.arr| :: t.arr[i].VTable? ==> NoZero(t.arr[i].table))
    && (forall h | 0 <= h < |t.nodes| ::
          t.nodes[h].key != START && (t.nodes[h].value.VTable? ==> NoZero(t.nodes[h].value.table)))
  }

  // ----- back to Lua -----

  /** Rebuilds the table by stepping through the keys. With a key 0 anywhere it would not end. */
  method PushTable(t: Shared) returns (d: Data)
    requires WellBuilt(t) && NoZero(t)
    ensures d == DataOf(VTable(t))
    decreases t
  {
    hide Complete, ProperItems, Iterable, FirstFrom, FieldsUpTo;
    BuiltIsIterable(t);
    ghost var items, l :| ProperItems(items) && Complete(t.nodes, items, l) && NoSlotKeys(t.arr, items);
    d := Fields(map[], []);
    var prev := START;
    ghost var p := 0;
    NothingYet(t);
    while true
      invariant p <= Size(t) && d == Fields(FieldsUpTo(t, p), []) && Next(t, prev) == FirstFrom(t, p)
      decreases Size(t) - p
    {
      var next := NextKey(t, prev, items, l);
      ghost var q := FirstFrom(t, p);
      SkipNil(t, p, q);
      if next.None? {
        return;
      }
      AtPosition(t, q);
      var key, value := next.value.0, next.value.1;
      var data: Data;
      match value {
        case VNil => data := Absent;
        case VAtom(a) => data := Leaf(a);
        case VTable(sub) =>
          ValueIsSmaller(t, q);
          data := PushTable(sub);
      }
      d := RawSet(d, Leaf(KeyAtom(key)), data).value;
      NextOfPosition(t, q);
      prev, p := key, q + 1;
    }
  }

  lemma NothingYet(t: Shared)
    requires WellBuilt(t)
    ensures FieldsUpTo(t, 0) == map[]
  {
  }

  lemma ValueIsSmaller(t: Shared, p: nat)
    requires WellBuilt(t) && NoZero(t) && p < Size(t) && ValueAt(t, p).VTable?
    ensures WellBuilt(ValueAt(t, p).table) && NoZero(ValueAt(t, p).table)
    ensures t decreases to ValueAt(t, p).table
  {
  }

  // ----- from Lua -----

  /** Scalars but light userdata, and tables of such with integer and string keys. */
  ghost predicate Convertible(v: Value) {
    match v
    case Nil => false
    case Other => false
    case Scalar(a) => !a.Pointer?
    case Table(_, entries) =>
      forall i | 0 <= i < |entries| :: KeyConvertible(entries[i].key) && Convertible(entries[i].value)
  }

  predicate KeyConvertible(k: Value) {
    k.Scalar? && (k.atom.Integer? || k.atom.Str?)
  }

  function KeyOfAtom(a: Atom): Key
    requires a.Integer? || a.Str?
  {
    if a.Integer? then IntKey(a.n) else StrKey(a.s)
  }

  ghost predicate ZeroFree(v: Value) {
    v.Table? ==>
      forall i | 0 <= i < |v.entries| :: v.entries[i].key != Scalar(Integer(0)) && ZeroFree(v.entries[i].value)
  }

  /** A converted value means what the Lua value does. */
  ghost predicate Same(sv: SharedValue, v: Value) {
    && WellBuiltValue(sv) && sv != VNil
    && DataOf(sv) == Content(v)
    && (sv.VTable? && ZeroFree(v) ==> NoZero(sv.table))
  }

  predicate InSlots(k: Key, size: int) {
    k.IntKey? && 0 < k.n <= size
  }

  /** The first e entries have one with this key, and sv is its value converted. */
  ghost predicate FromEntry(t: Value, e: nat, k: Key, sv: SharedValue) {
    && t.Table? && e <= |t.entries|
    && exists i :: 0 <= i < e && t.entries[i].key == Scalar(KeyAtom(k)) && Same(sv, t.entries[i].value)
  }

  ghost predicate SlotsFrom(t: Value, e: nat, arr: seq<SharedValue>)
    requires |arr| <= MOST
  {
    forall i | 0 <= i < |arr| && arr[i] != VNil :: FromEntry(t, e, IntKey(i + 1), arr[i])
  }

  ghost predicate ItemsFrom(t: Value, e: nat, size: int, items: seq<Item>) {
    forall j | 0 <= j < |items| ::
      FromEntry(t, e, items[j].key, items[j].value) && !InSlots(items[j].key, size)
        && items[j].hash == HashOf(items[j].key)
  }

  ghost predicate Distinct(items: seq<Item>) {
    forall i, j | 0 <= i < j < |items| :: items[i].key != items[j].key
  }

  /** A key that has been seen is in its slot, or among the items. */
  ghost predicate Kept(arr: seq<SharedValue>, items: seq<Item>, size: int, k: Key) {
    if InSlots(k, size) then k.n <= |arr| && arr[k.n - 1] != VNil
    else exists j :: 0 <= j < |items| && items[j].key == k
  }

  ghost predicate AllKept(t: Value, e: nat, size: int, arr: seq<SharedValue>, items: seq<Item>)
    requires t.Table? && e <= |t.entries|
  {
    forall i | 0 <= i < e :: KeyConvertible(t.entries[i].key)
      && Kept(arr, items, size, KeyOfAtom(t.entries[i].key.atom))
  }

  /** The slots and the items collected from the first e entries. */
  ghost predicate Collected(t: Value, e: nat, size: int, arr: seq<SharedValue>, items: seq<Item>) {
    && t.Table? && e <= |t.entries| && |arr| <= MOST && (|arr| == 0 || |arr| <= size)
    && SlotsFrom(t, e, arr) && ItemsFrom(t, e, size, items) && Distinct(items) && AllKept(t, e, size, arr, items)
  }

  lemma NothingCollected(t: Value, size: int)
    requires t.Table?
    ensures Collected(t, 0, size, [], [])
  {
  }

  lemma FromEntryStays(t: Value, e: nat, k: Key, sv: SharedValue)
    requires t.Table? && e < |t.entries| && FromEntry(t, e, k, sv)
    ensures FromEntry(t, e + 1, k, sv)
  {
    hide Same;
  }

  lemma FromLast(t: Value, e: nat, k: Key, sv: SharedValue)
    requires t.Table? && e < |t.entries| && t.entries[e].key == Scalar(KeyAtom(k)) && Same(sv, t.entries[e].value)
    ensures FromEntry(t, e + 1, k, sv)
  {
    hide Same;
  }

  lemma AllFromEntryStay(t: Value, e: nat, size: int, arr: seq<SharedValue>, items: seq<Item>)
    requires t.Table? && e < |t.entries| && |arr| <= MOST && SlotsFrom(t, e, arr) && ItemsFrom(t, e, size, items)
    ensures SlotsFrom(t, e + 1, arr) && ItemsFrom(t, e + 1, size, items)
  {
    forall k, sv | FromEntry(t, e, k, sv) ensures FromEntry(t, e + 1, k, sv) {
      FromEntryStays(t, e, k, sv);
    }
    hide FromEntry, HashOf, InSlots;
  }

  lemma NotSeenYet(t: Value, e: nat, size: int, items: seq<Item>, k: Key)
    requires t.Table? && ProperEntries(t.entries) && e < |t.entries| && t.entries[e].key == Scalar(KeyAtom(k))
    requires ItemsFrom(t, e, size, items)
    ensures forall j | 0 <= j < |items| :: items[j].key != k
  {
    hide Same, HashOf;
    forall j | 0 <= j < |items| ensures items[j].key != k {
      assert FromEntry(t, e, items[j].key, items[j].value);
      var i :| 0 <= i < e && t.entries[i].key == Scalar(KeyAtom(items[j].key));
      assert t.entries[i].key != t.entries[e].key;
    }
  }

  lemma KeptStays(arr: seq<SharedValue>, items: seq<Item>, size: int, k: Key, it: Item)
    requires Kept(arr, items, size, k)
    ensures Kept(arr, items + [it], size, k)
  {
    if !InSlots(k, size) {
      var j :| 0 <= j < |items| && items[j].key == k;
      assert (items + [it])[j].key == k;
    }
  }

  lemma ItemKept(t: Value, e: nat, size: int, arr: seq<SharedValue>, items: seq<Item>, it: Item)
    requires t.Table? && e < |t.entries| && AllKept(t, e, size, arr, items) && KeyConvertible(t.entries[e].key)
    requires KeyOfAtom(t.entries[e].key.atom) == it.key && !InSlots(it.key, size)
    ensures AllKept(t, e + 1, size, arr, items + [it])
  {
    forall k | Kept(arr, items, size, k) ensures Kept(arr, items + [it], size, k) {
      KeptStays(arr, items, size, k, it);
    }
    assert (items + [it])[|items|].key == it.key;
    assert Kept(arr, items + [it], size, it.key);
    hide Kept;
  }

  lemma ItemCollected(t: Value, e: nat, size: int, arr: seq<SharedValue>, items: seq<Item>, sv: SharedValue)
    requires Collected(t, e, size, arr, items) && ProperEntries(t.entries) && e < |t.entries|
             && KeyConvertible(t.entries[e].key)
    requires Same(sv, t.entries[e].value) && !InSlots(KeyOfAtom(t.entries[e].key.atom), size)
    ensures var k := KeyOfAtom(t.entries[e].key.atom);
            Collected(t, e + 1, size, arr, items + [Item(k, HashOf(k), sv)])
  {
    var k := KeyOfAtom(t.entries[e].key.atom);
    var it := Item(k, HashOf(k), sv);
    hide Same, HashOf, Kept, FromEntry, AllKept, SlotsFrom, InSlots, ProperEntries;
    NotSeenYet(t, e, size, items, k);
    FromLast(t, e, k, sv);
    AllFromEntryStay(t, e, size, arr, items);
    ItemKept(t, e, size, arr, items, it);
  }

  /** What SetArray does to the array. */
  ghost predicate SlotSet(arr: seq<SharedValue>, n: nat, sv: SharedValue, arr': seq<SharedValue>) {
    && n > 0 && |arr'| == (if n > |arr| then n else |arr|) && arr'[n - 1] == sv
    && forall i | 0 <= i < |arr'| && i != n - 1 :: arr'[i] == if i < |arr| then arr[i] else VNil
  }

  lemma SlotKept(t: Value, e: nat, size: int, arr: seq<SharedValue>, items: seq<Item>, sv: SharedValue,
                 arr': seq<SharedValue>)
    requires t.Table? && e < |t.entries| && AllKept(t, e, size, arr, items) && KeyConvertible(t.entries[e].key)
    requires InSlots(KeyOfAtom(t.entries[e].key.atom), size) && SlotSet(arr, t.entries[e].key.atom.n, sv, arr')
             && sv != VNil
    ensures AllKept(t, e + 1, size, arr', items)
  {
    forall k | Kept(arr, items, size, k) ensures Kept(arr', items, size, k) {
    }
    assert Kept(arr', items, size, KeyOfAtom(t.entries[e].key.atom));
    hide Kept;
  }

  lemma SlotCollected(t: Value, e: nat, size: int, arr: seq<SharedValue>, items: seq<Item>, sv: SharedValue,
                      arr': seq<SharedValue>)
    requires Collected(t, e, size, arr, items) && ProperEntries(t.entries) && e < |t.entries|
             && KeyConvertible(t.entries[e].key)
    requires Same(sv, t.entries[e].value) && InSlots(KeyOfAtom(t.entries[e].key.atom), size)
    requires SlotSet(arr, t.entries[e].key.atom.n, sv, arr')
    ensures Collected(t, e + 1, size, arr', items)
  {
    var n := t.entries[e].key.atom.n;
    SlotKept(t, e, size, arr, items, sv, arr') by { SameIsThere(sv, t.entries[e].value); }
    AllFromEntryStay(t, e, size, arr, items);
    FromLast(t, e, IntKey(n), sv);
    hide Same, HashOf, Kept, FromEntry, AllKept, ItemsFrom, ProperEntries, Distinct;
    assert SlotsFrom(t, e + 1, arr');
  }

  lemma SameIsThere(sv: SharedValue, v: Value)
    requires Same(sv, v)
    ensures sv != VNil && WellBuiltValue(sv)
  {
  }

  // ----- the finished table means the same -----

  lemma {:induction false} FieldAt(t: Shared, n: nat, p: nat)
    requires WellBuilt(t) && p < n <= Size(t) && ValueAt(t, p) != VNil
    ensures KeyAtom(KeyAt(t, p)) in FieldsUpTo(t, n) && WellBuiltValue(ValueAt(t, p))
    ensures FieldsUpTo(t, n)[KeyAtom(KeyAt(t, p))] == DataOf(ValueAt(t, p))
  {
    hide FieldsUpTo, WellBuilt, Iterable, DataOf, KeyAtom, KeyAt;
    AtPosition(t, n - 1);
    AtPosition(t, p);
    if p < n - 1 {
      FieldAt(t, n - 1, p);
      BuiltIsIterable(t);
      OtherKey(t, p, n - 1);
    }
  }

  lemma OtherKey(t: Shared, p: nat, q: nat)
    requires Iterable(t) && p < q < Size(t)
    ensures KeyAtom(KeyAt(t, p)) != KeyAtom(KeyAt(t, q))
  {
    OnlyOneStart(t, p, q);
  }

  lemma FieldStep(t: Shared, n: nat, k: Atom)
    requires WellBuilt(t) && 0 < n <= Size(t) && k in FieldsUpTo(t, n)
    ensures k in FieldsUpTo(t, n - 1) || (ValueAt(t, n - 1) != VNil && KeyAtom(KeyAt(t, n - 1)) == k)
  {
    assert |t.arr| <= MOST;
    hide WellBuilt, KeyAtom;
    AtPosition(t, n - 1);
    hide *;
    assert n - 1 + 1 == n;
  }

  lemma {:induction false} FieldFrom(t: Shared, n: nat, k: Atom) returns (p: nat)
    requires WellBuilt(t) && n <= Size(t) && k in FieldsUpTo(t, n)
    ensures p < n && ValueAt(t, p) != VNil && KeyAtom(KeyAt(t, p)) == k
  {
    NothingYet(t);
    hide *;
    if k in FieldsUpTo(t, n - 1) {
      p := FieldFrom(t, n - 1, k);
    } else {
      FieldStep(t, n, k);
      p := n - 1;
    }
  }

  lemma {:induction false} NoTableKeys(v: Value, n: nat)
    requires v.Table? && n <= |v.entries| && forall i | 0 <= i < n :: KeyConvertible(v.entries[i].key)
    ensures KeyedOf(v, n) == []
  {
    if n > 0 {
      NoTableKeys(v, n - 1);
    }
  }

  lemma NodeFromEntry(v: Value, size: int, t: Shared, items: seq<Item>, l: Layout, h: nat)
    requires v.Table? && ItemsFrom(v, |v.entries|, size, items) && Complete(t.nodes, items, l) && h < |t.nodes|
    ensures FromEntry(v, |v.entries|, t.nodes[h].key, t.nodes[h].value)
    ensures !InSlots(t.nodes[h].key, size)
  {
    hide FromEntry, HashOf, Linked, HomesTaken, Placed, InSlots;
    assert Owns(t.nodes[h], items[l.owner[h]]);
  }

  lemma PositionFromEntry(v: Value, size: int, t: Shared, items: seq<Item>, l: Layout, p: nat)
    requires v.Table? && Collected(v, |v.entries|, size, t.arr, items) && Complete(t.nodes, items, l)
    requires p < Size(t) && ValueAt(t, p) != VNil
    ensures FromEntry(v, |v.entries|, KeyAt(t, p), ValueAt(t, p))
  {
    hide FromEntry, Complete;
    if p >= |t.arr| {
      NodeFromEntry(v, size, t, items, l, p - |t.arr|);
    }
  }

  lemma FromEntryIsSame(v: Value, k: Key, sv: SharedValue) returns (i: nat)
    requires v.Table? && FromEntry(v, |v.entries|, k, sv)
    ensures i < |v.entries| && v.entries[i].key == Scalar(KeyAtom(k)) && Same(sv, v.entries[i].value)
  {
    hide Same;
    var j :| 0 <= j < |v.entries| && v.entries[j].key == Scalar(KeyAtom(k)) && Same(sv, v.entries[j].value);
    i := j;
  }

  lemma CollectedIsBuilt(v: Value, size: int, t: Shared, items: seq<Item>, l: Layout)
    requires v.Table? && Collected(v, |v.entries|, size, t.arr, items) && ProperItems(items)
             && Complete(t.nodes, items, l)
    ensures WellBuilt(t) && (ZeroFree(v) ==> NoZero(t))
  {
    hide FromEntry, Complete, ProperItems, HashOf, Kept, AllKept;
    assert NoSlotKeys(t.arr, items);
    assert Built(t);
    forall p | 0 <= p < Size(t) && ValueAt(t, p) != VNil
      ensures WellBuiltValue(ValueAt(t, p))
      ensures ZeroFree(v) ==> KeyAt(t, p) != START && (ValueAt(t, p).VTable? ==> NoZero(ValueAt(t, p).table))
    {
      PositionFromEntry(v, size, t, items, l, p);
      var i := FromEntryIsSame(v, KeyAt(t, p), ValueAt(t, p));
    }
    hide Collected, Built, SlotsFrom, ItemsFrom;
    ByPosition(t, ZeroFree(v), items, l);
  }

  /** Slot by slot and node by node. */
  lemma ByPosition(t: Shared, zeroFree: bool, items: seq<Item>, l: Layout)
    requires |t.arr| <= MOST && Built(t) && ProperItems(items) && Complete(t.nodes, items, l)
    requires forall p | 0 <= p < Size(t) && ValueAt(t, p) != VNil ::
               && WellBuiltValue(ValueAt(t, p))
               && (zeroFree ==> KeyAt(t, p) != START && (ValueAt(t, p).VTable? ==> NoZero(ValueAt(t, p).table)))
    ensures WellBuilt(t) && (zeroFree ==> NoZero(t))
  {
    forall h | 0 <= h < |t.nodes|
      ensures t.nodes[h].value.VTable? ==> WellBuilt(t.nodes[h].value.table)
      ensures zeroFree ==> t.nodes[h].key != START && (t.nodes[h].value.VTable? ==> NoZero(t.nodes[h].value.table))
    {
      NodeIsItem(t.nodes, items, l, h);
      assert ValueAt(t, |t.arr| + h) != VNil;
    }
    hide Built, Complete, ProperItems;
    forall i | 0 <= i < |t.arr|
      ensures t.arr[i].VTable? ==> WellBuilt(t.arr[i].table) && (zeroFree ==> NoZero(t.arr[i].table))
    {
      assert ValueAt(t, i) == t.arr[i];
    }
  }

  lemma EntryHasPosition(v: Value, size: int, t: Shared, items: seq<Item>, l: Layout, i: nat) returns (p: nat)
    requires v.Table? && i < |v.entries| && Collected(v, |v.entries|, size, t.arr, items) && ProperItems(items)
             && Complete(t.nodes, items, l)
    ensures p < Size(t) && ValueAt(t, p) != VNil && Scalar(KeyAtom(KeyAt(t, p))) == v.entries[i].key
  {
    hide FromEntry, HashOf;
    var k := KeyOfAtom(v.entries[i].key.atom);
    assert Kept(t.arr, items, size, k);
    hide AllKept, SlotsFrom, ItemsFrom, Linked, HomesTaken, Placed;
    if InSlots(k, size) {
      p := k.n - 1;
    } else {
      var j :| 0 <= j < |items| && items[j].key == k;
      PlaceOf(t.nodes, items, l, j);
      p := |t.arr| + l.place[j];
    }
  }

  lemma PlaceOf(nodes: seq<Node>, items: seq<Item>, l: Layout, j: nat)
    requires ProperItems(items) && Complete(nodes, items, l) && j < |items|
    ensures j in l.place && l.place[j] < |nodes| && nodes[l.place[j]].key == items[j].key
            && nodes[l.place[j]].value != VNil
  {
    hide Linked, HomesTaken, HashOf;
    assert l.owner[l.place[j]] == j;
    assert Owns(nodes[l.place[j]], items[j]);
  }

  /** When all entries are in, Finish makes a table that means the same. */
  lemma TableMeansEntries(v: Value, size: int, t: Shared, items: seq<Item>, l: Layout)
    requires v.Table? && WellFormed(v) && Collected(v, |v.entries|, size, t.arr, items)
    requires ProperItems(items) && Complete(t.nodes, items, l)
    ensures Same(VTable(t), v)
  {
    CollectedIsBuilt(v, size, t, items, l);
    NoTableKeys(v, |v.entries|);
    SameFields(v, size, t, items, l);
    hide Collected, Complete, ProperItems, WellBuilt, NoZero, FieldsOf, FieldsUpTo, KeyedOf, WellFormed;
  }

  lemma SameFields(v: Value, size: int, t: Shared, items: seq<Item>, l: Layout)
    requires v.Table? && WellFormed(v) && Collected(v, |v.entries|, size, t.arr, items)
    requires ProperItems(items) && Complete(t.nodes, items, l) && WellBuilt(t)
    ensures FieldsUpTo(t, Size(t)) == FieldsOf(v, |v.entries|)
  {
    hide *;
    var left, right := FieldsUpTo(t, Size(t)), FieldsOf(v, |v.entries|);
    forall k | k in left ensures k in right && left[k] == right[k] {
      PackedField(v, size, t, items, l, k);
    }
    forall k | k in right ensures k in left {
      LuaField(v, size, t, items, l, k);
    }
    assert left == right;
  }

  lemma LuaField(v: Value, size: int, t: Shared, items: seq<Item>, l: Layout, k: Atom)
    requires v.Table? && Collected(v, |v.entries|, size, t.arr, items)
    requires ProperItems(items) && Complete(t.nodes, items, l) && WellBuilt(t)
    requires k in FieldsOf(v, |v.entries|)
    ensures k in FieldsUpTo(t, Size(t))
  {
    assert |t.arr| <= MOST;
    hide Complete, ProperItems, Collected, WellBuilt, FieldsOf, FieldsUpTo;
    var i := EntryOfField(v, |v.entries|, k);
    var p := EntryHasPosition(v, size, t, items, l, i);
    FieldAt(t, Size(t), p);
  }

  lemma PackedField(v: Value, size: int, t: Shared, items: seq<Item>, l: Layout, k: Atom)
    requires v.Table? && WellFormed(v) && Collected(v, |v.entries|, size, t.arr, items)
    requires ProperItems(items) && Complete(t.nodes, items, l) && WellBuilt(t)
    requires k in FieldsUpTo(t, Size(t))
    ensures k in FieldsOf(v, |v.entries|) && FieldsUpTo(t, Size(t))[k] == FieldsOf(v, |v.entries|)[k]
  {
    assert |t.arr| <= MOST;
    hide FromEntry, Complete, ProperItems, HashOf, Collected, WellBuilt, NoZero, FieldsOf, FieldsUpTo;
    var p := FieldFrom(t, Size(t), k);
    FieldAt(t, Size(t), p);
    PositionFromEntry(v, size, t, items, l, p);
    var i := FromEntryIsSame(v, KeyAt(t, p), ValueAt(t, p));
    FieldOfEntry(v, |v.entries|, i);
  }

  // ----- the code -----

  method ConvValue(v: Value) returns (r: Option<SharedValue>)
    requires WellFormed(v)
    ensures r.Some? <==> Convertible(v)
    ensures v.Nil? || v.Other? ==> r == None
    ensures v.Scalar? ==> r == if v.atom.Pointer? then None else Some(VAtom(v.atom))
    ensures r.Some? ==> Same(r.value, v)
    decreases v, 1
  {
    match v {
      case Nil => r := None;
      case Other => r := None;
      case Scalar(a) =>
        r := if a.Pointer? then None else Some(VAtom(a));
      case Table(_, _) =>
        hide WellBuilt, NoZero;
        r := ConvTable(v);
    }
  }

  /** The entries in the order of lua_next: the first `sizearray` integers to slots, the others to items.
      The result means the same, whatever the order, the border and the hashes. */
  method ConvTable(v: Value) returns (r: Option<SharedValue>)
    requires v.Table? && WellFormed(v)
    ensures r.Some? <==> Convertible(v)
    ensures r.Some? <==> forall i | 0 <= i < |v.entries| ::
              && v.entries[i].key.Scalar? && (v.entries[i].key.atom.Integer? || v.entries[i].key.atom.Str?)
              && Convertible(v.entries[i].value)
    ensures r.Some? ==> r.value.VTable? && Same(r.value, v)
    decreases v, 0
  {
    var tbl := new SharedTableBuilder();
    var sizearray := SeriFormat.Int32(v.rawlen);
    NothingCollected(v, sizearray);
    hide Same, HashOf, Collected, Complete, ProperEntries, ProperItems;
    var e := 0;
    while e < |v.entries|
      invariant fresh(tbl) && tbl.hash_ == [] && e <= |v.entries|
      invariant Collected(v, e, sizearray, tbl.array_, tbl.pending)
      invariant forall i | 0 <= i < e :: KeyConvertible(v.entries[i].key) && Convertible(v.entries[i].value)
    {
      var key := v.entries[e].key;
      if !KeyConvertible(key) {
        return None;
      }
      var sv := ConvValue(v.entries[e].value);
      if sv.None? {
        return None;
      }
      Store(tbl, key.atom, sv.value, sizearray, v, e);
      e := e + 1;
    }
    ghost var items := tbl.pending;
    ItemsAreProper(v, |v.entries|, sizearray, tbl.array_, items);
    tbl.Finish();
    var t := Shared(tbl.array_, tbl.hash_);
    TableMeansEntries(v, sizearray, t, items, tbl.layout);
    r := Some(VTable(t));
  }

  /** An entry goes to its slot, or to the items. */
  method Store(tbl: SharedTableBuilder, key: Atom, sv: SharedValue, sizearray: int, ghost v: Value, ghost e: nat)
    requires v.Table? && ProperEntries(v.entries) && e < |v.entries| && v.entries[e].key == Scalar(key)
    requires KeyConvertible(Scalar(key)) && Same(sv, v.entries[e].value)
    requires Collected(v, e, sizearray, tbl.array_, tbl.pending)
    modifies tbl`array_, tbl`pending
    ensures Collected(v, e + 1, sizearray, tbl.array_, tbl.pending)
  {
    hide Same, HashOf, Collected, ProperEntries;
    ghost var arr := tbl.array_;
    if key.Integer? && 0 < key.n <= sizearray {
      tbl.SetArray(key.n, sv);
      SlotCollected(v, e, sizearray, arr, tbl.pending, sv, tbl.array_);
    } else {
      ItemCollected(v, e, sizearray, arr, tbl.pending, sv);
      tbl.AddHash(KeyOfAtom(key), sv);
    }
  }

  lemma ItemsAreProper(v: Value, e: nat, size: int, arr: seq<SharedValue>, items: seq<Item>)
    requires Collected(v, e, size, arr, items)
    ensures ProperItems(items)
  {
    hide HashOf, AllKept, SlotsFrom;
    forall j | 0 <= j < |items| ensures items[j].value != VNil {
      assert FromEntry(v, e, items[j].key, items[j].value);
    }
  }

  /** A table packed and copied back is the same table, if the integer 0 is not a key in it. */
  method Copy(v: Value) returns (r: Option<Data>)
    requires v.Table? && WellFormed(v) && ZeroFree(v)
    ensures r == if Convertible(v) then Some(Content(v)) else None
  {
    hide Content, WellBuilt, NoZero, DataOf;
    var packed := ConvTable(v);
    if packed.None? {
      return None;
    }
    var d := PushTable(packed.value.table);
    r := Some(d);
  }
}
