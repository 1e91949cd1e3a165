/**
 Building the hash part of a packed read-only table: as many slots as keys, each key in its home slot
 or, if that is taken, in a free slot linked behind it.
 */
module SharedTable {
  import opened LuaValue

  datatype Key = IntKey(n: Int64) | StrKey(s: seq<Byte>)

  datatype SharedValue = VNil | VAtom(atom: Atom) | VTable(table: Shared)

  datatype Node = Node(key: Key, hash: nat, value: SharedValue, next: int, nocolliding: bool)

  /** A finished table: slots for 1, 2, ... and the hash part. */
  datatype Shared = Shared(arr: seq<SharedValue>, nodes: seq<Node>)

  datatype Item = Item(key: Key, hash: nat, value: SharedValue)

  const EMPTY := Node(IntKey(0), 0, VNil, -1, false)

  // ----- hashing -----

  function Mix(h: bv32, b: Byte): bv32 {
    h ^ ((h << 5) + (h >> 2) + (b as bv32))
  }

  function HashFrom(s: seq<Byte>, i: nat, step: nat, h: bv32): bv32
    requires i <= |s| && step > 0
    decreases i
  {
    if i < step then h else HashFrom(s, i - step, step, Mix(h, s[i - 1]))
  }

  function StringHash(s: seq<Byte>): bv32 {
    HashFrom(s, |s|, |s| / 32 + 1, (|s| % 0x1_0000_0000) as bv32)
  }

  /** The string backwards, skipping ahead in long ones. */
  method HashKey(s: seq<Byte>) returns (h: bv32)
    ensures h == StringHash(s)
  {
    hide Mix;
    h := (|s| % 0x1_0000_0000) as bv32;
    var step := |s| / 32 + 1;
    var i := |s|;
    while i >= step
      invariant 0 <= i <= |s|
      invariant HashFrom(s, i, step, h) == StringHash(s)
      decreases i
    {
      h := Mix(h, s[i - 1]);
      i := i - step;
    }
  }

  function HashOf(k: Key): nat {
    match k
    case IntKey(n) => n % 0x1_0000_0000
    case StrKey(s) => StringHash(s) as nat
  }

  /** Of an integer the low 32 bits; of a string its length mixed with its bytes, the last one first. */
  lemma KnownHashes()
    ensures HashOf(IntKey(-1)) == 0xFFFF_FFFF && HashOf(IntKey(0x1_0000_0002)) == 2
    ensures HashOf(StrKey([])) == 0 && HashOf(StrKey([97])) == 128 && HashOf(StrKey([97, 98])) == 5161
  {
    assert Mix(1, 97) == 128;
    assert Mix(2, 98) == 160;
    assert Mix(160, 97) == 5161;
    assert HashFrom([97, 98], 1, 1, 160) == 5161;
  }

  function Home(hash: nat, size: nat): (h: nat)
    requires size > 0
    ensures h < size
  {
    hash % size
  }

  // ----- which item is where -----

  /** For each slot the item in it, or -1; for each placed item its slot; the slots taken; and for each
      home slot the slots linked behind it. */
  datatype Layout = Layout(owner: seq<int>, place: map<int, nat>, filled: set<int>, chains: seq<seq<nat>>)

  /** Keys differ, values are not nil, hashes are right: what lua_next delivers. */
  ghost predicate ProperItems(items: seq<Item>) {
    && (forall j | 0 <= j < |items| :: items[j].value != VNil && items[j].hash == HashOf(items[j].key))
    && (forall i, j | 0 <= i < j < |items| :: items[i].key != items[j].key)
  }

  ghost predicate Owns(n: Node, it: Item) {
    n.key == it.key && n.hash == it.hash && n.value == it.value
  }

  ghost predicate Owned(nodes: seq<Node>, items: seq<Item>, l: Layout) {
    && |nodes| == |items| == |l.owner| == |l.chains|
    && (forall h | 0 <= h < |nodes| ::
          if l.owner[h] < 0 then nodes[h] == EMPTY else l.owner[h] < |items| && Owns(nodes[h], items[l.owner[h]]))
    && Placed(l, |items|)
  }

  /** Owners and places mirror each other. */
  ghost predicate Placed(l: Layout, n: nat) {
    && (forall h | 0 <= h < |l.owner| ::
          if l.owner[h] < 0 then h !in l.filled
          else h in l.filled && l.owner[h] in l.place && l.place[l.owner[h]] == h)
    && (forall j | j in l.place :: 0 <= j < n && l.place[j] < |l.owner| && l.owner[l.place[j]] == j)
    && (forall h | h in l.filled :: 0 <= h < |l.owner|)
    && |l.filled| == |l.place|
  }

  /** The slot holds an item that belongs there. */
  ghost predicate IsMain(nodes: seq<Node>, l: Layout, h: nat) {
    h < |nodes| == |l.owner| && l.owner[h] >= 0 && Home(nodes[h].hash, |nodes|) == h
  }

  function After(chain: seq<nat>, i: nat): int {
    if i < |chain| then chain[i] else -1
  }

  /** Behind every main slot hangs the chain of the other items that belong there. */
  ghost predicate Linked(nodes: seq<Node>, l: Layout) {
    && |nodes| == |l.owner| == |l.chains|
    && (forall h | 0 <= h < |nodes| && IsMain(nodes, l, h) ::
          nodes[h].next == After(l.chains[h], 0) && nodes[h].nocolliding == (l.chains[h] == []))
    && (forall h | 0 <= h < |nodes| && !IsMain(nodes, l, h) :: l.chains[h] == [])
    && (forall h, i | 0 <= h < |nodes| && 0 <= i < |l.chains[h]| ::
          var c := l.chains[h][i];
          c < |nodes| && l.owner[c] >= 0 && c != h && Home(nodes[c].hash, |nodes|) == h
          && nodes[c].next == After(l.chains[h], i + 1) && !nodes[c].nocolliding)
    && (forall c | 0 <= c < |nodes| && l.owner[c] >= 0 && !IsMain(nodes, l, c) ::
        c in l.chains[Home(nodes[c].hash, |nodes|)])
  }

  /** Every item's home slot is taken by one that belongs there; this is what the first pass is for. */
  ghost predicate HomesTaken(nodes: seq<Node>, items: seq<Item>, l: Layout, n: nat) {
    |nodes| == |items| && forall j | 0 <= j < n && j < |items| :: IsMain(nodes, l, Home(items[j].hash, |nodes|))
  }

  // ----- counting -----

  function UpTo(n: nat): (s: set<int>)
    ensures |s| == n
    ensures forall i :: i in s <==> 0 <= i < n
  {
    if n == 0 then {} else UpTo(n - 1) + {n - 1}
  }

  lemma FullSet(s: set<int>, n: nat)
    requires s <= UpTo(n)
    ensures |s| <= n
    ensures |s| == n <==> s == UpTo(n)
  {
    assert UpTo(n) == s + (UpTo(n) - s);
  }

  // ----- the two passes, step by step -----

  lemma EmptyLayout(items: seq<Item>, nodes: seq<Node>, l: Layout)
    requires |nodes| == |items| && (forall h | 0 <= h < |nodes| :: nodes[h] == EMPTY)
    requires l == Layout(seq(|items|, _ => -1), map[], {}, seq(|items|, _ => []))
    ensures Owned(nodes, items, l) && Linked(nodes, l) && HomesTaken(nodes, items, l, 0)
  {
  }

  ghost function Put(l: Layout, h: nat, j: nat): Layout
    requires h < |l.owner|
  {
    l.(owner := l.owner[h := j], place := l.place[j := h], filled := l.filled + {h})
  }

  lemma PutPlaced(l: Layout, n: nat, j: nat, h: nat)
    requires Placed(l, n) && j < n && j !in l.place && h < |l.owner| && l.owner[h] < 0
    ensures Placed(Put(l, h, j), n)
  {
    PutCounted(l, h, j);
  }

  lemma PutCounted(l: Layout, h: nat, j: nat)
    requires h < |l.owner| && h !in l.filled && j !in l.place && |l.filled| == |l.place|
    ensures |Put(l, h, j).filled| == |Put(l, h, j).place|
  {
    assert Put(l, h, j).place.Keys == l.place.Keys + {j};
  }

  /** An item that is not placed goes to a free slot. */
  lemma PutOwned(nodes: seq<Node>, items: seq<Item>, l: Layout, j: nat, h: nat, n: Node)
    requires Owned(nodes, items, l) && j < |items| && j !in l.place
    requires h < |nodes| && l.owner[h] < 0 && Owns(n, items[j])
    ensures Owned(nodes[h := n], items, Put(l, h, j))
  {
    PutPlaced(l, |items|, j, h);
    hide Placed, Owns;
  }

  lemma MainLinked(nodes: seq<Node>, items: seq<Item>, l: Layout, j: nat, h: nat, n: Node)
    requires Owned(nodes, items, l) && j < |items| && h < |nodes| && l.owner[h] < 0
    requires Linked(nodes, l) && HomesTaken(nodes, items, l, j) && (forall c | 0 <= c < |nodes| :: l.chains[c] == [])
    requires n.next == -1 && n.nocolliding && h == Home(n.hash, |nodes|) && n.hash == items[j].hash
    ensures Linked(nodes[h := n], Put(l, h, j)) && HomesTaken(nodes[h := n], items, Put(l, h, j), j + 1)
  {
    hide Owned, Home;
    var nodes', l' := nodes[h := n], Put(l, h, j);
    assert forall g: nat | g < |nodes| && g != h :: IsMain(nodes', l', g) <==> IsMain(nodes, l, g);
    assert IsMain(nodes', l', h);
  }

  /** An item whose home slot is taken goes to a free slot, linked right behind the home slot. */
  ghost function PutBehind(l: Layout, h: nat, e: nat, j: nat): Layout
    requires h < |l.chains| && e < |l.owner|
  {
    Put(l, e, j).(chains := l.chains[h := [e] + l.chains[h]])
  }

  function LinkBehind(nodes: seq<Node>, h: nat, e: nat, it: Item): seq<Node>
    requires h < |nodes| && e < |nodes|
  {
    nodes[e := Node(it.key, it.hash, it.value, nodes[h].next, false)][h := nodes[h].(next := e, nocolliding := false)]
  }

  lemma BehindOwned(nodes: seq<Node>, items: seq<Item>, l: Layout, j: nat, h: nat, e: nat)
    requires Owned(nodes, items, l) && j < |items| && j !in l.place
    requires h < |nodes| && e < |nodes| && l.owner[h] >= 0 && l.owner[e] < 0
    ensures Owned(LinkBehind(nodes, h, e, items[j]), items, PutBehind(l, h, e, j))
  {
    PutPlaced(l, |items|, j, e);
    var l' := PutBehind(l, h, e, j);
    assert Placed(l', |items|);
    hide Placed;
  }

  lemma BehindMains(nodes: seq<Node>, l: Layout, j: nat, h: nat, e: nat, it: Item)
    requires |nodes| == |l.owner| == |l.chains| && IsMain(nodes, l, h) && e < |nodes| && l.owner[e] < 0
             && h == Home(it.hash, |nodes|)
    ensures forall g :: IsMain(LinkBehind(nodes, h, e, it), PutBehind(l, h, e, j), g) <==> IsMain(nodes, l, g)
  {
    hide Home;
  }

  lemma BehindLinked(nodes: seq<Node>, l: Layout, j: nat, h: nat, e: nat, it: Item)
    requires Linked(nodes, l) && IsMain(nodes, l, h) && e < |nodes| && l.owner[e] < 0 && h == Home(it.hash, |nodes|)
    ensures Linked(LinkBehind(nodes, h, e, it), PutBehind(l, h, e, j))
  {
    hide Home;
    var nodes', l' := LinkBehind(nodes, h, e, it), PutBehind(l, h, e, j);
    BehindMains(nodes, l, j, h, e, it);
    assert l.chains[e] == [];
    forall g, i | 0 <= g < |nodes| && 0 <= i < |l'.chains[g]|
      ensures var c := l'.chains[g][i];
          c < |nodes| && l'.owner[c] >= 0 && c != g && Home(nodes'[c].hash, |nodes|) == g
          && nodes'[c].next == After(l'.chains[g], i + 1) && !nodes'[c].nocolliding
    {
      if g == h && i > 0 {
        assert l'.chains[g][i] == l.chains[g][i - 1];
        assert l.chains[h][i - 1] != h;
      } else if g != h {
        assert l'.chains[g] == l.chains[g];
      }
    }
    forall c | 0 <= c < |nodes| && l'.owner[c] >= 0 && !IsMain(nodes', l', c)
      ensures c in l'.chains[Home(nodes'[c].hash, |nodes|)]
    {
      if c == e {
        assert l'.chains[h][0] == e;
      } else {
        assert c in l.chains[Home(nodes[c].hash, |nodes|)];
      }
    }
  }

  // ----- what the passes rely on -----

  lemma ItemIsNotNil(items: seq<Item>, j: nat)
    requires ProperItems(items) && j < |items|
    ensures items[j].value != VNil
  {
  }

  lemma NilMeansFree(nodes: seq<Node>, items: seq<Item>, l: Layout, h: nat)
    requires Owned(nodes, items, l) && ProperItems(items) && h < |nodes|
    ensures nodes[h].value == VNil <==> l.owner[h] < 0
    ensures nodes[h].value == VNil <==> h !in l.filled
  {
  }

  lemma OneMoreHome(nodes: seq<Node>, items: seq<Item>, l: Layout, j: nat)
    requires Owned(nodes, items, l) && HomesTaken(nodes, items, l, j) && AtHome(items, l, 0) && j < |items|
    requires l.owner[Home(items[j].hash, |nodes|)] >= 0
    ensures HomesTaken(nodes, items, l, j + 1)
  {
    var h := Home(items[j].hash, |nodes|);
    assert Owns(nodes[h], items[l.owner[h]]) && l.place[l.owner[h]] == h;
    hide Home;
  }

  /** Items from the j-th on are at home, if they are placed. */
  ghost predicate AtHome(items: seq<Item>, l: Layout, j: nat) {
    forall i | i in l.place && j <= i < |items| :: l.place[i] == Home(items[i].hash, |items|)
  }

  lemma MainOf(nodes: seq<Node>, items: seq<Item>, l: Layout, j: nat)
    requires Owned(nodes, items, l) && HomesTaken(nodes, items, l, |items|) && AtHome(items, l, j) && ProperItems(items)
    requires j < |items|
    ensures IsMain(nodes, l, Home(items[j].hash, |items|)) && l.owner[Home(items[j].hash, |items|)] >= 0
    ensures nodes[Home(items[j].hash, |items|)].key == items[j].key <==> j in l.place
  {
    var h := Home(items[j].hash, |items|);
    assert IsMain(nodes, l, h);
    assert Owns(nodes[h], items[l.owner[h]]);
    hide Home, HomesTaken;
  }

  lemma RoomLeft(l: Layout, n: nat, j: nat)
    requires Placed(l, n) && |l.owner| == n && j < n && j !in l.place
    ensures exists h :: 0 <= h < n && h !in l.filled
  {
    assert j in UpTo(n) && j !in l.place.Keys;
    FullSet(l.place.Keys, n);
    FullSet(l.filled, n);
    assert exists h :: h in UpTo(n) && h !in l.filled;
  }

  /** All items are placed, and so all slots are taken. */
  ghost predicate Complete(nodes: seq<Node>, items: seq<Item>, l: Layout) {
    && Owned(nodes, items, l) && Linked(nodes, l) && HomesTaken(nodes, items, l, |items|)
    && (forall i | 0 <= i < |items| :: i in l.place)
    && (forall h | 0 <= h < |nodes| :: l.owner[h] >= 0)
  }

  lemma AllPlaced(nodes: seq<Node>, items: seq<Item>, l: Layout)
    requires Owned(nodes, items, l) && Linked(nodes, l) && HomesTaken(nodes, items, l, |items|)
    requires forall i | 0 <= i < |items| :: i in l.place
    ensures Complete(nodes, items, l)
  {
    hide Linked, HomesTaken, Owns;
    NoRoomLeft(l, |items|);
  }

  lemma NoRoomLeft(l: Layout, n: nat)
    requires Placed(l, n) && |l.owner| == n && forall i | 0 <= i < n :: i in l.place
    ensures forall h | 0 <= h < n :: l.owner[h] >= 0
  {
    assert l.place.Keys == UpTo(n) && |l.place.Keys| == |l.place|;
    FullSet(l.filled, n);
    forall h | 0 <= h < n ensures l.owner[h] >= 0 {
      assert h in UpTo(n);
    }
  }

  lemma NothingToPlace(l: Layout)
    requires l == Layout([], map[], {}, [])
    ensures Complete([], [], l)
  {
  }

  // ----- building -----

  /** The finite map that items stand for. */
  ghost function ItemsMap(items: seq<Item>): map<Key, SharedValue> {
    if items == [] then map[]
    else ItemsMap(items[..|items| - 1])[items[|items| - 1].key := items[|items| - 1].value]
  }

  lemma {:induction false} KeyInMap(items: seq<Item>, j: nat)
    requires j < |items|
    ensures items[j].key in ItemsMap(items)
  {
    if j < |items| - 1 {
      assert items[..|items| - 1][j] == items[j];
      KeyInMap(items[..|items| - 1], j);
    }
  }

  /** A new key with a value keeps the items proper; either way the map has the entry. */
  lemma OneMoreItem(items: seq<Item>, key: Key, v: SharedValue)
    ensures ItemsMap(items + [Item(key, HashOf(key), v)]) == ItemsMap(items)[key := v]
    ensures ProperItems(items) && key !in ItemsMap(items) && v != VNil
            ==> ProperItems(items + [Item(key, HashOf(key), v)])
  {
    hide HashOf;
    var more := items + [Item(key, HashOf(key), v)];
    assert more[..|items|] == items;
    forall j | 0 <= j < |items| && key !in ItemsMap(items) ensures items[j].key != key {
      KeyInMap(items, j);
    }
  }

  class SharedTableBuilder {
    var array_: seq<SharedValue>
    var hash_: seq<Node>
    var pending: seq<Item>
    ghost var layout: Layout

    constructor ()
      ensures array_ == [] && hash_ == [] && pending == []
    {
      array_, hash_, pending := [], [], [];
      layout := Layout([], map[], {}, []);
    }

    /** Slots are numbered from 1; the array grows to hold the slot, nil in between. */
    method SetArray(index: nat, v: SharedValue)
      modifies this`array_
      ensures index == 0 ==> array_ == old(array_)
      ensures index > 0 ==>
                && |array_| == (if index > |old(array_)| then index else |old(array_)|)
                && array_[index - 1] == v
                && forall i | 0 <= i < |array_| && i != index - 1 ::
                     array_[i] == if i < |old(array_)| then old(array_)[i] else VNil
    {
      if index > 0 {
        if index > |array_| {
          array_ := array_ + seq(index - |array_|, _ => VNil);
        }
        array_ := array_[index - 1 := v];
      }
    }

    /** The item joins the others with the hash of its key; Finish needs keys that are new and no nil. */
    method AddHash(key: Key, v: SharedValue)
      modifies this`pending
      ensures pending == old(pending) + [Item(key, HashOf(key), v)]
      ensures ItemsMap(pending) == ItemsMap(old(pending))[key := v]
      ensures ProperItems(old(pending)) && key !in ItemsMap(old(pending)) && v != VNil ==> ProperItems(pending)
    {
      OneMoreItem(pending, key, v);
      hide HashOf, ItemsMap, ProperItems;
      pending := pending + [Item(key, HashOf(key), v)];
    }

    /** Afterwards the pending items fill the hash part exactly. */
    method Finish()
      requires hash_ == [] && ProperItems(pending)
      modifies this
      ensures array_ == old(array_) && pending == []
      ensures Complete(hash_, old(pending), layout)
    {
      hide Owned, Linked, HomesTaken, ProperItems;
      if pending == [] {
        layout := Layout([], map[], {}, []);
        NothingToPlace(layout);
        return;
      }
      var size := |pending|;
      hash_ := seq(size, _ => EMPTY);
      FillNoColliding(pending, size);
      FillColliding(pending, size);
      pending := [];
    }

    /** First pass: the first item of every home slot goes there. */
    method FillNoColliding(items: seq<Item>, size: nat)
      requires |items| == size == |hash_| && ProperItems(items) && (forall h | 0 <= h < size :: hash_[h] == EMPTY)
      modifies this`hash_, this`layout
      ensures |hash_| == size && Owned(hash_, items, layout) && Linked(hash_, layout)
              && HomesTaken(hash_, items, layout, size)
      ensures AtHome(items, layout, 0) && |layout.owner| == |layout.chains| == size
    {
      hide Owned, Linked, HomesTaken;
      layout := Layout(seq(size, _ => -1), map[], {}, seq(size, _ => []));
      EmptyLayout(items, hash_, layout);
      for j := 0 to size
        invariant |hash_| == size == |layout.chains| == |layout.owner|
        invariant Owned(hash_, items, layout) && Linked(hash_, layout) && HomesTaken(hash_, items, layout, j)
        invariant forall h | 0 <= h < size :: layout.chains[h] == []
        invariant AtHome(items, layout, 0) && forall i | i in layout.place :: i < j
      {
        var kv := items[j];
        var h := Home(kv.hash, size);
        NilMeansFree(hash_, items, layout, h);
        if hash_[h].value == VNil {
          PutOwned(hash_, items, layout, j, h, Node(kv.key, kv.hash, kv.value, -1, true));
          MainLinked(hash_, items, layout, j, h, Node(kv.key, kv.hash, kv.value, -1, true));
          hash_ := hash_[h := Node(kv.key, kv.hash, kv.value, -1, true)];
          layout := Put(layout, h, j);
        } else {
          OneMoreHome(hash_, items, layout, j);
        }
      }
    }

    /** Second pass: everything else goes to the free slots, from the left. */
    method FillColliding(items: seq<Item>, size: nat)
      requires |items| == size == |hash_| && ProperItems(items)
      requires Owned(hash_, items, layout) && Linked(hash_, layout) && HomesTaken(hash_, items, layout, size)
      requires AtHome(items, layout, 0) && |layout.owner| == |layout.chains| == size
      modifies this`hash_, this`layout
      ensures Complete(hash_, items, layout)
    {
      hide Owned, Linked, HomesTaken, ProperItems, IsMain, Home;
      var emptyslot := 0;
      for j := 0 to size
        invariant |hash_| == size == |layout.owner| == |layout.chains| && 0 <= emptyslot <= size
        invariant Owned(hash_, items, layout) && Linked(hash_, layout) && HomesTaken(hash_, items, layout, size)
        invariant AtHome(items, layout, j)
        invariant forall i | 0 <= i < j :: i in layout.place
        invariant forall i | 0 <= i < emptyslot :: hash_[i].value != VNil
      {
        var kv := items[j];
        var h := Home(kv.hash, size);
        MainOf(hash_, items, layout, j);
        var inserted := hash_[h].key == kv.key;
        if !inserted {
          var i := FindFree(items, emptyslot, j);
          emptyslot := i + 1;
          Relink(items, j, h, i);
          ItemIsNotNil(items, j);
        }
      }
      AllPlaced(hash_, items, layout);
    }

    /** The leftmost free slot from `from` on; with an item left over, there is one. */
    method FindFree(items: seq<Item>, from: nat, ghost j: nat) returns (i: nat)
      requires Owned(hash_, items, layout) && ProperItems(items) && j < |items| && j !in layout.place && from <= |hash_|
      requires forall g | 0 <= g < from :: hash_[g].value != VNil
      ensures from <= i < |hash_| && hash_[i].value == VNil && layout.owner[i] < 0
      ensures forall g | from <= g < i :: hash_[g].value != VNil
    {
      i := from;
      ghost var free :| 0 <= free < |hash_| && free !in layout.filled by { RoomLeft(layout, |items|, j); }
      NilMeansFree(hash_, items, layout, free);
      while hash_[i].value != VNil
        invariant from <= i <= free
        invariant forall g | from <= g < i :: hash_[g].value != VNil
        decreases |hash_| - i
      {
        i := i + 1;
      }
      NilMeansFree(hash_, items, layout, i);
    }

    method Relink(items: seq<Item>, j: nat, h: nat, e: nat)
      requires Owned(hash_, items, layout) && Linked(hash_, layout) && HomesTaken(hash_, items, layout, |items|)
      requires j < |items| && j !in layout.place && h == Home(items[j].hash, |items|) && e < |hash_| == |items|
               && layout.owner[e] < 0
      requires h < |hash_| && IsMain(hash_, layout, h) && AtHome(items, layout, j)
      modifies this`hash_, this`layout
      ensures |hash_| == |items| == |layout.owner| == |layout.chains|
      ensures Owned(hash_, items, layout) && Linked(hash_, layout) && HomesTaken(hash_, items, layout, |items|)
      ensures AtHome(items, layout, j + 1) && layout.place == old(layout.place)[j := e]
      ensures hash_ == LinkBehind(old(hash_), h, e, items[j])
    {
      BehindOwned(hash_, items, layout, j, h, e);
      BehindLinked(hash_, layout, j, h, e, items[j]);
      BehindMains(hash_, layout, j, h, e, items[j]);
      hide Owned, Linked, IsMain, Home;
      hash_ := hash_[e := Node(items[j].key, items[j].hash, items[j].value, hash_[h].next, false)]
                    [h := hash_[h].(next := e, nocolliding := false)];
      layout := PutBehind(layout, h, e, j);
    }
  }
}
