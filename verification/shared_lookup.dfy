/**
 Reading a packed table: lookup, and stepping from one key to the next.
 */
module SharedLookup {
  import opened LuaValue
  import opened SharedTable

  // ----- the finite map a table stands for -----

  predicate InArray(arr: seq<SharedValue>, k: Key) {
    k.IntKey? && 0 < k.n <= |arr|
  }

  const MOST: nat := 0x7fff_ffff_ffff_ffff

  ghost function ArrayMap(arr: seq<SharedValue>): map<Key, SharedValue>
    requires |arr| <= MOST
  {
    if arr == [] then map[]
    else
      var rest, last := ArrayMap(arr[..|arr| - 1]), arr[|arr| - 1];
      if last == VNil then rest else rest[IntKey(|arr|) := last]
  }

  /** Slots answer for their numbers, the other items for theirs. */
  ghost function MapOf(arr: seq<SharedValue>, items: seq<Item>): map<Key, SharedValue>
    requires |arr| <= MOST
  {
    (map k | k in ItemsMap(items) && !InArray(arr, k) :: ItemsMap(items)[k]) + ArrayMap(arr)
  }

  ghost predicate Packs(t: Shared, m: map<Key, SharedValue>) {
    |t.arr| <= MOST && exists items, l :: ProperItems(items) && Complete(t.nodes, items, l) && m == MapOf(t.arr, items)
  }

  lemma {:induction false} ArrayMapIs(arr: seq<SharedValue>, k: Key)
    requires |arr| <= MOST
    ensures k in ArrayMap(arr) <==> InArray(arr, k) && arr[k.n - 1] != VNil
    ensures k in ArrayMap(arr) ==> ArrayMap(arr)[k] == arr[k.n - 1]
  {
    if arr != [] {
      ArrayMapIs(arr[..|arr| - 1], k);
    }
  }

  lemma {:induction false} ItemInMap(items: seq<Item>, j: nat)
    requires ProperItems(items) && j < |items|
    ensures items[j].key in ItemsMap(items) && ItemsMap(items)[items[j].key] == items[j].value
  {
    var rest := items[..|items| - 1];
    if j < |items| - 1 {
      assert rest[j] == items[j];
      ItemInMap(rest, j);
    }
  }

  lemma {:induction false} MapHasItem(items: seq<Item>, k: Key) returns (j: nat)
    requires k in ItemsMap(items)
    ensures j < |items| && items[j].key == k
  {
    if items[|items| - 1].key == k {
      j := |items| - 1;
    } else {
      j := MapHasItem(items[..|items| - 1], k);
    }
  }

  /** The hash part holds exactly the items, each once. */
  lemma NodeIsItem(nodes: seq<Node>, items: seq<Item>, l: Layout, h: nat)
    requires ProperItems(items) && Complete(nodes, items, l) && h < |nodes|
    ensures nodes[h].key in ItemsMap(items) && ItemsMap(items)[nodes[h].key] == nodes[h].value
    ensures nodes[h].value != VNil && nodes[h].hash == HashOf(nodes[h].key)
  {
    hide HashOf, Linked, HomesTaken, Placed;
    assert Owns(nodes[h], items[l.owner[h]]);
    ItemInMap(items, l.owner[h]);
  }

  lemma ItemHasNode(nodes: seq<Node>, items: seq<Item>, l: Layout, k: Key) returns (h: nat)
    requires ProperItems(items) && Complete(nodes, items, l) && k in ItemsMap(items)
    ensures h < |nodes| && nodes[h].key == k
  {
    hide HashOf, Linked, HomesTaken;
    var j := MapHasItem(items, k);
    h := l.place[j];
    assert Owns(nodes[h], items[j]);
  }

  lemma NodesDiffer(nodes: seq<Node>, items: seq<Item>, l: Layout, g: nat, h: nat)
    requires ProperItems(items) && Complete(nodes, items, l) && g < h < |nodes|
    ensures nodes[g].key != nodes[h].key
  {
    hide HashOf, Linked, HomesTaken;
    assert l.place[l.owner[g]] == g && l.place[l.owner[h]] == h;
    assert Owns(nodes[g], items[l.owner[g]]) && Owns(nodes[h], items[l.owner[h]]);
    assert items[l.owner[g]].key != items[l.owner[h]].key;
  }

  /** What SetArray, AddHash and Finish leave behind stands for one map: slots first, then items. */
  lemma FinishedPacks(t: Shared, items: seq<Item>, l: Layout)
    requires ProperItems(items) && Complete(t.nodes, items, l) && |t.arr| <= MOST
    ensures Packs(t, MapOf(t.arr, items))
    ensures forall m | Packs(t, m) :: m == MapOf(t.arr, items)
  {
    hide Complete, ProperItems, MapOf;
    forall m | Packs(t, m) ensures m == MapOf(t.arr, items) {
      var items', l' :| ProperItems(items') && Complete(t.nodes, items', l') && m == MapOf(t.arr, items');
      SameMap(t, items, l, items', l');
    }
  }

  lemma SameMap(t: Shared, items: seq<Item>, l: Layout, items': seq<Item>, l': Layout)
    requires ProperItems(items) && Complete(t.nodes, items, l) && |t.arr| <= MOST
    requires ProperItems(items') && Complete(t.nodes, items', l')
    ensures MapOf(t.arr, items) == MapOf(t.arr, items')
  {
    hide Complete, ProperItems, MapOf;
    forall k ensures k in MapOf(t.arr, items) <==> k in MapOf(t.arr, items')
             ensures k in MapOf(t.arr, items) ==> MapOf(t.arr, items)[k] == MapOf(t.arr, items')[k]
    {
      MapAnswers(t, items, l, k);
      MapAnswers(t, items', l', k);
    }
  }

  // ----- lookup -----

  /** Where a walk along the links is: at the main slot g, or p places down its chain. */
  ghost predicate Stands(nodes: seq<Node>, l: Layout, n: nat, g: nat, p: int) {
    && n < |nodes| == |l.chains| && g < |nodes|
    && if p < 0 then p == -1 && n == g && IsMain(nodes, l, g) else p < |l.chains[g]| && l.chains[g][p] == n
  }

  lemma StartsSomewhere(nodes: seq<Node>, items: seq<Item>, l: Layout, n: nat) returns (g: nat, p: int)
    requires Complete(nodes, items, l) && n < |nodes|
    ensures Stands(nodes, l, n, g, p)
    ensures IsMain(nodes, l, n) ==> g == n && p == -1
    ensures nodes[n].nocolliding ==> IsMain(nodes, l, n) && l.chains[n] == []
    ensures forall q | 0 <= q < |l.chains[g]| :: 0 <= l.chains[g][q] < |nodes|
  {
    hide Home, Owns;
    if IsMain(nodes, l, n) {
      g, p := n, -1;
    } else {
      g := Home(nodes[n].hash, |nodes|);
      assert n in l.chains[g];
      var i :| 0 <= i < |l.chains[g]| && l.chains[g][i] == n;
      p := i;
    }
  }

  lemma NextStands(nodes: seq<Node>, items: seq<Item>, l: Layout, n: nat, g: nat, p: int)
    requires Complete(nodes, items, l) && Stands(nodes, l, n, g, p)
    ensures nodes[n].next < 0 ==> p + 1 == |l.chains[g]|
    ensures nodes[n].next >= 0 ==> Stands(nodes, l, nodes[n].next, g, p + 1)
  {
    hide Home, Owns, Placed;
  }

  /** A key that is there is in its home slot or on the chain behind it. */
  lemma KeyOnChain(nodes: seq<Node>, items: seq<Item>, l: Layout, x: nat)
    requires ProperItems(items) && Complete(nodes, items, l) && x < |nodes|
    ensures var g := Home(HashOf(nodes[x].key), |nodes|);
            IsMain(nodes, l, g) && (x == g || x in l.chains[g])
  {
    hide Home, HashOf;
    var j := l.owner[x];
    assert Owns(nodes[x], items[j]);
    var g := Home(items[j].hash, |nodes|);
    assert IsMain(nodes, l, g);
    if x != g {
      assert !IsMain(nodes, l, x);
    }
  }

  /** The slot that holds the key, or -1. A lone key in the home slot with another hash ends it early. */
  method LookupHash(t: Shared, key: Key, hash: nat, ghost items: seq<Item>, ghost l: Layout) returns (at: int)
    requires ProperItems(items) && Complete(t.nodes, items, l) && hash == HashOf(key)
    ensures -1 <= at < |t.nodes|
    ensures at >= 0 ==> t.nodes[at].key == key
    ensures at < 0 ==> forall h | 0 <= h < |t.nodes| :: t.nodes[h].key != key
  {
    hide Complete, ProperItems, HashOf, Home, IsMain;
    if t.nodes == [] {
      return -1;
    }
    var n: nat := Home(hash, |t.nodes|);
    ghost var start := n;
    ghost var g, p := StartsSomewhere(t.nodes, items, l, n);
    forall h | 0 <= h < |t.nodes| && t.nodes[h].key == key
      ensures IsMain(t.nodes, l, start) && (h == start || h in l.chains[start])
    {
      KeyOnChain(t.nodes, items, l, h);
    }
    if hash != t.nodes[n].hash && t.nodes[n].nocolliding {
      HashesAreRight(t.nodes, items, l, n);
      return -1;
    }
    while true
      invariant n < |t.nodes| && Stands(t.nodes, l, n, g, p)
      invariant forall q | 0 <= q < |l.chains[g]| :: 0 <= l.chains[g][q] < |t.nodes|
      invariant IsMain(t.nodes, l, start) ==> g == start
      invariant IsMain(t.nodes, l, start) ==> forall q | 0 <= q < p :: t.nodes[l.chains[g][q]].key != key
      invariant IsMain(t.nodes, l, start) && p >= 0 ==> t.nodes[g].key != key
      decreases |l.chains[g]| - p
    {
      HashesAreRight(t.nodes, items, l, n);
      if hash == t.nodes[n].hash && t.nodes[n].key == key {
        return n;
      }
      NextStands(t.nodes, items, l, n, g, p);
      if t.nodes[n].next < 0 {
        return -1;
      }
      n := t.nodes[n].next;
      p := p + 1;
    }
  }

  lemma HashesAreRight(nodes: seq<Node>, items: seq<Item>, l: Layout, n: nat)
    requires ProperItems(items) && Complete(nodes, items, l) && n < |nodes|
    ensures nodes[n].hash == HashOf(nodes[n].key)
  {
    hide HashOf, Home;
    assert Owns(nodes[n], items[l.owner[n]]);
  }

  /** nil and no entry look the same from Lua. */
  function Plain(r: Option<SharedValue>): Option<SharedValue> {
    if r == Some(VNil) then None else r
  }

  /** Lookup gives the map's answer for every key, there or not, however hashes collide. */
  method Lookup(t: Shared, key: Key, ghost m: map<Key, SharedValue>) returns (r: Option<SharedValue>)
    requires Packs(t, m)
    ensures Plain(r) == if key in m then Some(m[key]) else None
  {
    ghost var items, l :| ProperItems(items) && Complete(t.nodes, items, l) && m == MapOf(t.arr, items);
    MapAnswers(t, items, l, key);
    hide Complete, ProperItems, MapOf, HashOf;
    if InArray(t.arr, key) {
      return Some(t.arr[key.n - 1]);
    }
    var at := LookupHash(t, key, HashOf(key), items, l);
    r := if at >= 0 then Some(t.nodes[at].value) else None;
  }

  lemma MapAnswers(t: Shared, items: seq<Item>, l: Layout, key: Key)
    requires ProperItems(items) && Complete(t.nodes, items, l) && |t.arr| <= MOST
    ensures var m := MapOf(t.arr, items);
            && (InArray(t.arr, key) ==>
                  && (key in m <==> t.arr[key.n - 1] != VNil)
                  && (key in m ==> m[key] == t.arr[key.n - 1]))
            && (!InArray(t.arr, key) ==>
                  && (key in m <==> exists h :: 0 <= h < |t.nodes| && t.nodes[h].key == key)
                  && (forall h | 0 <= h < |t.nodes| && t.nodes[h].key == key ::
                        m[key] == t.nodes[h].value && m[key] != VNil))
  {
    ArrayMapIs(t.arr, key);
    hide Complete, ProperItems, ItemsMap, ArrayMap;
    if !InArray(t.arr, key) {
      forall h | 0 <= h < |t.nodes| && t.nodes[h].key == key
        ensures key in ItemsMap(items) && ItemsMap(items)[key] == t.nodes[h].value != VNil
      {
        NodeIsItem(t.nodes, items, l, h);
      }
      if key in ItemsMap(items) {
        var h := ItemHasNode(t.nodes, items, l, key);
      }
    }
  }
}
