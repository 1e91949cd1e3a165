/**
 Going through a packed table key by key, each call given the key of the last one, and the integer 0
 standing for "from the start".
 */
module SharedIteration {
  import opened LuaValue
  import opened SharedTable
  import opened SharedLookup

  const START := IntKey(0)

  // ----- positions: the slots, then the hash part -----

  function Size(t: Shared): nat {
    |t.arr| + |t.nodes|
  }

  function KeyAt(t: Shared, p: nat): Key
    requires p < Size(t) && |t.arr| <= MOST
  {
    if p < |t.arr| then IntKey(p + 1) else t.nodes[p - |t.arr|].key
  }

  function ValueAt(t: Shared, p: nat): SharedValue
    requires p < Size(t)
  {
    if p < |t.arr| then t.arr[p] else t.nodes[p - |t.arr|].value
  }

  /** The first position from p on that is not nil, or the end. */
  function FirstFrom(t: Shared, p: nat): (q: nat)
    requires p <= Size(t)
    ensures p <= q <= Size(t)
    ensures q < Size(t) ==> ValueAt(t, q) != VNil
    ensures forall i | p <= i < q :: ValueAt(t, i) == VNil
    decreases Size(t) - p
  {
    if p == Size(t) || ValueAt(t, p) != VNil then p else FirstFrom(t, p + 1)
  }

  function FindNode(nodes: seq<Node>, k: Key, h: nat): (r: int)
    requires h <= |nodes|
    ensures r == -1 || (h <= r < |nodes| && nodes[r].key == k)
    ensures r == -1 ==> forall i | h <= i < |nodes| :: nodes[i].key != k
    decreases |nodes| - h
  {
    if h == |nodes| then -1 else if nodes[h].key == k then h else FindNode(nodes, k, h + 1)
  }

  /** The position one call of NextKey leads to. */
  function Next(t: Shared, prev: Key): (q: nat)
    ensures q <= Size(t)
  {
    if prev == START then FirstFrom(t, 0)
    else if InArray(t.arr, prev) then FirstFrom(t, prev.n)
    else
      var h := FindNode(t.nodes, prev, 0);
      FirstFrom(t, if h >= 0 then |t.arr| + h + 1 else |t.arr|)
  }

  /** Keys differ, the hash part is full and repeats no slot. */
  ghost predicate Iterable(t: Shared) {
    && |t.arr| <= MOST
    && (forall h | 0 <= h < |t.nodes| :: t.nodes[h].value != VNil && !InArray(t.arr, t.nodes[h].key))
    && (forall g, h | 0 <= g < h < |t.nodes| :: t.nodes[g].key != t.nodes[h].key)
  }

  lemma PackedIsIterable(t: Shared, items: seq<Item>, l: Layout)
    requires ProperItems(items) && Complete(t.nodes, items, l) && |t.arr| <= MOST
    requires forall j | 0 <= j < |items| :: !InArray(t.arr, items[j].key)
    ensures Iterable(t)
  {
    hide Complete, ProperItems;
    forall h | 0 <= h < |t.nodes| ensures t.nodes[h].value != VNil && !InArray(t.arr, t.nodes[h].key) {
      NodeIsItem(t.nodes, items, l, h);
      var j := MapHasItem(items, t.nodes[h].key);
    }
    forall g, h | 0 <= g < h < |t.nodes| ensures t.nodes[g].key != t.nodes[h].key {
      NodesDiffer(t.nodes, items, l, g, h);
    }
  }

  // ----- the code -----

  method NextHashSlot(t: Shared, start: nat) returns (p: nat)
    requires start <= |t.nodes|
    ensures p == FirstFrom(t, |t.arr| + start)
  {
    var i := start;
    while i < |t.nodes|
      invariant start <= i <= |t.nodes| && FirstFrom(t, |t.arr| + i) == FirstFrom(t, |t.arr| + start)
    {
      if t.nodes[i].value != VNil {
        return |t.arr| + i;
      }
      i := i + 1;
    }
    p := |t.arr| + i;
  }

  method NextArraySlot(t: Shared, start: nat) returns (p: nat)
    requires start <= |t.arr|
    ensures p == FirstFrom(t, start)
  {
    var i := start;
    while i < |t.arr|
      invariant start <= i <= |t.arr| && FirstFrom(t, i) == FirstFrom(t, start)
    {
      if t.arr[i] != VNil {
        return i;
      }
      i := i + 1;
    }
    p := NextHashSlot(t, 0);
  }

  method NextKey(t: Shared, prev: Key, ghost items: seq<Item>, ghost l: Layout) returns (r: Option<(Key, SharedValue)>)
    requires ProperItems(items) && Complete(t.nodes, items, l) && |t.arr| <= MOST
    ensures var q := Next(t, prev); r == if q < Size(t) then Some((KeyAt(t, q), ValueAt(t, q))) else None
  {
    hide Complete, ProperItems, HashOf, FirstFrom;
    var q: nat;
    if prev == START {
      q := NextArraySlot(t, 0);
    } else if InArray(t.arr, prev) {
      q := NextArraySlot(t, prev.n);
    } else {
      var at := LookupHash(t, prev, HashOf(prev), items, l);
      if at >= 0 {
        SameNode(t, items, l, prev, at);
        q := NextHashSlot(t, at + 1);
      } else {
        q := NextHashSlot(t, 0);
      }
    }
    r := if q < Size(t) then Some((KeyAt(t, q), ValueAt(t, q))) else None;
  }

  lemma SameNode(t: Shared, items: seq<Item>, l: Layout, k: Key, at: nat)
    requires ProperItems(items) && Complete(t.nodes, items, l) && at < |t.nodes| && t.nodes[at].key == k
    ensures FindNode(t.nodes, k, 0) == at
  {
    hide Complete, ProperItems;
    var h := FindNode(t.nodes, k, 0);
    if h < at {
      NodesDiffer(t.nodes, items, l, h, at);
    } else if at < h {
      NodesDiffer(t.nodes, items, l, at, h);
    }
  }

  // ----- whole iterations -----

  /** Where the (n+1)-th call leads, if the first starts at START. */
  ghost function Visit(t: Shared, n: nat): (p: nat)
    requires |t.arr| <= MOST
    ensures p <= Size(t)
  {
    if n == 0 then Next(t, START)
    else if Visit(t, n - 1) == Size(t) then Size(t)
    else Next(t, KeyAt(t, Visit(t, n - 1)))
  }

  /** The entries that are not nil, in order. */
  ghost function Live(t: Shared, p: nat): seq<nat>
    requires p <= Size(t)
    decreases Size(t) - p
  {
    if p == Size(t) then []
    else if ValueAt(t, p) != VNil then [p] + Live(t, p + 1)
    else Live(t, p + 1)
  }

  lemma {:induction false} LiveIsAll(t: Shared, p: nat)
    requires p <= Size(t)
    ensures forall q: nat :: q in Live(t, p) <==> p <= q < Size(t) && ValueAt(t, q) != VNil
    ensures forall i, j | 0 <= i < j < |Live(t, p)| :: Live(t, p)[i] < Live(t, p)[j]
    decreases Size(t) - p
  {
    if p < Size(t) {
      LiveIsAll(t, p + 1);
      LiveStep(t, p);
      hide Live, ValueAt;
      if ValueAt(t, p) != VNil {
        Ahead(p, Live(t, p + 1), Live(t, p));
      } else {
        assert [] + Live(t, p + 1) == Live(t, p + 1);
      }
    }
  }

  lemma Ahead(p: nat, rest: seq<nat>, all: seq<nat>)
    requires all == [p] + rest && (forall q | q in rest :: p < q)
    requires forall i, j | 0 <= i < j < |rest| :: rest[i] < rest[j]
    ensures forall q: nat :: q in all <==> q == p || q in rest
    ensures forall i, j | 0 <= i < j < |all| :: all[i] < all[j]
  {
    assert forall i | 0 <= i < |rest| :: rest[i] in rest && all[i + 1] == rest[i];
  }

  lemma LiveStep(t: Shared, p: nat)
    requires p < Size(t)
    ensures Live(t, p) == (if ValueAt(t, p) != VNil then [p] else []) + Live(t, p + 1)
  {
  }

  lemma {:induction false} FirstIsLive(t: Shared, p: nat)
    requires p <= Size(t)
    ensures FirstFrom(t, p) == if Live(t, p) == [] then Size(t) else Live(t, p)[0]
    decreases Size(t) - p
  {
    if p < Size(t) && ValueAt(t, p) == VNil {
      FirstIsLive(t, p + 1);
    }
  }

  lemma {:induction false} AfterIsLive(t: Shared, p: nat, i: nat)
    requires p <= Size(t) && i < |Live(t, p)|
    ensures Live(t, p)[i] < Size(t)
    ensures FirstFrom(t, Live(t, p)[i] + 1) == if i + 1 < |Live(t, p)| then Live(t, p)[i + 1] else Size(t)
    decreases Size(t) - p
  {
    assert p < Size(t);
    LiveStep(t, p);
    hide *;
    var live, rest := Live(t, p), Live(t, p + 1);
    if ValueAt(t, p) == VNil {
      assert live == rest;
      AfterIsLive(t, p + 1, i);
    } else {
      assert live[i] == (if i == 0 then p else rest[i - 1]) && |live| == 1 + |rest|;
      assert i + 1 < |live| ==> live[i + 1] == rest[i];
      if i == 0 {
        FirstIsLive(t, p + 1);
        assert rest == [] <==> i + 1 == |live|;
      } else {
        AfterIsLive(t, p + 1, i - 1);
      }
    }
  }

  /** Any key but the integer 0 leads on from its own position. */
  lemma NextOfPosition(t: Shared, p: nat)
    requires Iterable(t) && p < Size(t) && KeyAt(t, p) != START
    ensures Next(t, KeyAt(t, p)) == FirstFrom(t, p + 1)
  {
    if p >= |t.arr| {
      var h := FindNode(t.nodes, KeyAt(t, p), 0);
      assert h == p - |t.arr|;
    }
  }

  lemma VisitStep(t: Shared, n: nat)
    requires |t.arr| <= MOST
    ensures Visit(t, 0) == FirstFrom(t, 0)
    ensures n > 0 && Visit(t, n - 1) == Size(t) ==> Visit(t, n) == Size(t)
    ensures n > 0 && Visit(t, n - 1) < Size(t) ==>
              && Visit(t, n) == Next(t, KeyAt(t, Visit(t, n - 1)))
              && (KeyAt(t, Visit(t, n - 1)) == START ==> Visit(t, n) == FirstFrom(t, 0))
  {
    hide FirstFrom, KeyAt;
  }

  /** From the k-th live entry on to the next one. */
  lemma NextLive(t: Shared, k: nat)
    requires Iterable(t) && k < |Live(t, 0)|
    ensures Live(t, 0)[k] < Size(t)
    ensures KeyAt(t, Live(t, 0)[k]) != START ==>
              Next(t, KeyAt(t, Live(t, 0)[k])) == if k + 1 < |Live(t, 0)| then Live(t, 0)[k + 1] else Size(t)
  {
    AfterIsLive(t, 0, k);
    var p := Live(t, 0)[k];
    hide Live, FirstFrom, Next;
    if KeyAt(t, p) != START {
      NextOfPosition(t, p);
    }
  }

  lemma FirstLive(t: Shared)
    ensures FirstFrom(t, 0) == if Live(t, 0) == [] then Size(t) else Live(t, 0)[0]
  {
    FirstIsLive(t, 0);
  }

  ghost predicate NoStart(t: Shared) {
    forall h | 0 <= h < |t.nodes| :: t.nodes[h].key != START
  }

  lemma KeyIsOther(t: Shared, p: nat)
    requires |t.arr| <= MOST && p < Size(t) && NoStart(t)
    ensures KeyAt(t, p) != START
  {
  }

  lemma OneLater(t: Shared, n: nat)
    requires Iterable(t) && NoStart(t) && n < |Live(t, 0)| && Visit(t, n) == Live(t, 0)[n]
    ensures Visit(t, n + 1) == if n + 1 < |Live(t, 0)| then Live(t, 0)[n + 1] else Size(t)
  {
    assert |t.arr| <= MOST;
    NextLive(t, n);
    KeyIsOther(t, Live(t, 0)[n]);
    hide Live, FirstFrom, Next, Iterable, KeyAt, NoStart;
  }

  lemma StaysAtEnd(t: Shared, n: nat)
    requires |t.arr| <= MOST && Visit(t, n) == Size(t)
    ensures Visit(t, n + 1) == Size(t)
  {
  }

  lemma StartsAtFirst(t: Shared)
    requires |t.arr| <= MOST
    ensures Visit(t, 0) == if Live(t, 0) == [] then Size(t) else Live(t, 0)[0]
  {
    FirstIsLive(t, 0);
    hide Live, FirstFrom;
  }

  lemma {:induction false} EachOnce(t: Shared, n: nat)
    requires Iterable(t) && |t.arr| <= MOST && NoStart(t)
    ensures Visit(t, n) == if n < |Live(t, 0)| then Live(t, 0)[n] else Size(t)
  {
    hide *;
    if n == 0 {
      StartsAtFirst(t);
    } else {
      EachOnce(t, n - 1);
      if n - 1 < |Live(t, 0)| {
        OneLater(t, n - 1);
      } else {
        StaysAtEnd(t, n - 1);
      }
    }
  }

  /** Without the key 0, each entry that is not nil is visited once, in order, and then it ends. */
  lemma VisitsEachOnce(t: Shared, n: nat)
    requires Iterable(t) && forall h | 0 <= h < |t.nodes| :: t.nodes[h].key != START
    ensures Visit(t, n) == if n < |Live(t, 0)| then Live(t, 0)[n] else Size(t)
  {
    assert NoStart(t);
    hide Live, Visit, Iterable;
    EachOnce(t, n);
  }

  /** 0, 1, ... up to last, and over again. */
  ghost function Round(n: nat, last: nat): (r: nat)
    ensures r <= last
  {
    if n == 0 || Round(n - 1, last) == last then 0 else Round(n - 1, last) + 1
  }

  /** With it, the entries up to that one are visited over and over. */
  lemma {:induction false} VisitsOverAndOver(t: Shared, n: nat, z: nat)
    requires Iterable(t) && z < |Live(t, 0)| && Live(t, 0)[z] < Size(t) && KeyAt(t, Live(t, 0)[z]) == START
    ensures Visit(t, n) == Live(t, 0)[Round(n, z)]
  {
    assert |t.arr| <= MOST;
    hide Live, FirstFrom, Visit, Next, Iterable, KeyAt;
    VisitStep(t, n);
    FirstLive(t);
    if n > 0 {
      VisitsOverAndOver(t, n - 1, z);
      var r := Round(n - 1, z);
      NextLive(t, r);
      if r < z {
        BeforeStart(t, r, z);
      }
    }
  }

  lemma BeforeStart(t: Shared, r: nat, z: nat)
    requires Iterable(t) && r < z < |Live(t, 0)| && Live(t, 0)[z] < Size(t) && KeyAt(t, Live(t, 0)[z]) == START
    ensures Live(t, 0)[r] < Size(t) && KeyAt(t, Live(t, 0)[r]) != START
  {
    LiveIsAll(t, 0);
    hide Live;
    OnlyOneStart(t, Live(t, 0)[r], Live(t, 0)[z]);
  }

  lemma OnlyOneStart(t: Shared, p: nat, q: nat)
    requires Iterable(t) && p < q < Size(t)
    ensures KeyAt(t, p) != KeyAt(t, q)
  {
  }

  /** Iteration comes to an end exactly for the tables that do not have the integer key 0. */
  lemma EndsUnlessZero(t: Shared)
    requires Iterable(t)
    ensures (exists n :: Visit(t, n) == Size(t)) <==> (forall h | 0 <= h < |t.nodes| :: t.nodes[h].key != START)
  {
    if forall h | 0 <= h < |t.nodes| :: t.nodes[h].key != START {
      VisitsEachOnce(t, |Live(t, 0)|);
    } else {
      var h :| 0 <= h < |t.nodes| && t.nodes[h].key == START;
      assert ValueAt(t, |t.arr| + h) != VNil;
      LiveIsAll(t, 0);
      assert |t.arr| + h in Live(t, 0);
      var z :| 0 <= z < |Live(t, 0)| && Live(t, 0)[z] == |t.arr| + h;
      forall n: nat ensures Visit(t, n) != Size(t) {
        VisitsOverAndOver(t, n, z);
      }
    }
  }

  const ONLY_ZERO := Shared([], [Node(START, 0, VAtom(Boolean(true)), -1, true)])

  /** The smallest such table has that one entry, and every step leads back to it. */
  lemma {:induction false} NeverEnds(n: nat)
    ensures Iterable(ONLY_ZERO) && Packs(ONLY_ZERO, map[START := VAtom(Boolean(true))])
    ensures Visit(ONLY_ZERO, n) == 0 < Size(ONLY_ZERO)
  {
    OnlyZeroPacks();
    hide Packs;
    if n > 0 {
      NeverEnds(n - 1);
      assert FirstFrom(ONLY_ZERO, 0) == 0;
    }
  }

  lemma OnlyZeroPacks()
    ensures Packs(ONLY_ZERO, map[START := VAtom(Boolean(true))])
  {
    var items, l := OnlyZeroComplete();
    OnlyZeroMap(items);
    hide Complete, MapOf;
  }

  lemma OnlyZeroComplete() returns (items: seq<Item>, l: Layout)
    ensures items == [Item(START, 0, VAtom(Boolean(true)))]
    ensures ProperItems(items) && Complete(ONLY_ZERO.nodes, items, l)
  {
    items, l := [Item(START, 0, VAtom(Boolean(true)))], Layout([0], map[0 := 0], {0}, [[]]);
    assert HashOf(START) == 0;
    assert Placed(l, 1) by {
      assert |{0}| == |map[0 := 0]| == 1;
    }
    assert Owned(ONLY_ZERO.nodes, items, l) by { hide Placed; }
    assert Home(0, 1) == 0;
    assert Linked(ONLY_ZERO.nodes, l);
    assert HomesTaken(ONLY_ZERO.nodes, items, l, 1);
    hide Owned, Linked, HomesTaken, Placed;
  }

  lemma OnlyZeroMap(items: seq<Item>)
    requires items == [Item(START, 0, VAtom(Boolean(true)))]
    ensures MapOf([], items) == map[START := VAtom(Boolean(true))]
  {
    assert items[..0] == [];
    assert ItemsMap(items[..0]) == map[];
    assert ItemsMap(items) == map[START := VAtom(Boolean(true))];
    hide ItemsMap;
    assert ArrayMap([]) == map[];
  }
}
