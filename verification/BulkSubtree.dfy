/** `bulkloadSubtree`, `bulkloadToptree` and `bulkload`. Fill factors are given as the numbers of keys they stand for. */
module BulkSubtree {
  import opened Types
  import opened LeafNode
  import opened Levels
  import opened InnerNode
  import opened Pending
  import opened MemPool
  import opened Grouping
  import opened BulkRows
  import opened BulkTree

  // ---------------------------------------------------------------- node counts

  /** Step 2: the number of nodes of each level, up to a level with one node or to `target`. */
  method Counts(count0: seq<nat>, f: nat, target: nat) returns (count: seq<nat>)
    requires count0 != [] && 1 <= f <= NON_LEAF_KEY_NUM && count0[|count0| - 1] > 0
    ensures count0 <= count && forall l :: |count0| <= l < |count| ==> count[l] == Ceiling(count[l - 1], f + 1)
    ensures forall l :: |count0| - 1 <= l < |count| ==> count[l] > 0
    ensures (count[|count| - 1] == 1 || |count| > target) && (|count| == |count0| || |count| <= target + 1)
    ensures forall l :: |count0| - 1 <= l < |count| - 1 ==> count[l] > 1
  {
    count := count0;
    while count[|count| - 1] > 1 && |count| <= target
      invariant count0 <= count && forall l :: |count0| <= l < |count| ==> count[l] == Ceiling(count[l - 1], f + 1)
      invariant forall l :: |count0| - 1 <= l < |count| ==> count[l] > 0
      invariant |count| == |count0| || |count| <= target + 1
      invariant forall l :: |count0| - 1 <= l < |count| - 1 ==> count[l] > 1
      decreases target - |count|
    {
      CeilingHalf(count[|count| - 1], f + 1);
      count := count + [Ceiling(count[|count| - 1], f + 1)];
    }
  }

  /** The nodes of the levels `from` to `l - 1` */
  function SumOf(count: seq<nat>, from: nat, l: nat): nat
    requires l <= |count|
  {
    if l <= from then 0 else SumOf(count, from, l - 1) + count[l - 1]
  }

  /** The nodes above a level of `m` nodes, on at most `levels` levels. */
  function Uppers(m: nat, F: Size, levels: nat): nat
    decreases levels
  {
    if m <= 1 || levels == 0 then 0 else Ceiling(m, F) + Uppers(Ceiling(m, F), F, levels - 1)
  }

  lemma {:induction false} SumMore(count: seq<nat>, from: nat, l: nat, l': nat)
    requires l <= l' <= |count|
    ensures SumOf(count, from, l) <= SumOf(count, from, l')
    decreases l'
  {
    if l < l' { SumMore(count, from, l, l' - 1); }
  }

  lemma {:induction false} SumSplit(count: seq<nat>, from: nat)
    requires from < |count|
    ensures SumOf(count, from, |count|) == count[from] + SumOf(count, from + 1, |count|)
  {
    SumSplitAt(count, from, |count|);
  }

  lemma {:induction false} SumSplitAt(count: seq<nat>, from: nat, l: nat)
    requires from < l <= |count|
    ensures SumOf(count, from, l) == count[from] + SumOf(count, from + 1, l)
    decreases l
  {
    if from + 1 < l { SumSplitAt(count, from, l - 1); }
  }

  /** What `Counts` computes, added up. */
  lemma {:induction false} CountsTotal(count: seq<nat>, F: Size, from: nat, target: nat)
    requires 0 < from <= |count| <= target + 1 && (count[|count| - 1] == 1 || |count| > target)
    requires (forall l :: from <= l < |count| ==> count[l] == Ceiling(count[l - 1], F)) && forall l :: from - 1 <= l < |count| - 1 ==> count[l] > 1
    ensures SumOf(count, from, |count|) == Uppers(count[from - 1], F, target + 1 - from)
    decreases |count| - from
  {
    if from < |count| {
      SumSplit(count, from);
      CountsTotal(count, F, from + 1, target);
    }
  }

  function Pow2(n: nat): nat { if n == 0 then 1 else 2 * Pow2(n - 1) }

  /** With 31 levels to go up, `Pow2(31)` nodes always come down to one. */
  lemma {:induction false} CountsShrink(count: seq<nat>, f: nat, l: nat, from: nat)
    requires 1 <= f && from <= l < |count| && l <= 31 && count[from] <= Pow2(31 - from)
    requires forall i :: from < i < |count| ==> count[i] == Ceiling(count[i - 1], f + 1)
    ensures count[l] <= Pow2(31 - l)
    decreases l
  {
    if l > from {
      CountsShrink(count, f, l - 1, from);
      CeilingHalf(count[l - 1], f + 1);
    }
  }

  lemma {:induction false} Pow31()
    ensures Pow2(31) == 0x8000_0000
  {
    assert Pow2(8) == 256;
    assert Pow2(16) == 0x1_0000;
    assert Pow2(24) == 0x100_0000;
  }

  // ---------------------------------------------------------------- leaves

  /** Memory just allocated holds anything. */
  method LeafMemory() returns (raw: RawLeaf) {
    raw := *;
  }

  method InnerMemory() returns (raw: RawInner) {
    raw := *;
  }

  /** Step 4, one leaf: the keys go into the last slots, so that the first line tends to stay empty. */
  method FillLeaf(ks: seq<Key>, fgpt0: seq<byte>, next: Ptr) returns (x: Leaf, fgpt: seq<byte>)
    requires 0 < |ks| <= LEAF_KEY_NUM && Sorted(ks) && |fgpt0| == LEAF_KEY_NUM
    ensures LeafIs(x, ks) && x.next[0] == next && x.m.alt == 0 && |fgpt| == LEAF_KEY_NUM && LastSlots(x, ks)
  {
    var raw := LeafMemory();
    var start := LEAF_KEY_NUM - |ks|;
    var bitmap := seq(LEAF_KEY_NUM, j => j >= start);
    var ent := raw.ent;
    fgpt := fgpt0;
    for j := start to LEAF_KEY_NUM
      invariant |ent| == |fgpt| == LEAF_KEY_NUM
      invariant forall i :: start <= i < j ==> ent[i] == IdxEntry(ks[i - start], ks[i - start]) && fgpt[i] == hashcode1B(ks[i - start])
    {
      var mykey := ks[j - start];
      ent := ent[j := IdxEntry(mykey, mykey)];
      fgpt := fgpt[j := hashcode1B(mykey)];
    }
    x := Leaf(Meta(bitmap, false, 0, fgpt), ent, [next, NULL]);
    FilledLeaf(x, ks, start);
  }

  lemma {:induction false} FilledLeaf(x: Leaf, ks: seq<Key>, start: nat)
    requires x.Shape() && Sorted(ks) && start + |ks| == LEAF_KEY_NUM && !x.m.lock
    requires forall i :: 0 <= i < LEAF_KEY_NUM ==> x.m.bitmap[i] == (i >= start)
    requires forall i :: start <= i < LEAF_KEY_NUM ==> x.ent[i] == IdxEntry(ks[i - start], ks[i - start]) && x.m.fgpt[i] == hashcode1B(ks[i - start])
    ensures LeafIs(x, ks)
  {
    forall e | e in EntrySet(ks) ensures e in Entries(x) {
      var i :| 0 <= i < |ks| && e == IdxEntry(ks[i], ks[i]);
      assert x.ent[start + i] == e;
    }
    forall e | e in Entries(x) ensures e in EntrySet(ks) {
      var i :| 0 <= i < LEAF_KEY_NUM && x.m.bitmap[i] && e == x.ent[i];
      assert e == IdxEntry(ks[i - start], ks[i - start]);
    }
    forall i, j | 0 <= i < j < LEAF_KEY_NUM && x.m.bitmap[i] && x.m.bitmap[j] ensures x.ent[i].k != x.ent[j].k { assert ks[i - start] < ks[j - start]; }
  }

  lemma {:induction false} OffsetEven(G: seq<seq<Key>>, F: Size, j: nat)
    requires Even(G, F) && j < |G|
    ensures Offset(G, j) == j * F
    decreases j
  {
    if j > 0 {
      OffsetEven(G, F, j - 1);
      assert (j - 1) * F + F == j * F;
    }
  }

  /** Where the keys of leaf `i` lie, and how many they are. */
  lemma {:induction false} LeafKeys(keys: seq<Key>, lf: Size, i: nat)
    requires i < |Grouped(keys, lf)| && Sorted(keys)
    ensures var G := Grouped(keys, lf);
      && Offset(G, i) == i * lf && i * lf + |G[i]| <= |keys| && G[i] == keys[i * lf..i * lf + |G[i]|] && 0 < |G[i]| <= lf && Sorted(G[i])
      && |G[i]| == if i < |G| - 1 then lf else |keys| - (|G| - 1) * lf
  {
    var G := Grouped(keys, lf);
    GroupedEven(keys, lf);
    OffsetEven(G, lf, i);
    GroupAt(keys, lf, i);
    if i == |G| - 1 { LastGroup(keys, lf); }
  }

  lemma {:induction false} LastGroup(keys: seq<Key>, lf: Size)
    requires keys != []
    ensures var G := Grouped(keys, lf); G != [] && (|G| - 1) * lf + |G[|G| - 1]| == |keys|
  {
    var G := Grouped(keys, lf);
    GroupsThere(keys, lf);
    GroupedFlat(keys, lf);
    GroupedEven(keys, lf);
    OffsetEven(G, lf, |G| - 1);
    FlatSize(G);
  }

  lemma {:induction false} FlatSize(G: seq<seq<Key>>)
    ensures |Flat(G)| == Offset(G, |G|)
    decreases |G|
  {
    if G != [] {
      FlatSize(G[1..]);
      OffsetTail(G, |G|);
    }
  }

  // ---------------------------------------------------------------- placing nodes in memory

  /** An array of inner nodes at `base`. */
  function RowMap(base: Ptr, row: Row, size: nat): (m: map<Ptr, Inner>)
    requires size > 0
    ensures m.Keys == Nodes(base, |row|, size)
  {
    Spaced(base, |row|, size);
    map j | 0 <= j < |row| :: NodeAt(base, j, size) := row[j]
  }

  lemma {:induction false} RowMapAt(base: Ptr, row: Row, size: nat, j: nat)
    requires size > 0 && j < |row|
    ensures NodeAt(base, j, size) in RowMap(base, row, size) && RowMap(base, row, size)[NodeAt(base, j, size)] == row[j]
  {
    Spaced(base, |row|, size);
    assert NodeAt(base, j, size) in RowMap(base, row, size);
  }

  function LeafRowMap(base: Ptr, row: seq<Leaf>, size: nat): (m: map<Ptr, Leaf>)
    requires size > 0
    ensures m.Keys == Nodes(base, |row|, size)
  {
    Spaced(base, |row|, size);
    map j | 0 <= j < |row| :: NodeAt(base, j, size) := row[j]
  }

  lemma {:induction false} LeafRowMapAt(base: Ptr, row: seq<Leaf>, size: nat, j: nat)
    requires size > 0 && j < |row|
    ensures NodeAt(base, j, size) in LeafRowMap(base, row, size) && LeafRowMap(base, row, size)[NodeAt(base, j, size)] == row[j]
  {
    Spaced(base, |row|, size);
    assert NodeAt(base, j, size) in LeafRowMap(base, row, size);
  }

  function PtrRow(base: Ptr, n: nat, size: nat): seq<Ptr> { seq(n, j requires 0 <= j < n => NodeAt(base, j, size)) }

  lemma {:induction false} PtrRowDistinct(base: Ptr, n: nat, size: nat)
    requires size > 0
    ensures DistinctPtrs(PtrRow(base, n, size)) && forall j :: 0 <= j < n ==> PtrRow(base, n, size)[j] in Nodes(base, n, size)
  {
    Spaced(base, n, size);
  }

  /** The levels `from` to `l - 1` are in memory; beyond them `inner` is `inner0`. */
  predicate PlacedUpTo(inner: map<Ptr, Inner>, rows: seq<Row>, pfirst: seq<Ptr>, from: nat, l: nat, size: nat) {
    l <= |rows| && l <= |pfirst| && forall i, j :: from <= i < l && 0 <= j < |rows[i]| ==> SpotHolds(inner, pfirst[i], j, size, rows[i][j])
  }

  predicate SpotHolds(inner: map<Ptr, Inner>, base: Ptr, j: nat, size: nat, x: Inner) {
    NodeAt(base, j, size) in inner && inner[NodeAt(base, j, size)] == x
  }

  /** The arrays of the levels are apart from each other and from `used`. */
  ghost predicate Separate(pfirst: seq<Ptr>, count: seq<nat>, from: nat, l: nat, size: nat, used: set<Ptr>) {
    && l <= |pfirst| && l <= |count| && (forall i :: from <= i < l ==> Nodes(pfirst[i], count[i], size) !! used && pfirst[i] != NULL)
    && forall i, j :: from <= i < j < l ==> Nodes(pfirst[i], count[i], size) !! Nodes(pfirst[j], count[j], size)
  }

  function AllNodes(pfirst: seq<Ptr>, count: seq<nat>, from: nat, l: nat, size: nat): set<Ptr>
    requires l <= |pfirst| && l <= |count|
    decreases l
  {
    if l <= from then {} else AllNodes(pfirst, count, from, l - 1, size) + Nodes(pfirst[l - 1], count[l - 1], size)
  }

  lemma {:induction false} NodesOfAll(pfirst: seq<Ptr>, count: seq<nat>, from: nat, l: nat, size: nat, used: set<Ptr>, i: nat)
    requires Separate(pfirst, count, from, l, size, used) && from <= i < l
    ensures AllNodes(pfirst, count, from, i, size) !! Nodes(pfirst[i], count[i], size)
  {
    OutsideAll(pfirst, count, from, i, l, size, used, i);
  }

  lemma {:induction false} OutsideAll(pfirst: seq<Ptr>, count: seq<nat>, from: nat, k: nat, l: nat, size: nat, used: set<Ptr>, i: nat)
    requires Separate(pfirst, count, from, l, size, used) && k <= i && from <= i < l
    ensures AllNodes(pfirst, count, from, k, size) !! Nodes(pfirst[i], count[i], size)
    decreases k
  {
    hide Nodes;
    if k > from { OutsideAll(pfirst, count, from, k - 1, l, size, used, i); }
  }

  lemma {:induction false} AllOutsideUsed(pfirst: seq<Ptr>, count: seq<nat>, from: nat, k: nat, l: nat, size: nat, used: set<Ptr>)
    requires Separate(pfirst, count, from, l, size, used) && k <= l
    ensures AllNodes(pfirst, count, from, k, size) !! used
    decreases k
  {
    hide Nodes;
    if k > from { AllOutsideUsed(pfirst, count, from, k - 1, l, size, used); }
  }

  /** The finished arrays, put into the memory map. */
  method Place(inner0: map<Ptr, Inner>, rows: seq<Row>, pfirst: seq<Ptr>, ghost count: seq<nat>, from: nat, size: nat) returns (inner: map<Ptr, Inner>)
    requires size > 0 && from <= |rows| == |pfirst| == |count| && Separate(pfirst, count, from, |rows|, size, inner0.Keys)
    requires forall l :: from <= l < |rows| ==> |rows[l]| == count[l]
    ensures PlacedUpTo(inner, rows, pfirst, from, |rows|, size)
    ensures inner.Keys == inner0.Keys + AllNodes(pfirst, count, from, |rows|, size) && forall p :: p in inner0 ==> inner[p] == inner0[p]
  {
    inner := inner0;
    hide Nodes, NodeAt;
    for l := from to |rows|
      invariant PlacedUpTo(inner, rows, pfirst, from, l, size)
      invariant inner.Keys == inner0.Keys + AllNodes(pfirst, count, from, l, size) && forall p :: p in inner0 ==> inner[p] == inner0[p]
    {
      AllOutsideUsed(pfirst, count, from, l, |rows|, size, inner0.Keys);
      NodesOfAll(pfirst, count, from, |rows|, size, inner0.Keys, l);
      ghost var was := inner;
      inner := inner + RowMap(pfirst[l], rows[l], size);
      PlacedMore(was, inner, rows, pfirst, from, l, size);
    }
  }

  lemma {:induction false} PlacedMore(was: map<Ptr, Inner>, inner: map<Ptr, Inner>, rows: seq<Row>, pfirst: seq<Ptr>, from: nat, l: nat, size: nat)
    requires size > 0 && l < |rows| && l < |pfirst| && PlacedUpTo(was, rows, pfirst, from, l, size)
    requires inner == was + RowMap(pfirst[l], rows[l], size) && was.Keys !! Nodes(pfirst[l], |rows[l]|, size)
    ensures PlacedUpTo(inner, rows, pfirst, from, l + 1, size)
  {
    hide NodeAt, Nodes, RowMap;
    forall i, j | from <= i < l + 1 && 0 <= j < |rows[i]| ensures SpotHolds(inner, pfirst[i], j, size, rows[i][j]) {
      if i == l { RowMapAt(pfirst[l], rows[l], size, j); } else { assert SpotHolds(was, pfirst[i], j, size, rows[i][j]); }
    }
  }

  // ---------------------------------------------------------------- bulkloadSubtree

  /** `mempool_alloc` for the levels `from` to `|count| - 1` */
  method AllocRows(mempool: Mempool, pfirst0: seq<Ptr>, count: seq<nat>, from: nat) returns (pfirst: seq<Ptr>, ok: bool)
    requires mempool.Valid() && |pfirst0| == from <= |count| && forall l :: from <= l < |count| ==> count[l] > 0
    modifies mempool
    ensures mempool.Valid() && mempool.end == old(mempool.end) && mempool.free == old(mempool.free)
    ensures ok ==> pfirst0 <= pfirst && |pfirst| == |count| && Separate(pfirst, count, from, |count|, mempool.size, old(mempool.used))
    ensures ok ==> mempool.used == old(mempool.used) + AllNodes(pfirst, count, from, |count|, mempool.size)
    ensures ok <==> Enough(old(mempool.cur), SumOf(count, from, |count|), mempool.size, mempool.end)
    ensures ok ==> Moved(old(mempool.cur), SumOf(count, from, |count|), mempool.size, mempool.cur)
  {
    hide Mempool.Valid, Nodes, Enough, Moved;
    NotMoved(mempool.cur, mempool.size);
    NoneNeeded(mempool);
    pfirst, ok := pfirst0, true;
    while ok && |pfirst| < |count|
      invariant from <= |pfirst| <= |count| && pfirst0 <= pfirst && mempool.Valid() && mempool.end == old(mempool.end) && mempool.free == old(mempool.free)
      invariant ok ==> Separate(pfirst, count, from, |pfirst|, mempool.size, old(mempool.used))
      invariant ok ==> mempool.used == old(mempool.used) + AllNodes(pfirst, count, from, |pfirst|, mempool.size)
      invariant ok ==> Moved(old(mempool.cur), SumOf(count, from, |pfirst|), mempool.size, mempool.cur)
      invariant !ok ==> |pfirst| < |count| && !Enough(old(mempool.cur), SumOf(count, from, |pfirst| + 1), mempool.size, mempool.end)
      invariant ok ==> Enough(old(mempool.cur), SumOf(count, from, |pfirst|), mempool.size, mempool.end)
      decreases |count| - |pfirst|, ok
    {
      var l := |pfirst|;
      MoveOn(old(mempool.cur), SumOf(count, from, l), count[l], mempool.size, mempool.cur, mempool.end);
      var p := mempool.Alloc(count[l]);
      if p == None {
        ok := false;
      } else {
        SeparateMore(pfirst, count, from, l, mempool.size, old(mempool.used), p.value);
        pfirst := pfirst + [p.value];
      }
    }
    if !ok {
      SumMore(count, from, |pfirst| + 1, |count|);
      if Enough(old(mempool.cur), SumOf(count, from, |count|), mempool.size, mempool.end) {
        EnoughFewer(old(mempool.cur), SumOf(count, from, |pfirst| + 1), SumOf(count, from, |count|), mempool.size, mempool.end);
      }
    }
  }

  lemma {:induction false} NoneNeeded(pool: Mempool)
    requires pool.Valid()
    ensures Enough(pool.cur, 0, pool.size, pool.end)
  {
  }

  lemma {:induction false} SeparateMore(pfirst: seq<Ptr>, count: seq<nat>, from: nat, l: nat, size: nat, used: set<Ptr>, p: Ptr)
    requires from <= l == |pfirst| < |count| && Separate(pfirst, count, from, l, size, used) && p != NULL
    requires Nodes(p, count[l], size) !! used + AllNodes(pfirst, count, from, l, size)
    ensures Separate(pfirst + [p], count, from, l + 1, size, used)
    ensures AllNodes(pfirst + [p], count, from, l + 1, size) == AllNodes(pfirst, count, from, l, size) + Nodes(p, count[l], size)
  {
    hide Nodes;
    var pf := pfirst + [p];
    forall i | from <= i < l ensures Nodes(pfirst[i], count[i], size) <= AllNodes(pfirst, count, from, l, size) { NodesIn(pfirst, count, from, l, size, i); }
    SameAll(pfirst, pf, count, from, l, size);
    forall i, j | from <= i < j < l + 1 ensures Nodes(pf[i], count[i], size) !! Nodes(pf[j], count[j], size) { assert pf[i] == pfirst[i]; }
    forall i | from <= i < l + 1 ensures Nodes(pf[i], count[i], size) !! used && pf[i] != NULL { if i < l { assert pf[i] == pfirst[i]; } }
  }

  lemma {:induction false} NodesIn(pfirst: seq<Ptr>, count: seq<nat>, from: nat, l: nat, size: nat, i: nat)
    requires l <= |pfirst| && l <= |count| && from <= i < l
    ensures Nodes(pfirst[i], count[i], size) <= AllNodes(pfirst, count, from, l, size)
    decreases l
  {
    hide Nodes;
    if i < l - 1 { NodesIn(pfirst, count, from, l - 1, size, i); }
  }

  lemma {:induction false} SameAll(pfirst: seq<Ptr>, pf: seq<Ptr>, count: seq<nat>, from: nat, l: nat, size: nat)
    requires l <= |pfirst| && l <= |pf| && l <= |count| && forall i :: from <= i < l ==> pf[i] == pfirst[i]
    ensures AllNodes(pf, count, from, l, size) == AllNodes(pfirst, count, from, l, size)
    decreases l
  {
    hide Nodes;
    if l > from { SameAll(pfirst, pf, count, from, l - 1, size); }
  }

  /** Memory for a row of nodes just allocated, the first one started: `np->lock()= 0; np->num()= -1`. */
  method NewRow(n: nat) returns (row: Row)
    requires n > 0
    ensures |row| == n && (forall j :: 0 <= j < n ==> |row[j].ent| == NON_LEAF_KEY_NUM + 1) && row[0].num == -1 && !row[0].lock
  {
    row := [];
    for i := 0 to n
      invariant |row| == i && forall j :: 0 <= j < i ==> |row[j].ent| == NON_LEAF_KEY_NUM + 1
    {
      var raw := InnerMemory();
      row := row + [raw];
    }
    row := row[0 := row[0].(lock := false, num := -1)];
  }

  /** The rows of the levels `from` to `|count| - 1`, nothing in them yet. */
  method NewRows(count: seq<nat>, pfirst: seq<Ptr>, from: nat, f: nat, size: nat) returns (rows: seq<Row>, cur: seq<nat>, ghost A: seq<seq<IdxEntry>>)
    requires 1 <= from <= |count| == |pfirst| && 1 <= f && forall l :: from <= l < |count| ==> count[l] > 0 && count[l] == Ceiling(count[l - 1], f + 1)
    ensures RowsHold(rows, cur, count, pfirst, A, from, |count| - 1, f + 1, size) && forall l :: from <= l < |count| ==> A[l] == []
  {
    rows, cur, A := seq(from, _ => []), seq(|count|, _ => 0), seq(|count|, _ => []);
    hide Ceiling;
    for l := from to |count|
      invariant |rows| == l && forall i :: from <= i < l ==> RowHolds(rows[i], 0, [], f + 1, count[i])
    {
      var row := NewRow(count[l]);
      rows := rows + [row];
    }
    assert Grouped<IdxEntry>([], f + 1) == [];
    ghost var F, top: int := f + 1, |count| - 1;
    forall l | from <= l < top ensures LiesAbove(A, pfirst, l, F, size) { }
  }

  /** The lists of all levels of a finished load: the leaves, and on each level the nodes over the level below. */
  function LevelLists(A: seq<seq<IdxEntry>>, W0: seq<IdxEntry>, pfirst: seq<Ptr>, from: nat, top: nat, F: Size, size: nat): (W: seq<seq<IdxEntry>>)
    requires from <= top + 1 <= |A| && top < |pfirst|
    ensures |W| == top + 2 - from
  {
    [W0] + seq(top + 1 - from, i requires 0 <= i < top + 1 - from => Above(A[from + i], F, pfirst[from + i], size))
  }

  /** All nodes of the inner memory are in order and unlocked. */
  predicate InnersOk(inner: map<Ptr, Inner>) {
    forall p :: p in inner ==> NodeOk(inner[p]) && !inner[p].lock
  }

  /** The leaves in memory: leaf `j` holds group `j` and points to the next one. */
  predicate LeavesAre(leaf: map<Ptr, Leaf>, P: seq<Ptr>, G: seq<seq<Key>>) {
    |P| == |G| && forall j :: 0 <= j < |P| ==> LeafSpot(leaf, P, G, j)
  }

  predicate LeafSpot(leaf: map<Ptr, Leaf>, P: seq<Ptr>, G: seq<seq<Key>>, j: nat)
    requires |P| == |G| && j < |P|
  {
    P[j] in leaf && LeafRight(leaf[P[j]], G[j], NextPtr(P, j))
  }

  function NextPtr(P: seq<Ptr>, j: nat): Ptr { if j + 1 < |P| then P[j + 1] else NULL }

  predicate LeafRight(x: Leaf, ks: seq<Key>, next: Ptr) { LeafIs(x, ks) && x.m.alt == 0 && x.NextSibling() == next && LastSlots(x, ks) }

  /** The keys stand in the last slots, in order. */
  predicate LastSlots(x: Leaf, ks: seq<Key>) {
    && 0 < |ks| <= LEAF_KEY_NUM && |x.m.bitmap| == |x.ent| == LEAF_KEY_NUM && x.ent[LEAF_KEY_NUM - |ks|].k == ks[0]
    && (forall i :: 0 <= i < |ks| ==> x.ent[LEAF_KEY_NUM - |ks| + i] == IdxEntry(ks[i], ks[i]))
    && forall i :: 0 <= i < LEAF_KEY_NUM ==> x.m.bitmap[i] == (i >= LEAF_KEY_NUM - |ks|)
  }

  /** With `n` keys the first `14 - n` slots are free. */
  lemma {:induction false} LastSlotsAre(x: Leaf, ks: seq<Key>)
    requires LastSlots(x, ks)
    ensures |x.m.bitmap| == |x.ent| == 14 && forall i :: 0 <= i < 14 ==> if i < 14 - |ks| then !x.m.bitmap[i] else x.m.bitmap[i] && x.ent[i].k == x.ent[i].ch == ks[i - (14 - |ks|)]
  {
    forall i | 14 - |ks| <= i < 14 ensures x.ent[i].k == x.ent[i].ch == ks[i - (14 - |ks|)] { assert x.ent[LEAF_KEY_NUM - |ks| + (i - (14 - |ks|))] == IdxEntry(ks[i - (14 - |ks|)], ks[i - (14 - |ks|)]); }
  }

  /** Step 4 of `bulkloadSubtree`: fill the leaves one after the other, each going into the cascade with its first key. */
  method Populate(keys: seq<Key>, lf: nat, nodenum: nat, base: Ptr, leafSize: nat, rows0: seq<Row>, cur0: seq<nat>, count: seq<nat>, pfirst: seq<Ptr>, f: nat, size: nat,
                  ghost A0: seq<seq<IdxEntry>>)
    returns (lfs: seq<Leaf>, rows: seq<Row>, cur: seq<nat>, ghost A: seq<seq<IdxEntry>>)
    requires 1 <= lf <= LEAF_KEY_NUM && 1 <= f <= NON_LEAF_KEY_NUM && Sorted(keys) && nodenum == |Grouped(keys, lf)| && count != [] && count[0] == nodenum
    requires RowsHold(rows0, cur0, count, pfirst, A0, 1, |count| - 1, f + 1, size) && (|count| > 1 ==> A0[1] == [])
    ensures |lfs| == nodenum && forall j :: 0 <= j < nodenum ==> LeafRight(lfs[j], Grouped(keys, lf)[j], NextPtr(PtrRow(base, nodenum, leafSize), j))
    ensures RowsHold(rows, cur, count, pfirst, A, 1, |count| - 1, f + 1, size)
    ensures |count| > 1 ==> A[1] == LeafRow(Grouped(keys, lf), PtrRow(base, nodenum, leafSize))
  {
    hide RowsHold, Grouped, LeafRight, NodeAt, Sorted, LeafRow, Offset, NextPtr;
    ghost var G, P := Grouped(keys, lf), PtrRow(base, nodenum, leafSize);
    Sizes(rows0, cur0, count, pfirst, A0, 1, |count| - 1, f + 1, size);
    RowStart(G, P);
    rows, cur, A, lfs := rows0, cur0, A0, [];
    var keyId := 0;
    var fgpt: seq<byte> := seq(LEAF_KEY_NUM, _ => 0);
    for i := 0 to nodenum
      invariant |lfs| == i && |fgpt| == LEAF_KEY_NUM && keyId == Offset(G, i)
      invariant forall j :: 0 <= j < i ==> LeafRight(lfs[j], G[j], NextPtr(P, j))
      invariant RowsHold(rows, cur, count, pfirst, A, 1, |count| - 1, f + 1, size) && |A| == |count|
      invariant |count| > 1 ==> A[1] == LeafRow(G, P)[..i]
    {
      var x, leftKey;
      x, fgpt, leftKey, keyId := NextLeaf(keys, lf, nodenum, i, keyId, base, leafSize, fgpt);
      lfs := lfs + [x];
      if |count| > 1 {
        ghost var B := A[1];
        rows, cur, A := AppendUp(rows, cur, count, pfirst, 1, |count| - 1, f, size, NodeAt(base, i, leafSize), leftKey, A);
        Sizes(rows, cur, count, pfirst, A, 1, |count| - 1, f + 1, size);
        RowTaken(G, P, i, B, A[1]);
      }
    }
    assert LeafRow(G, P)[..nodenum] == LeafRow(G, P);
  }

  /** One leaf of `bulkloadSubtree`: how many keys it takes, and its contents. */
  method NextLeaf(keys: seq<Key>, lf: nat, nodenum: nat, i: nat, keyId0: nat, base: Ptr, leafSize: nat, fgpt0: seq<byte>)
    returns (x: Leaf, fgpt: seq<byte>, leftKey: Key, keyId: nat)
    requires 1 <= lf <= LEAF_KEY_NUM && Sorted(keys) && nodenum == |Grouped(keys, lf)| && i < nodenum && keyId0 == Offset(Grouped(keys, lf), i) && |fgpt0| == LEAF_KEY_NUM
    ensures var G, P := Grouped(keys, lf), PtrRow(base, nodenum, leafSize);
      && LeafRight(x, G[i], NextPtr(P, i)) && |fgpt| == LEAF_KEY_NUM && keyId == Offset(G, i + 1) && G[i] != [] && leftKey == G[i][0]
      && P[i] == NodeAt(base, i, leafSize)
  {
    hide Grouped, NodeAt, Sorted, LeafIs, LastSlots;
    LeafKeys(keys, lf, i);
    var fillnum := if i == nodenum - 1 then |keys| - (nodenum - 1) * lf else lf;
    var ks := keys[keyId0..keyId0 + fillnum];
    x, fgpt := FillLeaf(ks, fgpt0, if i < nodenum - 1 then NodeAt(base, i + 1, leafSize) else NULL);
    LeafWith(x, ks);
    leftKey, keyId := ks[0], keyId0 + fillnum;
  }

  lemma {:induction false} LeafWith(x: Leaf, ks: seq<Key>)
    requires LeafIs(x, ks)
    ensures x.Shape()
  {
  }

  lemma {:induction false} RowStart(G: seq<seq<Key>>, P: seq<Ptr>)
    requires |G| == |P|
    ensures Offset(G, 0) == 0 && LeafRow(G, P)[..0] == [] && |LeafRow(G, P)| == |G|
  {
  }

  lemma {:induction false} RowTaken(G: seq<seq<Key>>, P: seq<Ptr>, i: nat, B: seq<IdxEntry>, B': seq<IdxEntry>)
    requires |G| == |P| && i < |G| && G[i] != [] && B == LeafRow(G, P)[..i] && B' == B + [IdxEntry(G[i][0], P[i])]
    ensures B' == LeafRow(G, P)[..i + 1]
  {
  }

  /** A loaded subtree: `W[l]` is the list of level `l`, and `G` the keys of its leaves. */
  datatype Sub = Sub(top: nat, pfirst: seq<Ptr>, count: seq<nat>)

  ghost predicate SubOk(inner: map<Ptr, Inner>, leaf: map<Ptr, Leaf>, sub: Sub, W: seq<seq<IdxEntry>>, G: seq<seq<Key>>, P: seq<Ptr>) {
    SubNodes(inner, sub, W, G, P) && LeavesAre(leaf, P, G)
  }

  /** The inner part of a loaded subtree. */
  ghost predicate SubNodes(inner: map<Ptr, Inner>, sub: Sub, W: seq<seq<IdxEntry>>, G: seq<seq<Key>>, P: seq<Ptr>) {
    && |W| == sub.top + 1 == |sub.count| == |sub.pfirst| && Stacked(GraphOf(inner), W) && |G| == |P| && W[0] == LeafRow(G, P)
    && (forall l :: 0 <= l < |W| ==> |W[l]| == sub.count[l] > 0 && W[l][0].ch == sub.pfirst[l])
  }

  /** The nodes of the lists are new. */
  predicate NewNodes(inner0: map<Ptr, Inner>, W: seq<seq<IdxEntry>>) {
    forall l, j :: 0 < l < |W| && 0 <= j < |W[l]| ==> W[l][j].ch !in inner0
  }

  lemma {:induction false} ListsNew(inner0: map<Ptr, Inner>, A: seq<seq<IdxEntry>>, W0: seq<IdxEntry>, pfirst: seq<Ptr>, count: seq<nat>, from: nat, top: nat, F: Size, size: nat)
    requires from <= top + 1 <= |A| && top < |pfirst| && Separate(pfirst, count, from, top + 1, size, inner0.Keys)
    requires forall l :: from <= l <= top ==> |Above(A[l], F, pfirst[l], size)| == count[l]
    ensures NewNodes(inner0, LevelLists(A, W0, pfirst, from, top, F, size))
  {
    var W: seq<seq<IdxEntry>> := LevelLists(A, W0, pfirst, from, top, F, size);
    hide NodeAt, Grouped;
    forall l, j | 0 < l < |W| && 0 <= j < |W[l]| ensures W[l][j].ch !in inner0 {
      var m := from + l - 1;
      assert W[l] == Above(A[m], F, pfirst[m], size) && W[l][j].ch == NodeAt(pfirst[m], j, size);
      assert NodeAt(pfirst[m], j, size) in Nodes(pfirst[m], count[m], size);
    }
  }

  lemma {:induction false} WidthsAre(rows: seq<Row>, cur: seq<nat>, count: seq<nat>, pfirst: seq<Ptr>, A: seq<seq<IdxEntry>>, from: nat, top: nat, F: Size, size: nat, l: nat)
    requires RowsHold(rows, cur, count, pfirst, A, from, top, F, size) && from <= l <= top && |A[from]| == count[from - 1]
    ensures |A[l]| == count[l - 1] && |Above(A[l], F, pfirst[l], size)| == count[l]
    decreases l
  {
    hide RowHolds;
    if l > from {
      WidthsAre(rows, cur, count, pfirst, A, from, top, F, size, l - 1);
      assert LiesAbove(A, pfirst, l - 1, F, size);
    }
    GroupCount(A[l], F);
  }

  /** Finished rows in memory stack up. */
  lemma {:induction false} RowsStack(inner: map<Ptr, Inner>, rows: seq<Row>, cur: seq<nat>, count: seq<nat>, pfirst: seq<Ptr>, A: seq<seq<IdxEntry>>, from: nat, top: nat, F: Size,
                                     size: nat, W0: seq<IdxEntry>)
    requires from <= top && RowsHold(rows, cur, count, pfirst, A, from, top, F, size) && PlacedUpTo(inner, rows, pfirst, from, top + 1, size)
    requires A[from] == W0 && |W0| == count[from - 1] > 0
    ensures var W := LevelLists(A, W0, pfirst, from, top, F, size);
      && Stacked(GraphOf(inner), W) && EvenStack(GraphOf(inner), W, F)
      && forall l :: 0 < l < |W| ==> |W[l]| == count[from - 1 + l] && (W[l] != [] ==> W[l][0].ch == pfirst[from - 1 + l])
  {
    hide RowsHold, PlacedUpTo, OnTop, GraphOf, EvenAt;
    Sizes(rows, cur, count, pfirst, A, from, top, F, size);
    var W: seq<seq<IdxEntry>> := LevelLists(A, W0, pfirst, from, top, F, size);
    forall l | 0 < l < |W|
      ensures OnTop(GraphOf(inner), W, l) && EvenAt(GraphOf(inner), W, l, F) && |W[l]| == count[from - 1 + l] && (W[l] != [] ==> W[l][0].ch == pfirst[from - 1 + l])
    {
      RowStacked(inner, rows, cur, count, pfirst, A, from, top, F, size, W0, l);
    }
  }

  lemma {:induction false} RowStacked(inner: map<Ptr, Inner>, rows: seq<Row>, cur: seq<nat>, count: seq<nat>, pfirst: seq<Ptr>, A: seq<seq<IdxEntry>>, from: nat, top: nat, F: Size,
                                      size: nat, W0: seq<IdxEntry>, l: nat)
    requires from <= top && RowsHold(rows, cur, count, pfirst, A, from, top, F, size) && PlacedUpTo(inner, rows, pfirst, from, top + 1, size)
    requires A[from] == W0 && |W0| == count[from - 1] && 0 < l < top + 2 - from
    ensures var W := LevelLists(A, W0, pfirst, from, top, F, size);
      OnTop(GraphOf(inner), W, l) && EvenAt(GraphOf(inner), W, l, F) && |W[l]| == count[from - 1 + l] && (W[l] != [] ==> W[l][0].ch == pfirst[from - 1 + l])
  {
    hide RowHolds, Above, Grouped, NodeAt, PlacedUpTo, Ceiling, GraphOf, EvenAt;
    var W: seq<seq<IdxEntry>> := LevelLists(A, W0, pfirst, from, top, F, size);
    var m := from - 1 + l;
    assert W[l] == Above(A[m], F, pfirst[m], size);
    assert W[l - 1] == A[m] by { if l > 1 { assert LiesAbove(A, pfirst, m - 1, F, size); } }
    WidthsAre(rows, cur, count, pfirst, A, from, top, F, size, m);
    RowPlaced(inner, rows, pfirst, from, top + 1, size, m);
    RowOnTop(inner, rows[m], cur[m], A[m], F, count[m], pfirst[m], size);
    EvenHere(GraphOf(inner), W, l, F, Above(A[m], F, pfirst[m], size));
    AboveFirst(A[m], F, pfirst[m], size);
  }

  lemma {:induction false} EvenHere(g: Graph, W: seq<seq<IdxEntry>>, l: nat, F: Size, L: seq<IdxEntry>)
    requires l < |W| && W[l] == L && forall j :: 0 <= j < |L| - 1 ==> L[j].ch in g && |g[L[j].ch]| == F
    ensures EvenAt(g, W, l, F)
  {
  }

  lemma {:induction false} RowPlaced(inner: map<Ptr, Inner>, rows: seq<Row>, pfirst: seq<Ptr>, from: nat, n: nat, size: nat, l: nat)
    requires PlacedUpTo(inner, rows, pfirst, from, n, size) && from <= l < n
    ensures l < |rows| && l < |pfirst| && forall j :: 0 <= j < |rows[l]| ==> NodeAt(pfirst[l], j, size) in inner && inner[NodeAt(pfirst[l], j, size)] == rows[l][j]
  {
    hide NodeAt;
    forall j | 0 <= j < |rows[l]| ensures NodeAt(pfirst[l], j, size) in inner && inner[NodeAt(pfirst[l], j, size)] == rows[l][j] {
      assert SpotHolds(inner, pfirst[l], j, size, rows[l][j]);
    }
  }

  lemma {:induction false} AboveFirst(A: seq<IdxEntry>, F: Size, base: Ptr, size: nat)
    ensures Above(A, F, base, size) != [] ==> Above(A, F, base, size)[0].ch == base
  {
  }

  /** All nodes of finished rows are in order. */
  lemma {:induction false} RowsFine(inner0: map<Ptr, Inner>, inner: map<Ptr, Inner>, rows: seq<Row>, cur: seq<nat>, count: seq<nat>, pfirst: seq<Ptr>, A: seq<seq<IdxEntry>>, from: nat,
                                    F: Size, size: nat)
    requires InnersOk(inner0) && from < |rows| && RowsHold(rows, cur, count, pfirst, A, from, |rows| - 1, F, size) && |A[from]| == count[from - 1]
    requires |count| == |pfirst| == |rows| && size > 0
    requires PlacedUpTo(inner, rows, pfirst, from, |rows|, size) && inner.Keys == inner0.Keys + AllNodes(pfirst, count, from, |rows|, size)
    requires forall p :: p in inner0 ==> inner[p] == inner0[p]
    ensures InnersOk(inner)
  {
    hide RowsHold, PlacedUpTo, AllNodes, NodeOk;
    forall p | p in inner ensures NodeOk(inner[p]) && !inner[p].lock {
      if p !in inner0 { RowFine(inner, rows, cur, count, pfirst, A, from, F, size, p); }
    }
  }

  lemma {:induction false} RowFine(inner: map<Ptr, Inner>, rows: seq<Row>, cur: seq<nat>, count: seq<nat>, pfirst: seq<Ptr>, A: seq<seq<IdxEntry>>, from: nat,
                                   F: Size, size: nat, p: Ptr)
    requires from < |rows| && RowsHold(rows, cur, count, pfirst, A, from, |rows| - 1, F, size) && |A[from]| == count[from - 1] && |count| == |pfirst| == |rows|
    requires PlacedUpTo(inner, rows, pfirst, from, |rows|, size) && p in AllNodes(pfirst, count, from, |rows|, size)
    ensures p in inner && NodeOk(inner[p]) && !inner[p].lock
  {
    hide RowHolds, Nodes, NodeAt, Above, Grouped, AllNodes, PlacedUpTo, NodeOk, Ceiling;
    var l := FindLevel(pfirst, count, from, |rows|, size, p);
    WidthsAre(rows, cur, count, pfirst, A, from, |rows| - 1, F, size, l);
    var j := FindNode(pfirst[l], count[l], size, p);
    RowFull(rows[l], cur[l], A[l], F, count[l], pfirst[l], size, j);
    RowPlaced(inner, rows, pfirst, from, |rows|, size, l);
    RowLength(rows[l], cur[l], Grouped(A[l], F), F, count[l]);
  }

  lemma {:induction false} RowLength(row: Row, cur: nat, G: seq<seq<IdxEntry>>, F: Size, n: nat)
    requires RowHolds(row, cur, G, F, n)
    ensures |row| == n
  {
  }

  lemma {:induction false} FindLevel(pfirst: seq<Ptr>, count: seq<nat>, from: nat, l: nat, size: nat, p: Ptr) returns (i: nat)
    requires l <= |pfirst| && l <= |count| && p in AllNodes(pfirst, count, from, l, size)
    ensures from <= i < l && p in Nodes(pfirst[i], count[i], size)
    decreases l
  {
    hide Nodes;
    if p in Nodes(pfirst[l - 1], count[l - 1], size) { i := l - 1; } else { i := FindLevel(pfirst, count, from, l - 1, size, p); }
  }

  lemma {:induction false} FindNode(base: Ptr, n: nat, size: nat, p: Ptr) returns (j: nat)
    requires p in Nodes(base, n, size)
    ensures j < n && p == NodeAt(base, j, size)
  {
    j :| 0 <= j < n && p == NodeAt(base, j, size);
  }

  lemma {:induction false} RowFull(row: Row, cur: nat, A: seq<IdxEntry>, F: Size, n: nat, base: Ptr, size: nat, j: nat)
    requires RowHolds(row, cur, Grouped(A, F), F, n) && |Above(A, F, base, size)| == n && j < n
    ensures NodeOk(row[j]) && !row[j].lock
  {
    assert Filled(row[j], Grouped(A, F)[j]);
  }

  /** The leaves, put into memory. */
  lemma {:induction false} LeavesPlaced(leaf0: map<Ptr, Leaf>, lfs: seq<Leaf>, base: Ptr, size: nat, G: seq<seq<Key>>)
    requires size > 0 && |lfs| == |G| && forall j :: 0 <= j < |G| ==> LeafRight(lfs[j], G[j], NextPtr(PtrRow(base, |G|, size), j))
    ensures LeavesAre(leaf0 + LeafRowMap(base, lfs, size), PtrRow(base, |G|, size), G)
  {
    hide LeafIs, NodeAt, LeafRowMap, LastSlots;
    var P := PtrRow(base, |G|, size);
    forall j | 0 <= j < |P| ensures LeafSpot(leaf0 + LeafRowMap(base, lfs, size), P, G, j) {
      LeafRowMapAt(base, lfs, size, j);
      assert LeafRight(lfs[j], G[j], NextPtr(P, j));
    }
  }

  lemma {:induction false} RowHead(base: Ptr, n: nat, size: nat)
    requires n > 0
    ensures PtrRow(base, n, size)[0] == base && |PtrRow(base, n, size)| == n
  {
  }

  /** What the memory looks like around a load: old nodes as they were, new ones from the pools. */
  predicate Grew(inner0: map<Ptr, Inner>, inner: map<Ptr, Inner>, leaf0: map<Ptr, Leaf>, leaf: map<Ptr, Leaf>) {
    (forall p :: p in inner0 ==> p in inner && inner[p] == inner0[p]) && forall p :: p in leaf0 ==> p in leaf && leaf[p] == leaf0[p]
  }

  /** `bulkloadSubtree`. None is the pools' "run out of memory". */
  method BulkloadSubtree(keys: seq<Key>, lf: nat, f: nat, target: nat, mempool: Mempool, nvmpool: Mempool, inner0: map<Ptr, Inner>, leaf0: map<Ptr, Leaf>)
    returns (r: Option<Sub>, inner: map<Ptr, Inner>, leaf: map<Ptr, Leaf>, ghost W: seq<seq<IdxEntry>>)
    requires mempool.Valid() && nvmpool.Valid() && mempool != nvmpool && mempool.used == inner0.Keys && nvmpool.used == leaf0.Keys && InnersOk(inner0)
    requires keys != [] && Sorted(keys) && 1 <= lf <= LEAF_KEY_NUM && 1 <= f <= NON_LEAF_KEY_NUM
    modifies mempool, nvmpool
    ensures mempool.Valid() && nvmpool.Valid() && mempool.end == old(mempool.end) && nvmpool.end == old(nvmpool.end)
    ensures r.Some? ==> mempool.used == inner.Keys && nvmpool.used == leaf.Keys && InnersOk(inner) && Grew(inner0, inner, leaf0, leaf)
    ensures r.Some? ==> |r.value.pfirst| == |r.value.count| == r.value.top + 1 && SubOk(inner, leaf, r.value, W, Grouped(keys, lf), PtrRow(r.value.pfirst[0], |Grouped(keys, lf)|, nvmpool.size))
    ensures r.Some? ==> Nodes(r.value.pfirst[0], |Grouped(keys, lf)|, nvmpool.size) !! leaf0.Keys && r.value.pfirst[0] != NULL
    ensures r.Some? ==> r.value.count[0] == Ceiling(|keys|, lf) && (r.value.count[r.value.top] == 1 || r.value.top == target) && r.value.top <= target
    ensures r.Some? ==> leaf.Keys == leaf0.Keys + Nodes(r.value.pfirst[0], |Grouped(keys, lf)|, nvmpool.size)
    ensures r.Some? ==> forall l :: 0 < l <= r.value.top ==> r.value.count[l] == Ceiling(r.value.count[l - 1], f + 1)
    ensures r.Some? ==> (forall l :: 0 <= l < r.value.top ==> r.value.count[l] > 1) && NewNodes(inner0, W)
    ensures r.Some? ==> EvenStack(GraphOf(inner), W, f + 1)
    ensures r.Some? <==>
      && Enough(old(nvmpool.cur), Ceiling(|keys|, lf), nvmpool.size, nvmpool.end)
      && Enough(old(mempool.cur), Uppers(Ceiling(|keys|, lf), f + 1, target), mempool.size, mempool.end)
    ensures r.Some? ==>
      && Moved(old(nvmpool.cur), Ceiling(|keys|, lf), nvmpool.size, nvmpool.cur)
      && Moved(old(mempool.cur), Uppers(Ceiling(|keys|, lf), f + 1, target), mempool.size, mempool.cur)
  {
    hide Enough, Moved, Uppers, EvenStack, GraphOf, Mempool.Valid, Nodes, NodeAt, Grouped, RowsHold, Separate, PlacedUpTo, Ceiling, Stacked, AllNodes, LeavesAre, LeafRow, LeafRight, Sorted, InnersOk, LevelLists,
      NewNodes, LeafRowMap, SumOf, NextPtr;
    GroupCount(keys, lf);
    FirstGroups(keys, lf);
    ghost var G := Grouped(keys, lf);
    W := [];
    var count := Counts([Ceiling(|keys|, lf)], f, target);
    CountsTotal(count, f + 1, 1, target);
    inner, leaf, r := inner0, leaf0, None;
    var base := nvmpool.Alloc(count[0]);
    if base == None { return; }
    var pfirst, ok := AllocRows(mempool, [base.value], count, 1);
    if !ok { return; }
    var rows, cur, A := NewRows(count, pfirst, 1, f, mempool.size);
    var lfs;
    lfs, rows, cur, A := Populate(keys, lf, count[0], base.value, nvmpool.size, rows, cur, count, pfirst, f, mempool.size, A);
    RowSizes(rows, cur, count, pfirst, A, 1, f + 1, mempool.size);
    PoolSize(mempool);
    PoolSize(nvmpool);
    inner := Place(inner0, rows, pfirst, count, 1, mempool.size);
    leaf := leaf0 + LeafRowMap(base.value, lfs, nvmpool.size);
    LeavesPlaced(leaf0, lfs, base.value, nvmpool.size, G);
    W := LevelLists(A, LeafRow(G, PtrRow(base.value, |G|, nvmpool.size)), pfirst, 1, |count| - 1, f + 1, mempool.size);
    RowHead(base.value, |G|, nvmpool.size);
    Loaded(inner0, inner, leaf, rows, cur, count, pfirst, A, f + 1, mempool.size, G, PtrRow(base.value, |G|, nvmpool.size));
    AllNew(inner0, rows, cur, count, pfirst, A, f + 1, mempool.size, LeafRow(G, PtrRow(base.value, |G|, nvmpool.size)));
    r := Some(Sub(|count| - 1, pfirst, count));
  }

  lemma {:induction false} AllNew(inner0: map<Ptr, Inner>, rows: seq<Row>, cur: seq<nat>, count: seq<nat>, pfirst: seq<Ptr>, A: seq<seq<IdxEntry>>, F: Size, size: nat, W0: seq<IdxEntry>)
    requires |count| == |pfirst| > 0 && RowsHold(rows, cur, count, pfirst, A, 1, |count| - 1, F, size) && Separate(pfirst, count, 1, |count|, size, inner0.Keys)
    requires |count| > 1 ==> |A| > 1 && |A[1]| == count[0]
    ensures |A| == |count| && NewNodes(inner0, LevelLists(A, W0, pfirst, 1, |count| - 1, F, size))
  {
    Sizes(rows, cur, count, pfirst, A, 1, |count| - 1, F, size);
    hide RowsHold, Separate, LevelLists, NewNodes;
    forall l | 1 <= l <= |count| - 1 ensures |Above(A[l], F, pfirst[l], size)| == count[l] { WidthsAre(rows, cur, count, pfirst, A, 1, |count| - 1, F, size, l); }
    ListsNew(inner0, A, W0, pfirst, count, 1, |count| - 1, F, size);
  }

  lemma {:induction false} FirstGroups(keys: seq<Key>, lf: Size)
    requires keys != []
    ensures |Grouped(keys, lf)| > 0 && (forall j :: 0 <= j < |Grouped(keys, lf)| ==> Grouped(keys, lf)[j] != [])
  {
    GroupedEven(keys, lf);
  }

  lemma {:induction false} PoolSize(pool: Mempool)
    requires pool.Valid()
    ensures pool.size > 0
  {
  }

  lemma {:induction false} RowSizes(rows: seq<Row>, cur: seq<nat>, count: seq<nat>, pfirst: seq<Ptr>, A: seq<seq<IdxEntry>>, from: nat, F: Size, size: nat)
    requires count != [] && RowsHold(rows, cur, count, pfirst, A, from, |count| - 1, F, size)
    ensures |rows| == |count| == |A| && forall l :: from <= l < |count| ==> |rows[l]| == count[l]
  {
    hide Grouped, Above;
  }

  /** The parts of a load put together. */
  lemma {:induction false} Loaded(inner0: map<Ptr, Inner>, inner: map<Ptr, Inner>, leaf: map<Ptr, Leaf>, rows: seq<Row>, cur: seq<nat>, count: seq<nat>, pfirst: seq<Ptr>,
                                  A: seq<seq<IdxEntry>>, F: Size, size: nat, G: seq<seq<Key>>, P: seq<Ptr>)
    requires |count| == |pfirst| == |rows| > 0 && size > 0 && RowsHold(rows, cur, count, pfirst, A, 1, |count| - 1, F, size) && |P| == |G| == count[0] > 0
    requires |count| > 1 ==> A[1] == LeafRow(G, P)
    requires (forall l :: 0 <= l < |count| ==> count[l] > 0) && P[0] == pfirst[0] && LeavesAre(leaf, P, G) && InnersOk(inner0)
    requires PlacedUpTo(inner, rows, pfirst, 1, |rows|, size) && inner.Keys == inner0.Keys + AllNodes(pfirst, count, 1, |rows|, size)
    requires forall p :: p in inner0 ==> inner[p] == inner0[p]
    ensures |A| == |count|
    ensures SubOk(inner, leaf, Sub(|count| - 1, pfirst, count), LevelLists(A, LeafRow(G, P), pfirst, 1, |count| - 1, F, size), G, P) && InnersOk(inner)
    ensures EvenStack(GraphOf(inner), LevelLists(A, LeafRow(G, P), pfirst, 1, |count| - 1, F, size), F)
  {
    hide RowsHold, PlacedUpTo, LeavesAre, InnersOk, AllNodes, Stacked, LeafRow, LevelLists, GraphOf, EvenStack;
    Sizes(rows, cur, count, pfirst, A, 1, |count| - 1, F, size);
    ListsStart(A, LeafRow(G, P), pfirst, 1, |count| - 1, F, size);
    RowStart(G, P);
    LeafRowHead(G, P);
    if |count| > 1 {
      RowsStack(inner, rows, cur, count, pfirst, A, 1, |count| - 1, F, size, LeafRow(G, P));
      RowsFine(inner0, inner, rows, cur, count, pfirst, A, 1, F, size);
    } else {
      StackOne(GraphOf(inner), LevelLists(A, LeafRow(G, P), pfirst, 1, |count| - 1, F, size), F);
      NothingPlaced(inner0, inner, pfirst, count, 1, size);
    }
  }

  lemma {:induction false} StackOne(g: Graph, W: seq<seq<IdxEntry>>, F: Size)
    requires |W| <= 1
    ensures Stacked(g, W) && EvenStack(g, W, F)
  {
  }

  lemma {:induction false} LeafRowHead(G: seq<seq<Key>>, P: seq<Ptr>)
    requires |G| == |P| > 0
    ensures |LeafRow(G, P)| == |G| && LeafRow(G, P)[0].ch == P[0]
  {
  }

  lemma {:induction false} ListsStart(A: seq<seq<IdxEntry>>, W0: seq<IdxEntry>, pfirst: seq<Ptr>, from: nat, top: nat, F: Size, size: nat)
    requires from <= top + 1 <= |A| && top < |pfirst|
    ensures LevelLists(A, W0, pfirst, from, top, F, size)[0] == W0
  {
  }

  lemma {:induction false} NothingPlaced(inner0: map<Ptr, Inner>, inner: map<Ptr, Inner>, pfirst: seq<Ptr>, count: seq<nat>, from: nat, size: nat)
    requires from <= |pfirst| && from <= |count| && InnersOk(inner0) && inner.Keys == inner0.Keys + AllNodes(pfirst, count, from, from, size)
    requires forall p :: p in inner0 ==> inner[p] == inner0[p]
    ensures InnersOk(inner)
  {
  }
}
