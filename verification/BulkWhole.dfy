/** A whole bulkload: the loaded levels as a tree, and the tree object it leaves behind. */
module BulkWhole {
  import opened Types
  import opened LeafNode
  import opened Nvm
  import opened Levels
  import opened TreeSteps
  import opened Pending
  import opened LeafLevel
  import opened Recovery
  import opened TreeView
  import opened TreeState
  import opened MemPool
  import opened Grouping
  import opened BulkTree
  import opened BulkSubtree
  import opened LbTree

  function LeafSeq(leaf: map<Ptr, Leaf>, P: seq<Ptr>): seq<Leaf>
    requires forall j :: 0 <= j < |P| ==> P[j] in leaf
  {
    seq(|P|, j requires 0 <= j < |P| => leaf[P[j]])
  }

  /** The leaf level of a load holds its keys, in order. */
  lemma {:induction false} LeavesRight(leaf: map<Ptr, Leaf>, P: seq<Ptr>, G: seq<seq<Key>>)
    requires LeavesAre(leaf, P, G) && Sorted(Flat(G)) && NoneEmpty(G) && DistinctPtrs(P)
    ensures forall j :: 0 <= j < |P| ==> P[j] in leaf
    ensures var L, Y := Lower(LeafRow(G, P), 0), LeafSeq(leaf, P);
      Fits(L, Y) && Linked(L, Y) && Ascending(L) && NoDup(L) && Union(Y) == EntrySet(Flat(G)) && |L| == |P| && forall j :: 0 <= j < |L| ==> L[j].ch == P[j]
  {
    hide LeafOk, Entries;
    forall j | 0 <= j < |P| ensures P[j] in leaf && LeafIs(leaf[P[j]], G[j]) { assert LeafSpot(leaf, P, G, j); }
    var L, Y := LeafRow(G, P), LeafSeq(leaf, P);
    LeavesFit(G, P, Y);
    forall j | 0 <= j < |L| ensures Y[j].Shape() && Y[j].NextSibling() == PtrAt(L, j + 1) {
      assert LeafSpot(leaf, P, G, j);
      LeafWith(Y[j], G[j]);
    }
    LowerFits(L, Y, 0);
    assert forall j :: 0 <= j < |L| ==> Lower(L, 0)[j].ch == L[j].ch;
  }

  /** A load that ends in one node is a tree with the leaves below it. */
  lemma {:induction false} LoadedTree(inner: map<Ptr, Inner>, leaf: map<Ptr, Leaf>, W: seq<seq<IdxEntry>>, G: seq<seq<Key>>, P: seq<Ptr>)
    requires W != [] && Stacked(GraphOf(inner), W) && |G| == |P| && W[0] == LeafRow(G, P) && |W[|W| - 1]| == 1
    requires LeavesAre(leaf, P, G) && Sorted(Flat(G)) && NoneEmpty(G) && DistinctPtrs(P) && inner.Keys !! leaf.Keys
    ensures var root, h := W[|W| - 1][0].ch, |W| - 1;
      Tree(GraphOf(inner), leaf.Keys, Top(root), h) && LeafList(inner, root, h) == Lower(LeafRow(G, P), 0)
  {
    var g, V, h := GraphOf(inner), Lowered(W, 0), |W| - 1;
    LeavesRight(leaf, P, G);
    assert g.Keys == inner.Keys;
    StackLower(g, W, 0);
    assert V[h] == Top(W[h][0].ch);
    hide GraphOf, Lower, LeafRow;
    assert Tree(g, leaf.Keys, V[0], 0);
    StackTree(g, leaf.Keys, V, h);
  }

  /** Leaf memory as a load leaves it: written, but not written back. */
  function Unflushed(leaf: map<Ptr, Leaf>, raw: map<Ptr, RawLeaf>): map<Ptr, Cell>
    requires leaf.Keys == raw.Keys
  {
    map p | p in leaf :: Cell([raw[p], leaf[p]], [0, 0, 0, 0], [0, 0, 0, 0])
  }

  /** The leaves of a load: those at the pointers `P`, in order, and no others. */
  predicate LoadedLeaves(leaf: map<Ptr, Leaf>, P: seq<Ptr>, G: seq<seq<Key>>) {
    && LeavesAre(leaf, P, G) && Sorted(Flat(G)) && NoneEmpty(G) && DistinctPtrs(P) && P != [] && NULL !in leaf && leaf.Keys == set j | 0 <= j < |P| :: P[j]
  }

  datatype LoadMem = LoadMem(leaf: map<Ptr, Leaf>, raw: map<Ptr, RawLeaf>, P: seq<Ptr>, G: seq<seq<Key>>)

  /** The NVM as a load of `keys` leaves it: the leaves stored over what was there before, and none of them written back. */
  ghost predicate LoadIs(s: State, keys: seq<Key>, mem: LoadMem) {
    && LoadedLeaves(mem.leaf, mem.P, mem.G) && Flat(mem.G) == keys && mem.leaf.Keys == mem.raw.Keys && s.cells == Unflushed(mem.leaf, mem.raw) && FirstIs(s, mem.P[0])
  }

  ghost predicate JustLoaded(s: State, keys: seq<Key>) { exists mem :: LoadIs(s, keys, mem) }

  lemma {:induction false} LoadIntro(s: State, keys: seq<Key>, mem: LoadMem)
    requires LoadedLeaves(mem.leaf, mem.P, mem.G) && Flat(mem.G) == keys && mem.leaf.Keys == mem.raw.Keys && s.cells == Unflushed(mem.leaf, mem.raw)
    requires |s.first| > 0 && s.firstWb == s.firstLow == |s.first| - 1 && s.first[|s.first| - 1] == mem.P[0]
    ensures LoadIs(s, keys, mem) && JustLoaded(s, keys)
  {
    hide LoadedLeaves, Flat, Unflushed;
  }

  /** The tree that a load leaves behind. */
  lemma {:induction false} LoadedStruct(inner: map<Ptr, Inner>, leaf: map<Ptr, Leaf>, raw: map<Ptr, RawLeaf>, s: State, W: seq<seq<IdxEntry>>, G: seq<seq<Key>>, P: seq<Ptr>)
    requires W != [] && Stacked(GraphOf(inner), W) && |G| == |P| && W[0] == LeafRow(G, P) && |W[|W| - 1]| == 1
    requires LeavesAre(leaf, P, G) && Sorted(Flat(G)) && NoneEmpty(G) && DistinctPtrs(P) && inner.Keys !! leaf.Keys && NULL !in leaf && InnersOk(inner)
    requires (forall p :: p in leaf ==> leaf[p].Shape()) && leaf.Keys == raw.Keys && s.cells == Unflushed(leaf, raw)
    requires P != [] && s.firstWb == s.firstLow < |s.first| && s.first[|s.first| - 1] == P[0]
    ensures var root, h := W[|W| - 1][0].ch, |W| - 1;
      && Struct(h, root, inner, s, leaf.Keys) && LocksAre(inner, {}) && Unlocked(View(s.cells, LeafList(inner, root, h)))
      && Union(View(s.cells, LeafList(inner, root, h))) == EntrySet(Flat(G))
  {
    var root, h := W[|W| - 1][0].ch, |W| - 1;
    var L := Lower(LeafRow(G, P), 0);
    LoadedTree(inner, leaf, W, G, P);
    LeavesRight(leaf, P, G);
    hide Stacked, Tree, LeafList, GraphOf, Fits, Linked, Union, Lower, LeafRow, Ascending, NoDup;
    ViewIs(leaf, raw, s.cells, L, P);
    StoredHere(leaf, raw, s, L, P);
    forall j | 0 <= j < |P| ensures EntriesOf(LeafSeq(leaf, P)[j]) != {} && !LeafSeq(leaf, P)[j].m.lock { LeafNotEmpty(leaf, P, G, j); }
    assert NodesOk(inner) && LocksAre(inner, {});
  }

  // ---------------------------------------------------------------- the shape of a load

  /** The keys of leaf `j` when the leaves take `lf` keys each, in order. */
  function PartOf(keys: seq<Key>, lf: Size, j: nat): seq<Key> {
    if j * lf + lf <= |keys| then keys[j * lf..j * lf + lf] else if j * lf <= |keys| then keys[j * lf..] else []
  }

  /** The leaf has exactly these keys, in its last slots. */
  predicate LeafTakes(x: Leaf, ks: seq<Key>) { EntriesOf(x) == EntrySet(ks) && LastSlots(x, ks) }

  /** The leaves hold `lf` of the keys each, in order, and the last one the rest. */
  predicate LeafLoad(Y: seq<Leaf>, keys: seq<Key>, lf: Size) {
    |Y| == Ceiling(|keys|, lf) && forall j :: 0 <= j < |Y| ==> LeafTakes(Y[j], PartOf(keys, lf, j))
  }

  /** The leaves hold the groups `G`, one each. */
  predicate LeafGroups(Y: seq<Leaf>, G: seq<seq<Key>>) {
    |Y| == |G| && forall j :: 0 <= j < |Y| ==> LeafTakes(Y[j], G[j])
  }

  /** Level `l` has `n` nodes. */
  predicate WidthIs(inner: map<Ptr, Inner>, root: Ptr, h: nat, l: nat, n: nat)
    requires l <= h
  {
    |Level(GraphOf(inner), Top(root), h, l)| == n
  }

  /** Every node of level `l` but the last has `F` children. */
  predicate FilledAt(inner: map<Ptr, Inner>, root: Ptr, h: nat, l: nat, F: nat)
    requires l <= h
  {
    var L := Level(GraphOf(inner), Top(root), h, l);
    forall j :: 0 <= j < |L| - 1 ==> L[j].ch in inner && inner[L[j].ch].num + 1 == F
  }

  /** The levels of a load of `n` keys: the nested ceilings, up to the first level with one node, and full nodes but for the last of each. */
  ghost predicate LevelLoad(inner: map<Ptr, Inner>, root: Ptr, h: nat, n: nat, lf: Size, F: Size) {
    && JoinsAt(n, lf, F, h) && (forall l :: 0 <= l <= h ==> WidthIs(inner, root, h, l, CountAt(n, lf, F, l)))
    && forall l :: 0 < l <= h ==> FilledAt(inner, root, h, l, F)
  }

  lemma {:induction false} GroupsLoad(Y: seq<Leaf>, keys: seq<Key>, lf: Size)
    requires LeafGroups(Y, Grouped(keys, lf))
    ensures LeafLoad(Y, keys, lf)
  {
    hide Grouped, LeafTakes, Ceiling;
    GroupCount(keys, lf);
    forall j | 0 <= j < |Y| ensures LeafTakes(Y[j], PartOf(keys, lf, j)) {
      GroupAt(keys, lf, j);
      assert Grouped(keys, lf)[j] == PartOf(keys, lf, j);
    }
  }

  /** The leaves of the tree are those loaded, in order. */
  lemma {:induction false} LoadedGroups(inner: map<Ptr, Inner>, leaf: map<Ptr, Leaf>, raw: map<Ptr, RawLeaf>, cells: map<Ptr, Cell>, W: seq<seq<IdxEntry>>, G: seq<seq<Key>>, P: seq<Ptr>)
    requires W != [] && Stacked(GraphOf(inner), W) && |G| == |P| && W[0] == LeafRow(G, P) && |W[|W| - 1]| == 1
    requires LeavesAre(leaf, P, G) && Sorted(Flat(G)) && NoneEmpty(G) && DistinctPtrs(P) && inner.Keys !! leaf.Keys
    requires leaf.Keys == raw.Keys && cells == Unflushed(leaf, raw)
    ensures LeafGroups(View(cells, LeafList(inner, W[|W| - 1][0].ch, |W| - 1)), G)
  {
    var root, h := W[|W| - 1][0].ch, |W| - 1;
    var L := Lower(LeafRow(G, P), 0);
    LoadedTree(inner, leaf, W, G, P);
    LeavesRight(leaf, P, G);
    hide Stacked, Tree, LeafList, GraphOf, Fits, Linked, Union, Lower, LeafRow, Ascending, NoDup, EntriesOf, EntrySet, LastSlots;
    ViewIs(leaf, raw, cells, L, P);
    forall j | 0 <= j < |P| ensures LeafTakes(LeafSeq(leaf, P)[j], G[j]) {
      assert LeafSpot(leaf, P, G, j);
      LeafShape(leaf[P[j]], G[j]);
    }
  }

  /** The levels of the tree are the lists stacked up. */
  lemma {:induction false} LoadedWidths(inner: map<Ptr, Inner>, W: seq<seq<IdxEntry>>)
    requires W != [] && Stacked(GraphOf(inner), W) && |W[|W| - 1]| == 1
    ensures forall l :: 0 <= l < |W| ==> WidthIs(inner, W[|W| - 1][0].ch, |W| - 1, l, |W[l]|)
  {
    hide Stacked, GraphOf, Level;
    forall l | 0 <= l < |W| ensures WidthIs(inner, W[|W| - 1][0].ch, |W| - 1, l, |W[l]|) { LoadedLevel(inner, W, l); }
  }

  lemma {:induction false} LoadedLevel(inner: map<Ptr, Inner>, W: seq<seq<IdxEntry>>, l: nat)
    requires W != [] && Stacked(GraphOf(inner), W) && |W[|W| - 1]| == 1 && l < |W|
    ensures Level(GraphOf(inner), Top(W[|W| - 1][0].ch), |W| - 1, l) == Lower(W[l], 0) && |Lower(W[l], 0)| == |W[l]|
    ensures forall j :: 0 <= j < |W[l]| ==> Lower(W[l], 0)[j].ch == W[l][j].ch
  {
    var g, V, h := GraphOf(inner), Lowered(W, 0), |W| - 1;
    StackLower(g, W, 0);
    assert V[h] == Top(W[h][0].ch);
    hide GraphOf, Stacked;
    StackLevel(g, V, h, l);
  }

  lemma {:induction false} LoadedFill(inner: map<Ptr, Inner>, W: seq<seq<IdxEntry>>, root: Ptr, h: nat, F: Size)
    requires |W| == h + 1 && Stacked(GraphOf(inner), W) && |W[h]| == 1 && W[h][0].ch == root && EvenStack(GraphOf(inner), W, F)
    ensures forall l :: 0 < l <= h ==> FilledAt(inner, root, h, l, F)
  {
    hide Stacked, Level, Lower;
    forall l | 0 < l <= h ensures FilledAt(inner, root, h, l, F) {
      LoadedLevel(inner, W, l);
      assert EvenAt(GraphOf(inner), W, l, F);
      forall j | 0 <= j < |W[l]| - 1 ensures W[l][j].ch in inner && inner[W[l][j].ch].num + 1 == F { KidsSize(inner, W[l][j].ch); }
    }
  }

  lemma {:induction false} KidsSize(inner: map<Ptr, Inner>, p: Ptr)
    requires p in GraphOf(inner) && GraphOf(inner)[p] != []
    ensures p in inner && inner[p].num + 1 == |GraphOf(inner)[p]|
  {
  }

  lemma {:induction false} LeafNotEmpty(leaf: map<Ptr, Leaf>, P: seq<Ptr>, G: seq<seq<Key>>, j: nat)
    requires LeavesAre(leaf, P, G) && NoneEmpty(G) && j < |P|
    ensures P[j] in leaf && EntriesOf(leaf[P[j]]) != {} && !leaf[P[j]].m.lock
  {
    assert LeafSpot(leaf, P, G, j);
    LeafShape(leaf[P[j]], G[j]);
    assert IdxEntry(G[j][0], G[j][0]) in EntrySet(G[j]);
  }

  lemma {:induction false} ViewIs(leaf: map<Ptr, Leaf>, raw: map<Ptr, RawLeaf>, cells: map<Ptr, Cell>, L: seq<IdxEntry>, P: seq<Ptr>)
    requires leaf.Keys == raw.Keys && cells == Unflushed(leaf, raw) && |L| == |P| && forall j :: 0 <= j < |P| ==> P[j] in leaf && L[j].ch == P[j]
    ensures View(cells, L) == LeafSeq(leaf, P)
  {
  }

  lemma {:induction false} StoredHere(leaf: map<Ptr, Leaf>, raw: map<Ptr, RawLeaf>, s: State, L: seq<IdxEntry>, P: seq<Ptr>)
    requires leaf.Keys == raw.Keys && s.cells == Unflushed(leaf, raw) && |L| == |P| && (forall j :: 0 <= j < |P| ==> P[j] in leaf && L[j].ch == P[j])
    requires (forall p :: p in leaf ==> leaf[p].Shape()) && NULL !in leaf && P != [] && s.firstWb == s.firstLow < |s.first| && s.first[|s.first| - 1] == P[0]
    ensures Stored(s, L) && s.first[|s.first| - 1] == PtrAt(L, 0)
  {
    hide Leaf.Shape;
    forall p | p in s.cells ensures s.cells[p].Shape() && s.cells[p].wb == s.cells[p].low { CellThere(raw[p], leaf[p]); }
  }

  lemma {:induction false} CellThere(raw: RawLeaf, x: Leaf)
    requires x.Shape()
    ensures Cell([raw, x], [0, 0, 0, 0], [0, 0, 0, 0]).Shape()
  {
  }

  // ---------------------------------------------------------------- bulkload with one thread

  /** What the leaves just allocated held before: anything. */
  method LeafContents(leaf: map<Ptr, Leaf>) returns (raw: map<Ptr, RawLeaf>)
    ensures raw.Keys == leaf.Keys
  {
    var was: Ptr -> RawLeaf := *;
    raw := map p | p in leaf :: was(p);
  }

  lemma {:induction false} OneRoot(count: seq<nat>, n: nat, lf: Size, f: nat)
    requires count != [] && count[0] == Ceiling(n, lf) && n < 0x8000_0000 && f >= 1 && |count| <= 32
    requires forall l :: 0 < l < |count| ==> count[l] == Ceiling(count[l - 1], f + 1)
    requires count[|count| - 1] > 0 && (count[|count| - 1] == 1 || |count| == 32)
    ensures count[|count| - 1] == 1
  {
    Pow31();
    CeilingLess(n, lf);
    CountsShrink(count, f, |count| - 1, 0);
    assert |count| == 32 ==> Pow2(31 - (|count| - 1)) == 1;
  }

  lemma {:induction false} CeilingLess(a: nat, b: Size)
    ensures Ceiling(a, b) <= a
    decreases a
  {
    CeilingStep(a, b);
    if a > b { CeilingLess(a - b, b); }
  }

  lemma {:induction false} NoNull(pool: Mempool)
    requires pool.Valid()
    ensures NULL !in pool.used
  {
  }

  lemma {:induction false} PoolsApart(a: Mempool, b: Mempool)
    requires a.Valid() && b.Valid() && (a.end <= b.base || b.end <= a.base)
    ensures a.used !! b.used
  {
    hide Mempool.Valid;
    forall p | p in a.used && p in b.used ensures false {
      InPool(a, p);
      InPool(b, p);
    }
  }

  lemma {:induction false} InPool(pool: Mempool, p: Ptr)
    requires pool.Valid() && p in pool.used
    ensures pool.base <= p < pool.end
  {
  }

  lemma {:induction false} NodesListed(base: Ptr, n: nat, size: nat)
    ensures forall p :: p in Nodes(base, n, size) ==> p in PtrRow(base, n, size)
  {
    forall p | p in Nodes(base, n, size) ensures p in PtrRow(base, n, size) {
      var j := FindNode(base, n, size, p);
      assert PtrRow(base, n, size)[j] == p;
    }
  }

  lemma {:induction false} LeavesShaped(leaf0: map<Ptr, Leaf>, leaf: map<Ptr, Leaf>, P: seq<Ptr>, G: seq<seq<Key>>)
    requires LeavesAre(leaf, P, G) && (forall p :: p in leaf ==> p in leaf0 || p in P) && leaf0 == map[]
    ensures forall p :: p in leaf ==> leaf[p].Shape()
  {
    forall p | p in leaf ensures leaf[p].Shape() {
      var j :| 0 <= j < |P| && P[j] == p;
      assert LeafSpot(leaf, P, G, j);
    }
  }

  /**
   * `bulkload` with one thread, on a new tree. For every fill from one key per node to full nodes, and sorted keys, the result is a tree
   * in order whose entries are the input. False is the pools' "run out of memory".
   */
  method BulkloadOne(t: LBTree, keys: seq<Key>, lf: nat, f: nat) returns (ok: bool)
    requires t.inner == map[] && t.nvm.cells == map[] && t.nvm.first != []
    requires t.mempool.Valid() && t.nvmpool.Valid() && t.mempool != t.nvmpool && t.mempool.used == {} && t.nvmpool.used == {}
    requires t.mempool.end <= t.nvmpool.base || t.nvmpool.end <= t.mempool.base
    requires 0 < |keys| < 0x8000_0000 && Sorted(keys) && 1 <= lf <= LEAF_KEY_NUM && 1 <= f <= NON_LEAF_KEY_NUM
    modifies t, t.mempool, t.nvmpool
    ensures ok ==> t.Valid() && t.Contents() == EntrySet(keys) && JustLoaded(t.nvm, keys)
    ensures ok <==>
      && old(t.nvmpool.cur + Ceiling(|keys|, lf) * t.nvmpool.size <= t.nvmpool.end)
      && old(t.mempool.cur + Uppers(Ceiling(|keys|, lf), f + 1, 31) * t.mempool.size <= t.mempool.end)
    ensures ok ==> LeafLoad(t.Leaves(), keys, lf) && LevelLoad(t.inner, t.treeRoot, t.rootLevel, |keys|, lf, f + 1)
  {
    hide Moved, Uppers, LeafLoad, LevelLoad, EvenStack, GraphOf, Mempool.Valid, SubOk, Grouped, Sorted, InnersOk, Struct, Stacked, LeavesAre, Union, View, LeafList, LocksAre, Unlocked, NodeAt, Nodes, JustLoaded, Unflushed;
    var sub, inner, leaf;
    ghost var W;
    EmptyInners();
    sub, inner, leaf, W := BulkloadSubtree(keys, lf, f, 31, t.mempool, t.nvmpool, map[], map[]);
    if sub == None { return false; }
    var raw := LeafContents(leaf);
    LoadFacts(inner, leaf, raw, sub.value, W, keys, lf, f, t.nvmpool, t.mempool);
    PoolSize(t.nvmpool);
    NodesListed(sub.value.pfirst[0], |Grouped(keys, lf)|, t.nvmpool.size);
    t.inner := inner;
    t.nvm := State(Unflushed(leaf, raw), t.nvm.first + [sub.value.pfirst[0]], |t.nvm.first|, |t.nvm.first|);
    t.rootLevel := sub.value.top;
    t.treeRoot := sub.value.pfirst[sub.value.top];
    ok := true;
    LoadedHere(inner, leaf, raw, t.nvm, sub.value, W, keys, lf, t.nvmpool);
    LoadedSub(inner, leaf, raw, t.nvm, sub.value, W, keys, lf, t.nvmpool.size);
    LoadedShape(inner, leaf, raw, t.nvm, sub.value, W, keys, lf, f, t.nvmpool.size);
  }

  lemma {:induction false} LoadedShape(inner: map<Ptr, Inner>, leaf: map<Ptr, Leaf>, raw: map<Ptr, RawLeaf>, s: State, sub: Sub, W: seq<seq<IdxEntry>>, keys: seq<Key>, lf: nat, f: nat, size: nat)
    requires size > 0 && leaf.Keys == raw.Keys && keys != [] && Sorted(keys) && lf >= 1 && |sub.pfirst| == |sub.count| == sub.top + 1 && inner.Keys !! leaf.Keys
    requires SubOk(inner, leaf, sub, W, Grouped(keys, lf), PtrRow(sub.pfirst[0], |Grouped(keys, lf)|, size)) && EvenStack(GraphOf(inner), W, f + 1)
    requires s.cells == Unflushed(leaf, raw) && sub.count[0] == Ceiling(|keys|, lf) && sub.count[sub.top] == 1
    requires (forall l :: 0 < l <= sub.top ==> sub.count[l] == Ceiling(sub.count[l - 1], f + 1)) && forall l :: 0 <= l < sub.top ==> sub.count[l] > 1
    ensures var root, h := sub.pfirst[sub.top], sub.top;
      LeafLoad(View(s.cells, LeafList(inner, root, h)), keys, lf) && LevelLoad(inner, root, h, |keys|, lf, f + 1)
  {
    hide Grouped, Sorted, LeavesAre, NodeAt, Unflushed, Stacked, LeafRow, Flat, LeafGroups, LeafLoad, WidthIs, FilledAt, GraphOf, LeafList, View, EvenStack, CountAt, Ceiling;
    var G, P := Grouped(keys, lf), PtrRow(sub.pfirst[0], |Grouped(keys, lf)|, size);
    GroupedFlat(keys, lf);
    FirstGroups(keys, lf);
    PtrRowDistinct(sub.pfirst[0], |G|, size);
    LoadedGroups(inner, leaf, raw, s.cells, W, G, P);
    GroupsLoad(View(s.cells, LeafList(inner, sub.pfirst[sub.top], sub.top)), keys, lf);
    LoadedWidths(inner, W);
    LoadedFill(inner, W, sub.pfirst[sub.top], sub.top, f + 1);
    CountsAll(sub.count, |keys|, lf, f + 1);
  }

  lemma {:induction false} LoadedSub(inner: map<Ptr, Inner>, leaf: map<Ptr, Leaf>, raw: map<Ptr, RawLeaf>, s: State, sub: Sub, W: seq<seq<IdxEntry>>, keys: seq<Key>, lf: nat, size: nat)
    requires size > 0 && NULL !in leaf && leaf.Keys == raw.Keys && keys != [] && Sorted(keys) && lf >= 1 && |sub.pfirst| > 0
    requires SubOk(inner, leaf, sub, W, Grouped(keys, lf), PtrRow(sub.pfirst[0], |Grouped(keys, lf)|, size))
    requires leaf.Keys == Nodes(sub.pfirst[0], |Grouped(keys, lf)|, size) && s.cells == Unflushed(leaf, raw)
    requires |s.first| > 0 && s.firstWb == s.firstLow == |s.first| - 1 && s.first[|s.first| - 1] == sub.pfirst[0]
    ensures JustLoaded(s, keys)
  {
    hide Grouped, Sorted, LeavesAre, NodeAt, Nodes, Unflushed, LoadIs, JustLoaded, Stacked, LeafRow, Flat;
    var G, P := Grouped(keys, lf), PtrRow(sub.pfirst[0], |Grouped(keys, lf)|, size);
    GroupedFlat(keys, lf);
    FirstGroups(keys, lf);
    PtrRowDistinct(sub.pfirst[0], |G|, size);
    RowHead(sub.pfirst[0], |G|, size);
    RowNodes(sub.pfirst[0], |G|, size);
    LoadIntro(s, keys, LoadMem(leaf, raw, P, G));
  }

  lemma {:induction false} RowNodes(base: Ptr, n: nat, size: nat)
    ensures Nodes(base, n, size) == set j | 0 <= j < |PtrRow(base, n, size)| :: PtrRow(base, n, size)[j]
  {
    var P := PtrRow(base, n, size);
    hide NodeAt;
    assert forall j :: 0 <= j < n ==> P[j] == NodeAt(base, j, size);
  }

  lemma {:induction false} EmptyInners()
    ensures InnersOk(map[])
  {
  }

  lemma {:induction false} LoadFacts(inner: map<Ptr, Inner>, leaf: map<Ptr, Leaf>, raw: map<Ptr, RawLeaf>, sub: Sub, W: seq<seq<IdxEntry>>, keys: seq<Key>, lf: nat, f: nat,
                                     nvmpool: Mempool, mempool: Mempool)
    requires nvmpool.Valid() && mempool.Valid() && (mempool.end <= nvmpool.base || nvmpool.end <= mempool.base) && 1 <= lf && 1 <= f
    requires mempool.used == inner.Keys && nvmpool.used == leaf.Keys && 0 < |keys| < 0x8000_0000
    requires |sub.pfirst| == |sub.count| == sub.top + 1 && SubOk(inner, leaf, sub, W, Grouped(keys, lf), PtrRow(sub.pfirst[0], |Grouped(keys, lf)|, nvmpool.size))
    requires sub.count[0] == Ceiling(|keys|, lf) && (sub.count[sub.top] == 1 || sub.top == 31)
    requires forall l :: 0 < l <= sub.top ==> sub.count[l] == Ceiling(sub.count[l - 1], f + 1)
    requires sub.top <= 31
    ensures inner.Keys !! leaf.Keys && NULL !in leaf && sub.count[sub.top] == 1 && |W| == sub.top + 1 && |W[sub.top]| == 1 && W[sub.top][0].ch == sub.pfirst[sub.top]
  {
    hide Mempool.Valid, Stacked, LeavesAre, Grouped, Ceiling, LeafRow;
    PoolsApart(mempool, nvmpool);
    NoNull(nvmpool);
    OneRoot(sub.count, |keys|, lf, f);
  }

  lemma {:induction false} LoadedHere(inner: map<Ptr, Inner>, leaf: map<Ptr, Leaf>, raw: map<Ptr, RawLeaf>, s: State, sub: Sub, W: seq<seq<IdxEntry>>, keys: seq<Key>, lf: nat,
                                      nvmpool: Mempool)
    requires nvmpool.size > 0 && nvmpool.used == leaf.Keys && InnersOk(inner) && inner.Keys !! leaf.Keys && NULL !in leaf && leaf.Keys == raw.Keys
    requires keys != [] && Sorted(keys) && lf >= 1 && |sub.pfirst| == |sub.count| == sub.top + 1
    requires SubOk(inner, leaf, sub, W, Grouped(keys, lf), PtrRow(sub.pfirst[0], |Grouped(keys, lf)|, nvmpool.size)) && sub.count[sub.top] == 1
    requires forall p :: p in leaf ==> p in PtrRow(sub.pfirst[0], |Grouped(keys, lf)|, nvmpool.size)
    requires s.cells == Unflushed(leaf, raw) && s.firstWb == s.firstLow < |s.first| && s.first[|s.first| - 1] == sub.pfirst[0]
    ensures var root, h := sub.pfirst[sub.top], sub.top;
      && Struct(h, root, inner, s, nvmpool.used) && LocksAre(inner, {}) && Unlocked(View(s.cells, LeafList(inner, root, h)))
      && Union(View(s.cells, LeafList(inner, root, h))) == EntrySet(keys)
  {
    hide Stacked, LeavesAre, Grouped, LeafRow, Struct, LeafList, View, Union, Sorted, InnersOk, NodeAt;
    var G, P := Grouped(keys, lf), PtrRow(sub.pfirst[0], |Grouped(keys, lf)|, nvmpool.size);
    GroupedFlat(keys, lf);
    FirstGroups(keys, lf);
    PtrRowDistinct(sub.pfirst[0], |G|, nvmpool.size);
    RowHead(sub.pfirst[0], |G|, nvmpool.size);
    LeavesShaped(map[], leaf, P, G);
    LoadedStruct(inner, leaf, raw, s, W, G, P);
  }
}
