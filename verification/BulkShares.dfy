/** One share of a parallel load: its subtree hung behind the leaves loaded so far and its nodes collected at the joining level. */
module BulkShares {
  import opened Types
  import opened LeafNode
  import opened Levels
  import opened TreeSteps
  import opened Pending
  import opened MemPool
  import opened Grouping
  import opened BulkTree
  import opened BulkSubtree
  import opened BulkWhole
  import opened BulkCollect
  import opened BulkParallel

  /** The shares loaded so far: `C[l]` is the list of level `l`, up to the joining level `level`. */
  ghost predicate Joined(inner: map<Ptr, Inner>, leaf: map<Ptr, Leaf>, C: seq<seq<IdxEntry>>, list: seq<IdxEntry>, G: seq<seq<Key>>, P: seq<Ptr>, keys: seq<Key>, done: nat, level: nat) {
    && |C| == level + 1 && Stacked(GraphOf(inner), C) && |G| == |P| && C[0] == LeafRow(G, P) && C[level] == list && InnersOk(inner)
    && JoinedLeaves(leaf, G, P, keys, done)
  }

  predicate JoinedLeaves(leaf: map<Ptr, Leaf>, G: seq<seq<Key>>, P: seq<Ptr>, keys: seq<Key>, done: nat) {
    LeavesAre(leaf, P, G) && DistinctPtrs(P) && NoneEmpty(G) && done <= |keys| && Flat(G) == keys[..done] && leaf.Keys == (set j | 0 <= j < |P| :: P[j])
  }

  lemma {:induction false} NothingJoined(keys: seq<Key>, level: nat)
    ensures Joined(map[], map[], seq(level + 1, _ => []), [], [], [], keys, 0, level)
  {
    var C: seq<seq<IdxEntry>> := seq(level + 1, _ => []);
    ExpandEmpty(map[]);
    assert GraphOf(map[]) == map[];
    assert LeafRow([], []) == [];
  }

  // ---------------------------------------------------------------- the leaves

  /** The last leaf so far points to the first new one. */
  method Connect(leaf0: map<Ptr, Leaf>, leaf1: map<Ptr, Leaf>, lp: Ptr, first: Ptr, ghost P: seq<Ptr>, ghost G: seq<seq<Key>>, ghost P1: seq<Ptr>, ghost G1: seq<seq<Key>>,
                 ghost keys: seq<Key>, ghost done: nat)
    returns (leaf: map<Ptr, Leaf>)
    requires JoinedLeaves(leaf0, G, P, keys, done) && P != [] && lp == P[|P| - 1] && P1 != [] && first == P1[0]
    requires (forall p :: p in leaf0 ==> p in leaf1 && leaf1[p] == leaf0[p]) && LeavesAre(leaf1, P1, G1) && forall j :: 0 <= j < |P1| ==> P1[j] !in leaf0
    ensures leaf.Keys == leaf1.Keys && LeavesAre(leaf, P + P1, G + G1)
  {
    LeavesGrew(leaf0, leaf1, P, G);
    LastLeaf(leaf1, P, G);
    assert lp in leaf0;
    leaf := leaf1[lp := Connected(leaf1[lp], first)];
    LeavesJoin(leaf1, P, G, P1, G1);
  }

  lemma {:induction false} LeavesMore(leaf0: map<Ptr, Leaf>, leaf: map<Ptr, Leaf>, P: seq<Ptr>, G: seq<seq<Key>>, P1: seq<Ptr>, G1: seq<seq<Key>>, keys: seq<Key>, done: nat, more: nat)
    requires JoinedLeaves(leaf0, G, P, keys, done) && LeavesAre(leaf, P + P1, G + G1) && |P1| == |G1| && |P| == |G|
    requires DistinctPtrs(P1) && NoneEmpty(G1) && done + more <= |keys| && Flat(G1) == keys[done..done + more]
    requires (forall j :: 0 <= j < |P1| ==> P1[j] !in leaf0) && leaf.Keys == leaf0.Keys + (set j | 0 <= j < |P1| :: P1[j])
    ensures JoinedLeaves(leaf, G + G1, P + P1, keys, done + more)
  {
    hide LeavesAre, Flat;
    FlatJoin(G, G1);
    assert keys[..done + more] == keys[..done] + keys[done..done + more];
    PtrsJoin(P, P1, leaf0.Keys);
  }

  lemma {:induction false} PtrsJoin(P: seq<Ptr>, P1: seq<Ptr>, old0: set<Ptr>)
    requires DistinctPtrs(P) && DistinctPtrs(P1) && old0 == (set j | 0 <= j < |P| :: P[j]) && forall j :: 0 <= j < |P1| ==> P1[j] !in old0
    ensures DistinctPtrs(P + P1) && old0 + (set j | 0 <= j < |P1| :: P1[j]) == set j | 0 <= j < |P + P1| :: (P + P1)[j]
  {
    var Q := P + P1;
    forall i, j | 0 <= i < j < |Q| ensures Q[i] != Q[j] {
      if i < |P| <= j { assert P[i] in old0; }
    }
    forall j | 0 <= j < |P| ensures P[j] in (set j | 0 <= j < |Q| :: Q[j]) { assert Q[j] == P[j]; }
    forall j | 0 <= j < |P1| ensures P1[j] in (set j | 0 <= j < |Q| :: Q[j]) { assert Q[|P| + j] == P1[j]; }
  }

  lemma {:induction false} LastBits(b: seq<bool>, n: nat)
    requires n <= |b| && forall i :: 0 <= i < |b| ==> b[i] == (i >= |b| - n)
    ensures CountBits(b) == n
    decreases |b|
  {
    if b != [] { LastBits(b[1..], if n == |b| then n - 1 else n); }
  }

  /** `lp->k(LEAF_KEY_NUM - lp->num())`: the first slot in use of a loaded leaf holds its smallest key. */
  method LeftKey(x: Leaf, ghost ks: seq<Key>) returns (k: Key)
    requires LastSlots(x, ks)
    ensures ks != [] && k == ks[0]
  {
    LastBits(x.m.bitmap, |ks|);
    k := x.ent[LEAF_KEY_NUM - CountBits(x.m.bitmap)].k;
  }

  // ---------------------------------------------------------------- the nodes

  /** A share's levels are a tree of their own. */
  lemma {:induction false} ShareTree(inner: map<Ptr, Inner>, leaf: map<Ptr, Leaf>, leaves: set<Ptr>, sub: Sub, W: seq<seq<IdxEntry>>, G: seq<seq<Key>>, P: seq<Ptr>)
    requires SubOk(inner, leaf, sub, W, G, P) && sub.count[sub.top] == 1 && Sorted(Flat(G)) && NoneEmpty(G) && DistinctPtrs(P) && inner.Keys !! leaves
    requires forall j :: 0 <= j < |P| ==> P[j] in leaves
    ensures G != [] && W[sub.top] == [IdxEntry(G[0][0], sub.pfirst[sub.top])] && Tree(GraphOf(inner), leaves, W[sub.top], sub.top)
  {
    var g, top := GraphOf(inner), sub.top;
    assert g.Keys == inner.Keys;
    FirstKeys(g, W, top);
    assert W[0] == LeafRow(G, P);
    hide GraphOf, Stacked;
    forall i, j | 0 <= i < j < |P| ensures W[0][i].ch != W[0][j].ch && W[0][i].k < W[0][j].k { GroupsApart(G, i, j, 0, 0); }
    assert Tree(g, leaves, W[0], 0);
    StackTree(g, leaves, W, top);
  }

  /** A node above the joining level is on one of the share's upper levels. */
  lemma {:induction false} OverLevel(g: Graph, W: seq<seq<IdxEntry>>, top: nat, level: nat, p: Ptr) returns (l: nat)
    requires Stacked(g, W) && |W| == top + 1 && level <= top && p in Over(g, W[top], top, level)
    ensures level < l <= top && Has(W[l], p)
  {
    OverHas(g, W[top], top, level, p);
    l :| level < l <= top && Has(Level(g, W[top], top, l), p);
    StackLevel(g, W, top, l);
  }

  /** Collecting a share at the joining level: both parts keep their levels up to there. */
  lemma {:induction false} Collected(inner0: map<Ptr, Inner>, inner1: map<Ptr, Inner>, inner: map<Ptr, Inner>, leaves: set<Ptr>, C: seq<seq<IdxEntry>>, W: seq<seq<IdxEntry>>, top: nat, level: nat)
    requires |C| == level + 1 && level <= top && |W| == top + 1 && Stacked(GraphOf(inner0), C) && Stacked(GraphOf(inner1), W)
    requires (forall p :: p in inner0 ==> p in inner1 && inner1[p] == inner0[p]) && NewNodes(inner0, W) && Tree(GraphOf(inner1), leaves, W[top], top)
    requires inner == inner1 - Over(GraphOf(inner1), W[top], top, level)
    ensures Stacked(GraphOf(inner), JoinLists(C, W)) && Level(GraphOf(inner1), W[top], top, level) == W[level]
  {
    var g0, g1, g := GraphOf(inner0), GraphOf(inner1), GraphOf(inner);
    var gone := Over(g1, W[top], top, level);
    hide Tree, Over, Stacked, Closed, Level, NewNodes;
    assert forall p :: p in g0 ==> p in g1 && g1[p] == g0[p];
    assert forall p :: p in g1 && p !in gone ==> p in g && g[p] == g1[p];
    StackLevel(g1, W, top, level);
    StackFrame(g0, g1, C);
    StackPrefix(g1, W, |C|);
    JoinStacked(g1, C, W);
    forall l, j | 0 < l < |C| && 0 <= j < |JoinLists(C, W)[l]| ensures JoinLists(C, W)[l][j].ch !in gone {
      if j < |C[l]| {
        OldStays(inner0, inner1, C, W, top, level, l, j);
      } else {
        LowStays(g1, leaves, W, top, level, l, j - |C[l]|);
      }
    }
    StackLess(g1, g, JoinLists(C, W), gone);
  }

  lemma {:induction false} OldStays(inner0: map<Ptr, Inner>, inner1: map<Ptr, Inner>, C: seq<seq<IdxEntry>>, W: seq<seq<IdxEntry>>, top: nat, level: nat, l: nat, j: nat)
    requires level <= top && |W| == top + 1 && Stacked(GraphOf(inner0), C) && Stacked(GraphOf(inner1), W) && NewNodes(inner0, W) && 0 < l < |C| && j < |C[l]|
    ensures C[l][j].ch !in Over(GraphOf(inner1), W[top], top, level)
  {
    assert OnTop(GraphOf(inner0), C, l);
    assert C[l][j].ch in inner0;
    hide Over, Stacked, OnTop;
    if C[l][j].ch in Over(GraphOf(inner1), W[top], top, level) {
      var m := OverLevel(GraphOf(inner1), W, top, level, C[l][j].ch);
    }
  }

  lemma {:induction false} LowStays(g: Graph, leaves: set<Ptr>, W: seq<seq<IdxEntry>>, top: nat, level: nat, l: nat, j: nat)
    requires level <= top && |W| == top + 1 && Stacked(g, W) && Tree(g, leaves, W[top], top) && l <= level && j < |W[l]|
    ensures W[l][j].ch !in Over(g, W[top], top, level)
  {
    hide Over, Stacked, Tree, Level;
    if W[l][j].ch in Over(g, W[top], top, level) {
      var m := OverLevel(g, W, top, level, W[l][j].ch);
      StackLevel(g, W, top, l);
      StackLevel(g, W, top, m);
      TreeLevel(g, leaves, W[top], top, l);
      TreeLevel(g, leaves, W[top], top, m);
      assert Has(W[l], W[l][j].ch);
      OneLevel(g, leaves, W[l], l, W[m], m, W[l][j].ch);
    }
  }

  // ---------------------------------------------------------------- one share

  lemma {:induction false} HighEnough(count: seq<nat>, n: nat, k: nat, lf: Size, F: Size, level: nat)
    requires count != [] && count[0] == Ceiling(n, lf) && (forall i :: 0 < i < |count| ==> count[i] == Ceiling(count[i - 1], F)) && count[|count| - 1] == 1
    requires n >= k && forall l :: 0 <= l < level ==> CountAt(k, lf, F, l) > 1
    ensures level <= |count| - 1
  {
    var top := |count| - 1;
    CountsAre(count, n, lf, F, top);
    CountAdd(k, n - k, lf, F, top);
    assert k + (n - k) == n;
  }

  lemma {:induction false} NodesRow(base: Ptr, n: nat, size: nat)
    ensures Nodes(base, n, size) == set j | 0 <= j < |PtrRow(base, n, size)| :: PtrRow(base, n, size)[j]
    ensures n > 0 ==> PtrRow(base, n, size)[n - 1] == NodeAt(base, n - 1, size)
  {
    RowNodes(base, n, size);
  }

  lemma {:induction false} FewerOk(inner1: map<Ptr, Inner>, gone: set<Ptr>)
    requires InnersOk(inner1)
    ensures InnersOk(inner1 - gone)
  {
  }

  /** The subtree of a share, ready to be joined: its keys, leaves and levels. */
  ghost predicate ShareReady(inner0: map<Ptr, Inner>, inner1: map<Ptr, Inner>, leaf1: map<Ptr, Leaf>, sub: Sub, W: seq<seq<IdxEntry>>, G: seq<seq<Key>>, P: seq<Ptr>, ks: seq<Key>) {
    && SubNodes(inner1, sub, W, G, P) && sub.count[sub.top] == 1 && Flat(G) == ks && NoneEmpty(G) && G != [] && DistinctPtrs(P) && NewNodes(inner0, W) && InnersOk(inner1)
    && W[sub.top] == [IdxEntry(G[0][0], sub.pfirst[sub.top])] && Tree(GraphOf(inner1), leaf1.Keys, W[sub.top], sub.top) && P[0] == sub.pfirst[0]
  }

  lemma {:induction false} ShareJoined(inner0: map<Ptr, Inner>, inner1: map<Ptr, Inner>, inner: map<Ptr, Inner>, leaf0: map<Ptr, Leaf>, leaf1: map<Ptr, Leaf>, leaf: map<Ptr, Leaf>,
                                       C: seq<seq<IdxEntry>>, list: seq<IdxEntry>, G: seq<seq<Key>>, P: seq<Ptr>, keys: seq<Key>, done: nat, level: nat,
                                       sub: Sub, W: seq<seq<IdxEntry>>, G1: seq<seq<Key>>, P1: seq<Ptr>, more: nat)
    requires Joined(inner0, leaf0, C, list, G, P, keys, done, level) && done + more <= |keys| && level <= sub.top
    requires ShareReady(inner0, inner1, leaf1, sub, W, G1, P1, keys[done..done + more]) && (forall p :: p in inner0 ==> p in inner1 && inner1[p] == inner0[p])
    requires inner == inner1 - Over(GraphOf(inner1), W[sub.top], sub.top, level)
    requires LeavesAre(leaf, P + P1, G + G1) && (forall j :: 0 <= j < |P1| ==> P1[j] !in leaf0) && leaf.Keys == leaf0.Keys + (set j | 0 <= j < |P1| :: P1[j])
    ensures |W| == sub.top + 1
    ensures Joined(inner, leaf, JoinLists(C, W), list + W[level], G + G1, P + P1, keys, done + more, level)
    ensures Level(GraphOf(inner1), W[sub.top], sub.top, level) == W[level] && |W[level]| == sub.count[level]
  {
    hide Stacked, Over, Tree, LeavesAre, NewNodes, InnersOk, LeafRow, DistinctPtrs, NoneEmpty, JoinedLeaves, GraphOf, Level;
    Collected(inner0, inner1, inner, leaf1.Keys, C, W, sub.top, level);
    FewerOk(inner1, Over(GraphOf(inner1), W[sub.top], sub.top, level));
    RowJoin(G, P, G1, P1);
    LeavesMore(leaf0, leaf, P, G, P1, G1, keys, done, more);
    assert JoinLists(C, W)[0] == C[0] + W[0] && JoinLists(C, W)[level] == C[level] + W[level];
  }

  lemma {:induction false} SortedPart(keys: seq<Key>, a: nat, b: nat)
    requires Sorted(keys) && a <= b <= |keys|
    ensures Sorted(keys[a..b])
  {
  }

  /** The subtree that a share's thread built. */
  lemma {:induction false} ShareLoaded(inner0: map<Ptr, Inner>, inner1: map<Ptr, Inner>, leaf0: map<Ptr, Leaf>, leaf1: map<Ptr, Leaf>, sub: Sub, W: seq<seq<IdxEntry>>, ks: seq<Key>, lf: nat, f: nat,
                                       mempool: Mempool, nvmpool: Mempool)
    requires nvmpool.Valid() && mempool.Valid() && (mempool.end <= nvmpool.base || nvmpool.end <= mempool.base) && 1 <= lf && 1 <= f
    requires mempool.used == inner1.Keys && nvmpool.used == leaf1.Keys && 0 < |ks| < 0x8000_0000 && Sorted(ks) && InnersOk(inner1) && NewNodes(inner0, W)
    requires |sub.pfirst| == |sub.count| == sub.top + 1 && SubOk(inner1, leaf1, sub, W, Grouped(ks, lf), PtrRow(sub.pfirst[0], |Grouped(ks, lf)|, nvmpool.size))
    requires sub.count[0] == Ceiling(|ks|, lf) && (sub.count[sub.top] == 1 || sub.top == 31) && sub.top <= 31
    requires forall l :: 0 < l <= sub.top ==> sub.count[l] == Ceiling(sub.count[l - 1], f + 1)
    requires Nodes(sub.pfirst[0], |Grouped(ks, lf)|, nvmpool.size) !! leaf0.Keys && leaf1.Keys == leaf0.Keys + Nodes(sub.pfirst[0], |Grouped(ks, lf)|, nvmpool.size)
    ensures var G, P := Grouped(ks, lf), PtrRow(sub.pfirst[0], |Grouped(ks, lf)|, nvmpool.size);
      && ShareReady(inner0, inner1, leaf1, sub, W, G, P, ks) && LeavesAre(leaf1, P, G) && |P| == |G| == sub.count[0] && P[|P| - 1] == NodeAt(sub.pfirst[0], sub.count[0] - 1, nvmpool.size)
      && (forall j :: 0 <= j < |P| ==> P[j] !in leaf0) && leaf1.Keys == leaf0.Keys + (set j | 0 <= j < |P| :: P[j]) && P[0] in leaf1 && LastSlots(leaf1[P[0]], G[0])
  {
    hide Mempool.Valid, Stacked, LeavesAre, Grouped, Ceiling, LeafRow, Nodes, NodeAt, Sorted, InnersOk, NewNodes, Tree, LastSlots;
    PoolSize(nvmpool);
    PoolsApart(mempool, nvmpool);
    OneRoot(sub.count, |ks|, lf, f);
    var G, P := Grouped(ks, lf), PtrRow(sub.pfirst[0], |Grouped(ks, lf)|, nvmpool.size);
    GroupedFlat(ks, lf);
    GroupCount(ks, lf);
    FirstGroups(ks, lf);
    PtrRowDistinct(sub.pfirst[0], |G|, nvmpool.size);
    NodesRow(sub.pfirst[0], |G|, nvmpool.size);
    RowHead(sub.pfirst[0], |G|, nvmpool.size);
    ShareTree(inner1, leaf1, leaf1.Keys, sub, W, G, P);
    LastLeaf(leaf1, P, G);
  }
}
