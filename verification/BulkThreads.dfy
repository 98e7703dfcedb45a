/** `bulkload` as a whole: one thread, or one share of the keys per thread and a top tree over the shares. */
module BulkThreads {
  import opened Types
  import opened LeafNode
  import opened Nvm
  import opened Levels
  import opened InnerNode
  import opened Pending
  import opened LeafLevel
  import opened TreeView
  import opened TreeState
  import opened MemPool
  import opened Grouping
  import opened BulkTree
  import opened BulkSubtree
  import opened BulkWhole
  import opened BulkCollect
  import opened BulkParallel
  import opened BulkShares
  import opened LbTree

  lemma {:induction false} FirstLevel(count: seq<nat>, n: nat, lf: Size, F: Size)
    requires count != [] && count[0] == Ceiling(n, lf) && (forall i :: 0 < i < |count| ==> count[i] == Ceiling(count[i - 1], F)) && count[|count| - 1] == 1
    requires forall l :: 0 <= l < |count| - 1 ==> count[l] > 1
    ensures JoinsAt(n, lf, F, |count| - 1)
  {
    CountsAll(count, n, lf, F);
  }

  /** The first share sets the joining level; every other share reaches up to it. */
  lemma {:induction false} ShareLevel(sub: Sub, n: nat, k: nat, lf: Size, F: Size, level: nat)
    requires |sub.count| == sub.top + 1 && sub.count[0] == Ceiling(n, lf) && sub.count[sub.top] == 1 && forall l :: 0 < l <= sub.top ==> sub.count[l] == Ceiling(sub.count[l - 1], F)
    requires n >= k && JoinsAt(k, lf, F, level)
    ensures level <= sub.top && forall l :: 0 <= l <= level ==> sub.count[l] == CountAt(n, lf, F, l)
  {
    HighEnough(sub.count, n, k, lf, F, level);
    CountsAll(sub.count, n, lf, F);
  }

  /** What a share's iteration leaves behind, besides the memory. */
  datatype Share = Share(sub: Sub, level: nat, list: seq<IdxEntry>)

  /** What a thread does with its share: a subtree in new memory. None is "run out of memory". */
  method LoadShare(ks: seq<Key>, lf: nat, f: nat, mempool: Mempool, nvmpool: Mempool, inner0: map<Ptr, Inner>, leaf0: map<Ptr, Leaf>)
    returns (loaded: Option<Sub>, inner: map<Ptr, Inner>, leaf: map<Ptr, Leaf>, ghost W: seq<seq<IdxEntry>>, ghost G: seq<seq<Key>>, ghost P: seq<Ptr>)
    requires mempool.Valid() && nvmpool.Valid() && mempool != nvmpool && (mempool.end <= nvmpool.base || nvmpool.end <= mempool.base)
    requires mempool.used == inner0.Keys && nvmpool.used == leaf0.Keys && 1 <= lf <= LEAF_KEY_NUM && 1 <= f <= NON_LEAF_KEY_NUM
    requires 0 < |ks| < 0x8000_0000 && Sorted(ks) && InnersOk(inner0)
    modifies mempool, nvmpool
    ensures mempool.Valid() && nvmpool.Valid() && mempool.end == old(mempool.end) && nvmpool.end == old(nvmpool.end)
    ensures loaded.Some? ==> mempool.used == inner.Keys && nvmpool.used == leaf.Keys && Grew(inner0, inner, leaf0, leaf)
    ensures loaded.Some? ==> ShareReady(inner0, inner, leaf, loaded.value, W, G, P, ks) && Counted(loaded.value, |ks|, lf, f) && ShareLeaves(leaf0, leaf, loaded.value, G, P, nvmpool.size)
    ensures loaded.Some? ==> G == Grouped(ks, lf)
    ensures loaded.Some? <==>
      && Enough(old(nvmpool.cur), Ceiling(|ks|, lf), nvmpool.size, nvmpool.end)
      && Enough(old(mempool.cur), Uppers(Ceiling(|ks|, lf), f + 1, 31), mempool.size, mempool.end)
    ensures loaded.Some? ==>
      && Moved(old(nvmpool.cur), Ceiling(|ks|, lf), nvmpool.size, nvmpool.cur)
      && Moved(old(mempool.cur), Uppers(Ceiling(|ks|, lf), f + 1, 31), mempool.size, mempool.cur)
  {
    hide Enough, Moved, Uppers, Mempool.Valid, SubOk, Grouped, Sorted, InnersOk, LeavesAre, LastSlots, NodeAt, Nodes, ShareReady, NewNodes, Ceiling, PtrRow, Grew, Counted, ShareLeaves;
    G, P := [], [];
    loaded, inner, leaf, W := BulkloadSubtree(ks, lf, f, 31, mempool, nvmpool, inner0, leaf0);
    if loaded == None { return; }
    var sub := loaded.value;
    ShareLoaded(inner0, inner, leaf0, leaf, sub, W, ks, lf, f, mempool, nvmpool);
    ShareCounted(inner0, inner, leaf0, leaf, sub, W, ks, lf, f, nvmpool.size);
    G, P := Grouped(ks, lf), PtrRow(sub.pfirst[0], |Grouped(ks, lf)|, nvmpool.size);
  }

  /** The node counts of a share's subtree, which ends in one root. */
  predicate Counted(sub: Sub, n: nat, lf: Size, f: nat) {
    && |sub.pfirst| == |sub.count| == sub.top + 1 && sub.top <= 31 && sub.count[0] == Ceiling(n, lf) > 0 && sub.count[sub.top] == 1
    && (forall l :: 0 < l <= sub.top ==> sub.count[l] == Ceiling(sub.count[l - 1], f + 1)) && forall l :: 0 <= l < sub.top ==> sub.count[l] > 1
  }

  /** The leaves of a share's subtree: new ones, at the pointers `P`. */
  predicate ShareLeaves(leaf0: map<Ptr, Leaf>, leaf: map<Ptr, Leaf>, sub: Sub, G: seq<seq<Key>>, P: seq<Ptr>, size: nat) {
    && LeavesAre(leaf, P, G) && |P| == |G| > 0 && |sub.pfirst| > 0 && |sub.count| > 0 && sub.count[0] > 0 && P[0] == sub.pfirst[0]
    && P[|P| - 1] == NodeAt(sub.pfirst[0], sub.count[0] - 1, size) && (forall j :: 0 <= j < |P| ==> P[j] !in leaf0) && leaf.Keys == leaf0.Keys + (set j | 0 <= j < |P| :: P[j])
    && P[0] in leaf && LastSlots(leaf[P[0]], G[0])
  }

  lemma {:induction false} ShareCounted(inner0: map<Ptr, Inner>, inner1: map<Ptr, Inner>, leaf0: map<Ptr, Leaf>, leaf1: map<Ptr, Leaf>, sub: Sub, W: seq<seq<IdxEntry>>, ks: seq<Key>, lf: nat, f: nat, size: nat)
    requires |sub.pfirst| == |sub.count| == sub.top + 1 && sub.top <= 31 && 1 <= lf && sub.count[0] == Ceiling(|ks|, lf)
    requires (forall l :: 0 < l <= sub.top ==> sub.count[l] == Ceiling(sub.count[l - 1], f + 1)) && forall l :: 0 <= l < sub.top ==> sub.count[l] > 1
    requires var G, P := Grouped(ks, lf), PtrRow(sub.pfirst[0], |Grouped(ks, lf)|, size);
      && ShareReady(inner0, inner1, leaf1, sub, W, G, P, ks) && LeavesAre(leaf1, P, G) && |P| == |G| == sub.count[0] && P[|P| - 1] == NodeAt(sub.pfirst[0], sub.count[0] - 1, size)
      && (forall j :: 0 <= j < |P| ==> P[j] !in leaf0) && leaf1.Keys == leaf0.Keys + (set j | 0 <= j < |P| :: P[j]) && P[0] in leaf1 && LastSlots(leaf1[P[0]], G[0])
    ensures Counted(sub, |ks|, lf, f) && ShareLeaves(leaf0, leaf1, sub, Grouped(ks, lf), PtrRow(sub.pfirst[0], |Grouped(ks, lf)|, size), size)
  {
    hide Grouped, Ceiling, LeavesAre, LastSlots, NodeAt, PtrRow, Tree, Stacked, NewNodes, InnersOk;
  }

  /** One share: its thread's subtree, connected to the leaves before it and collected at the joining level. */
  method AddShare(first: bool, ks: seq<Key>, lf: nat, f: nat, mempool: Mempool, nvmpool: Mempool, inner0: map<Ptr, Inner>, leaf0: map<Ptr, Leaf>, list0: seq<IdxEntry>, level0: nat, lp: Ptr,
                  ghost k: nat, ghost C0: seq<seq<IdxEntry>>, ghost G0: seq<seq<Key>>, ghost P0: seq<Ptr>, ghost keys: seq<Key>, ghost done: nat)
    returns (r: Option<Share>, inner: map<Ptr, Inner>, leaf: map<Ptr, Leaf>, ghost C: seq<seq<IdxEntry>>, ghost G: seq<seq<Key>>, ghost P: seq<Ptr>)
    requires mempool.Valid() && nvmpool.Valid() && mempool != nvmpool && (mempool.end <= nvmpool.base || nvmpool.end <= mempool.base)
    requires mempool.used == inner0.Keys && nvmpool.used == leaf0.Keys && 1 <= lf <= LEAF_KEY_NUM && 1 <= f <= NON_LEAF_KEY_NUM
    requires 0 < |ks| < 0x8000_0000 && Sorted(keys) && done + |ks| <= |keys| && ks == keys[done..done + |ks|] && |ks| >= k
    requires if first then done == 0 && inner0 == map[] && leaf0 == map[] && list0 == [] && G0 == [] && P0 == [] && k == |ks|
      else Joined(inner0, leaf0, C0, list0, G0, P0, keys, done, level0) && P0 != [] && lp == P0[|P0| - 1] && JoinsAt(k, lf, f + 1, level0)
    modifies mempool, nvmpool
    ensures mempool.Valid() && nvmpool.Valid() && mempool.end == old(mempool.end) && nvmpool.end == old(nvmpool.end)
    ensures r.Some? ==> mempool.used == inner.Keys && nvmpool.used == leaf.Keys && Joined(inner, leaf, C, r.value.list, G, P, keys, done + |ks|, r.value.level)
    ensures r.Some? ==> JoinsAt(k, lf, f + 1, r.value.level) && (!first ==> r.value.level == level0) && |r.value.list| == |list0| + CountAt(|ks|, lf, f + 1, r.value.level)
    ensures r.Some? ==> var sub := r.value.sub;
      && |sub.pfirst| == |sub.count| == sub.top + 1 && sub.count[0] > 0 && P != [] && P[|P| - 1] == NodeAt(sub.pfirst[0], sub.count[0] - 1, nvmpool.size)
      && (first ==> P[0] == sub.pfirst[0] && r.value.level == sub.top <= 31) && (!first ==> P[0] == P0[0])
    ensures r.Some? ==> G == G0 + Grouped(ks, lf) && |C| == r.value.level + 1 && (!first ==> |C0| == |C|)
    ensures r.Some? ==> forall l :: 0 <= l <= r.value.level ==> |C[l]| == (if first then 0 else |C0[l]|) + CountAt(|ks|, lf, f + 1, l)
    ensures r.Some? <==>
      && Enough(old(nvmpool.cur), Ceiling(|ks|, lf), nvmpool.size, nvmpool.end)
      && Enough(old(mempool.cur), Uppers(Ceiling(|ks|, lf), f + 1, 31), mempool.size, mempool.end)
    ensures r.Some? ==>
      && Moved(old(nvmpool.cur), Ceiling(|ks|, lf), nvmpool.size, nvmpool.cur)
      && Moved(old(mempool.cur), Uppers(Ceiling(|ks|, lf), f + 1, 31), mempool.size, mempool.cur)
  {
    hide Enough, Moved, Uppers, Mempool.Valid, SubOk, Grouped, Sorted, InnersOk, Stacked, LeavesAre, LastSlots, NodeAt, Nodes, Joined, JoinedLeaves, JoinsAt, CountAt, ShareReady, NewNodes, Ceiling, Over, Level, Tree,
      Connected, PtrRow, JoinLists, DistinctPtrs, NoneEmpty, Flat;
    C, G, P, r := C0, G0, P0, None;
    SortedPart(keys, done, done + |ks|);
    if first { NothingFirst(); } else { JoinedOk(inner0, leaf0, C0, list0, G0, P0, keys, done, level0); }
    var loaded, inner1, leaf1;
    ghost var W, G1, P1;
    loaded, inner1, leaf1, W, G1, P1 := LoadShare(ks, lf, f, mempool, nvmpool, inner0, leaf0);
    inner, leaf := inner1, leaf1;
    if loaded == None { return; }
    var sub := loaded.value;
    ReadyFacts(inner0, inner1, leaf1, sub, W, G1, P1, ks);
    var level;
    level, leaf, C := ConnectShare(first, sub, leaf0, leaf1, level0, lp, |ks|, lf, f, k, C0, G0, P0, G1, P1, keys, done, inner0, list0);
    ShareLevel(sub, |ks|, k, lf, f + 1, level);
    var leftKey := LeftKey(leaf1[sub.pfirst[0]], G1[0]);
    var out;
    out, inner := GetKeyPtrLevel(inner1, sub.pfirst[sub.top], sub.top, leftKey, level, mempool, leaf1.Keys);
    ShareJoined(inner0, inner1, inner, leaf0, leaf1, leaf, C, list0, G0, P0, keys, done, level, sub, W, G1, P1, |ks|);
    PtrsEnds(P0, P1);
    ListWidths(C, W, sub, level);
    C, G, P := JoinLists(C, W), G0 + G1, P0 + P1;
    r := Some(Share(sub, level, list0 + out));
  }

  /** The first share sets the joining level; the others are connected to the leaves before them. */
  method ConnectShare(first: bool, sub: Sub, leaf0: map<Ptr, Leaf>, leaf1: map<Ptr, Leaf>, level0: nat, lp: Ptr, ghost n: nat, ghost lf: nat, ghost f: nat, ghost k: nat,
                      ghost C0: seq<seq<IdxEntry>>, ghost G0: seq<seq<Key>>, ghost P0: seq<Ptr>, ghost G1: seq<seq<Key>>, ghost P1: seq<Ptr>, ghost keys: seq<Key>, ghost done: nat,
                      ghost inner0: map<Ptr, Inner>, ghost list0: seq<IdxEntry>)
    returns (level: nat, leaf: map<Ptr, Leaf>, ghost C: seq<seq<IdxEntry>>)
    requires 1 <= lf && |sub.count| == |sub.pfirst| == sub.top + 1 && sub.count[0] == Ceiling(n, lf) && (forall l :: 0 < l <= sub.top ==> sub.count[l] == Ceiling(sub.count[l - 1], f + 1))
    requires sub.count[sub.top] == 1 && (forall l :: 0 <= l < sub.top ==> sub.count[l] > 1)
    requires (forall p :: p in leaf0 ==> p in leaf1 && leaf1[p] == leaf0[p]) && LeavesAre(leaf1, P1, G1) && P1 != [] && P1[0] == sub.pfirst[0] && forall j :: 0 <= j < |P1| ==> P1[j] !in leaf0
    requires if first then done == 0 && inner0 == map[] && leaf0 == map[] && list0 == [] && G0 == [] && P0 == [] && k == n
      else Joined(inner0, leaf0, C0, list0, G0, P0, keys, done, level0) && P0 != [] && lp == P0[|P0| - 1] && JoinsAt(k, lf, f + 1, level0)
    ensures Joined(inner0, leaf0, C, list0, G0, P0, keys, done, level) && |C| == level + 1 && JoinsAt(k, lf, f + 1, level)
    ensures C == if first then seq(level + 1, _ => []) else C0
    ensures leaf.Keys == leaf1.Keys && LeavesAre(leaf, P0 + P1, G0 + G1) && level == if first then sub.top else level0
  {
    hide LeavesAre, Joined, JoinedLeaves, JoinsAt, CountAt, Ceiling, Connected;
    leaf, level, C := leaf1, level0, C0;
    if first {
      level := sub.top;
      FirstLevel(sub.count, n, lf, f + 1);
      C := seq(level + 1, _ => []);
      NothingJoined(keys, level);
      assert P0 + P1 == P1 && G0 + G1 == G1;
    } else {
      JoinedOk(inner0, leaf0, C0, list0, G0, P0, keys, done, level0);
      leaf := Connect(leaf0, leaf1, lp, sub.pfirst[0], P0, G0, P1, G1, keys, done);
    }
  }

  lemma {:induction false} NothingFirst()
    ensures InnersOk(map[])
  {
  }

  lemma {:induction false} JoinedOk(inner: map<Ptr, Inner>, leaf: map<Ptr, Leaf>, C: seq<seq<IdxEntry>>, list: seq<IdxEntry>, G: seq<seq<Key>>, P: seq<Ptr>, keys: seq<Key>, done: nat, level: nat)
    requires Joined(inner, leaf, C, list, G, P, keys, done, level)
    ensures InnersOk(inner) && JoinedLeaves(leaf, G, P, keys, done) && |G| == |P| && |C| == level + 1
  {
  }

  lemma {:induction false} ReadyFacts(inner0: map<Ptr, Inner>, inner1: map<Ptr, Inner>, leaf1: map<Ptr, Leaf>, sub: Sub, W: seq<seq<IdxEntry>>, G: seq<seq<Key>>, P: seq<Ptr>, ks: seq<Key>)
    requires ShareReady(inner0, inner1, leaf1, sub, W, G, P, ks)
    ensures forall l :: 0 <= l < |W| ==> l < |sub.count| && |W[l]| == sub.count[l]
    ensures |W| == sub.top + 1 == |sub.count| == |sub.pfirst| && sub.count[sub.top] == 1 && G != [] && |P| == |G| && P[0] == sub.pfirst[0] && InnersOk(inner1)
    ensures G[0] != [] && Tree(GraphOf(inner1), leaf1.Keys, [IdxEntry(G[0][0], sub.pfirst[sub.top])], sub.top) && W[sub.top] == [IdxEntry(G[0][0], sub.pfirst[sub.top])]
  {
    hide Tree, Stacked, GraphOf, NodeOk;
  }

  lemma {:induction false} ListWidths(C: seq<seq<IdxEntry>>, W: seq<seq<IdxEntry>>, sub: Sub, level: nat)
    requires |C| == level + 1 <= |W| == |sub.count| && forall l :: 0 <= l < |W| ==> |W[l]| == sub.count[l]
    ensures |JoinLists(C, W)| == level + 1 && forall l :: 0 <= l <= level ==> |JoinLists(C, W)[l]| == |C[l]| + sub.count[l]
  {
  }

  lemma {:induction false} PtrsEnds(P0: seq<Ptr>, P1: seq<Ptr>)
    requires P1 != []
    ensures var P := P0 + P1; P != [] && P[|P| - 1] == P1[|P1| - 1] && P[0] == if P0 == [] then P1[0] else P0[0]
  {
  }

  // ---------------------------------------------------------------- how high the tree gets

  /** The number of nodes collected for the top tree. */
  function TopNodes(n: nat, threads: nat, lf: Size, F: Size, level: nat): int
    requires threads > 0
  {
    threads - 1 + CountAt(LastShare(n, threads), lf, F, level)
  }

  /** `kn_max` */
  function LastShare(n: nat, threads: nat): (k: nat)
    requires threads > 0
  {
    Shares(n, threads);
    assert (threads - 1) * (n / threads) == threads * (n / threads) - n / threads;
    n - (threads - 1) * (n / threads)
  }

  /** The top tree comes down to one root within 31 levels. */
  predicate OneRootAt(n: nat, threads: nat, lf: Size, F: Size, level: nat)
    requires threads > 0
  {
    level <= 31 && TopNodes(n, threads, lf, F, level) >= 0 && CountAt(TopNodes(n, threads, lf, F, level), 1, F, 31 - level) == 1
  }

  lemma {:induction false} CountBound(n: nat, lf: Size, F: Size, l: nat, m: nat)
    requires n <= Pow2(m) && l <= m && F >= 2
    ensures CountAt(n, lf, F, l) <= Pow2(m - l)
    decreases l
  {
    if l == 0 {
      CeilingLess(n, lf);
    } else {
      CountBound(n, lf, F, l - 1, m);
      CeilingHalf(CountAt(n, lf, F, l - 1), F);
    }
  }

  lemma {:induction false} CountPositive(n: nat, lf: Size, F: Size, l: nat)
    requires n > 0
    ensures CountAt(n, lf, F, l) > 0
    decreases l
  {
    if l == 0 {
      CeilingStep(n, lf);
    } else {
      CountPositive(n, lf, F, l - 1);
      CeilingStep(CountAt(n, lf, F, l - 1), F);
    }
  }

  lemma {:induction false} Pow2Sum(a: nat, b: nat)
    ensures Pow2(a) * Pow2(b) == Pow2(a + b)
    decreases a
  {
    if a > 0 {
      Pow2Sum(a - 1, b);
      assert Pow2(a) * Pow2(b) == 2 * (Pow2(a - 1) * Pow2(b));
    }
  }

  lemma {:induction false} Pow2Positive(a: nat)
    ensures Pow2(a) > 0
    decreases a
  {
    if a > 0 { Pow2Positive(a - 1); }
  }

  lemma {:induction false} Product(a: nat, b: nat, x: nat, y: nat)
    requires a < x && b < y
    ensures a * b < x * y
  {
    assert a * b <= a * y;
    assert a * y < x * y by { assert (x - a) * y > 0; }
  }

  lemma {:induction false} Powers()
    ensures Pow2(0) == 1 && Pow2(29) == 0x2000_0000 && Pow2(30) == 0x4000_0000 && Pow2(31) == 0x8000_0000
  {
    assert Pow2(8) == 256;
    assert Pow2(16) == 0x1_0000;
    assert Pow2(24) == 0x100_0000;
  }

  /** The joining level leaves room for a level above it. */
  lemma {:induction false} LevelLow(n: nat, threads: nat, lf: Size, F: Size, level: nat)
    requires n < 0x8000_0000 && threads >= 2 && F >= 2 && JoinsAt(n / threads, lf, F, level)
    ensures level <= 30
  {
    hide Pow2;
    Powers();
    QuotientOf(n, threads);
    assert 2 * (n / threads) <= threads * (n / threads);
    CountBound(n / threads, lf, F, 30, 30);
  }

  lemma {:induction false} TwicePow(l: nat)
    ensures Pow2(l + 1) == 2 * Pow2(l)
  {
  }

  /** Many keys in each of many shares are more than there are. */
  lemma {:induction false} FewThreads(n: nat, threads: nat, level: nat)
    requires n <= Pow2(29) && threads >= 2 && level <= 30 && n / threads > if level == 0 then 1 else Pow2(level - 1)
    ensures threads <= Pow2(30 - level)
  {
    hide Pow2;
    var k := n / threads;
    Shares(n, threads);
    Powers();
    if threads > Pow2(30 - level) && level > 0 {
      Product(Pow2(level - 1), Pow2(30 - level), k, threads);
      Pow2Sum(level - 1, 30 - level);
    }
    if threads > Pow2(30 - level) && level == 0 { Product(1, Pow2(30), k, threads); }
  }

  /** Up to 2^29 keys, no number of threads makes the tree too tall. */
  lemma {:induction false} FewKeysFit(n: nat, threads: nat, lf: Size, F: Size, level: nat)
    requires n <= Pow2(29) && 2 <= threads && n > threads * 10 && F >= 2 && JoinsAt(n / threads, lf, F, level)
    ensures OneRootAt(n, threads, lf, F, level)
  {
    hide Pow2, CountAt;
    var k := n / threads;
    Shares(n, threads);
    FewTopNodes(n, threads, lf, F, level);
    var m := TopNodes(n, threads, lf, F, level);
    Powers();
    LevelLow(n, threads, lf, F, level);
    assert k > if level == 0 then 1 else Pow2(level - 1) by {
      if level > 0 && k <= Pow2(level - 1) { CountBound(k, lf, F, level - 1, level - 1); }
    }
    FewThreads(n, threads, level);
    TwicePow(30 - level);
    CountBound(m, 1, F, 31 - level, 31 - level);
    CountPositive(m, 1, F, 31 - level);
  }

  lemma {:induction false} CountOdd(a: nat, l: nat)
    requires l <= a
    ensures CountAt(Pow2(a) + 1, 1, 2, l) == Pow2(a - l) + 1
    decreases l
  {
    if l > 0 { CountOdd(a, l - 1); }
  }

  /** Beyond that it can: three threads, one key per leaf and two children per node give 32 levels, where one thread stays within 31. */
  lemma {:induction false} TooTallExample(n: nat, threads: nat, lf: Size, F: Size, level: nat)
    requires n == 3 * (Pow2(29) + 1) && threads == 3 && lf == 1 && F == 2 && level == 30
    ensures n < 0x8000_0000 && JoinsAt(n / threads, lf, F, level) && !OneRootAt(n, threads, lf, F, level) && CountAt(n, lf, F, level + 1) == 1
  {
    hide Pow2, CountAt;
    Powers();
    JoinsOdd(29);
    var k := n / threads;
    assert k == Pow2(29) + 1 && LastShare(n, threads) == k;
    TwoLevels();
    CountBound(n, lf, F, level + 1, 31);
    CountPositive(n, lf, F, level + 1);
  }

  lemma {:induction false} JoinsOdd(a: nat)
    ensures JoinsAt(Pow2(a) + 1, 1, 2, a + 1)
  {
    var k := Pow2(a) + 1;
    forall l | 0 <= l < a + 1 ensures CountAt(k, 1, 2, l) > 1 {
      CountOdd(a, l);
      Pow2Positive(a - l);
    }
    CountOdd(a, a);
    CeilingStep(2, 2);
  }

  lemma {:induction false} TwoLevels()
    ensures CountAt(3, 1, 2, 1) == 2
  {
    CeilingStep(3, 1);
    CeilingStep(2, 1);
    CeilingStep(1, 1);
    CeilingStep(3, 2);
    CeilingStep(1, 2);
  }

  /** Whether the top tree's last level has one node depends on the numbers only. */
  lemma {:induction false} TopCounts(count: seq<nat>, m: nat, F: Size, level: nat)
    requires level < |count| <= 32 && count[level] == m && (forall l :: level < l < |count| ==> count[l] == Ceiling(count[l - 1], F)) && F >= 2
    requires count[|count| - 1] == 1 || |count| == 32
    ensures count[|count| - 1] == 1 <==> CountAt(m, 1, F, 31 - level) == 1
  {
    forall i | 0 <= i < |count| - level ensures count[level + i] == CountAt(m, 1, F, i) { TopCount(count, m, F, level, i); }
    if count[|count| - 1] == 1 { StaysOne(m, F, |count| - 1 - level, 31 - level); }
  }

  lemma {:induction false} TopCount(count: seq<nat>, m: nat, F: Size, level: nat, i: nat)
    requires level + i < |count| && count[level] == m && forall l :: level < l < |count| ==> count[l] == Ceiling(count[l - 1], F)
    ensures count[level + i] == CountAt(m, 1, F, i)
    decreases i
  {
    if i > 0 {
      TopCount(count, m, F, level, i - 1);
      var l := level + i;
      assert count[l] == Ceiling(count[l - 1], F);
    }
  }

  lemma {:induction false} StaysOne(m: nat, F: Size, i: nat, j: nat)
    requires i <= j && CountAt(m, 1, F, i) == 1
    ensures CountAt(m, 1, F, j) == 1
    decreases j
  {
    if i < j {
      StaysOne(m, F, i, j - 1);
      CeilingStep(1, F);
    }
  }

  // ---------------------------------------------------------------- bulkload

  datatype Outcome = Loaded | PoolsEmpty | TooTall

  /** Shares `0` to `i - 1` are loaded. */
  ghost predicate Progress(inner: map<Ptr, Inner>, leaf: map<Ptr, Leaf>, C: seq<seq<IdxEntry>>, list: seq<IdxEntry>, G: seq<seq<Key>>, P: seq<Ptr>, keys: seq<Key>, i: nat, threads: nat,
                           lf: Size, F: Size, level: nat, done: nat) {
    && i <= threads && threads > 0 && done == StartOf(|keys|, threads, i)
    && (i == 0 ==> inner == map[] && leaf == map[] && list == [] && G == [] && P == [])
    && (i > 0 ==> Joined(inner, leaf, C, list, G, P, keys, done, level) && P != [] && JoinsAt(|keys| / threads, lf, F, level))
    && (i > 0 ==> |list| == if i < threads then i else TopNodes(|keys|, threads, lf, F, level))
  }

  /** `start_key` of thread `i`, or the end of the input */
  function StartOf(n: nat, threads: nat, i: nat): (s: nat)
    requires threads > 0 && i <= threads
    ensures s <= n
  {
    Shares(n, threads);
    if i == threads then n
    else
      assert i * (n / threads) <= threads * (n / threads);
      i * (n / threads)
  }

  /** `num_key` of thread `i` */
  function ShareOf(n: nat, threads: nat, i: nat): (s: nat)
    requires threads > 0 && i < threads
    ensures s >= n / threads && StartOf(n, threads, i) + s == StartOf(n, threads, i + 1) && (i < threads - 1 ==> s == n / threads)
  {
    Shares(n, threads);
    assert (threads - 1) * (n / threads) == threads * (n / threads) - n / threads;
    assert (i + 1) * (n / threads) == i * (n / threads) + n / threads;
    if i < threads - 1 then n / threads else LastShare(n, threads)
  }

  /** The leaves of the first `i` shares: each share's keys in groups of `lf`, its last leaf taking the rest. */
  function ShareGroups(keys: seq<Key>, threads: nat, lf: Size, i: nat): seq<seq<Key>>
    requires threads > 0 && i <= threads
  {
    if i == 0 then []
    else
      var a, k := StartOf(|keys|, threads, i - 1), ShareOf(|keys|, threads, i - 1);
      ShareGroups(keys, threads, lf, i - 1) + Grouped(keys[a..a + k], lf)
  }

  /** The nodes of level `l` in the first `i` shares. */
  function WidthOf(n: nat, threads: nat, lf: Size, F: Size, l: nat, i: nat): nat
    requires threads > 0 && i <= threads
  {
    if i == 0 then 0 else WidthOf(n, threads, lf, F, l, i - 1) + CountAt(ShareOf(n, threads, i - 1), lf, F, l)
  }

  /** The inner nodes allocated for the first `i` shares, those above the joining level included. */
  function UpperSum(n: nat, threads: nat, lf: Size, F: Size, i: nat): nat
    requires threads > 0 && i <= threads
  {
    if i == 0 then 0 else UpperSum(n, threads, lf, F, i - 1) + Uppers(Ceiling(ShareOf(n, threads, i - 1), lf), F, 31)
  }

  lemma {:induction false} SumsGrow(n: nat, threads: nat, lf: Size, F: Size, i: nat, j: nat)
    requires threads > 0 && i <= j <= threads
    ensures WidthOf(n, threads, lf, F, 0, i) <= WidthOf(n, threads, lf, F, 0, j) && UpperSum(n, threads, lf, F, i) <= UpperSum(n, threads, lf, F, j)
    decreases j
  {
    hide ShareOf, CountAt, Ceiling, Uppers;
    if i < j { SumsGrow(n, threads, lf, F, i, j - 1); }
  }

  /** Where the two pools stand after the first `i` shares, and whether they had enough for them. */
  predicate Used(nvm0: Ptr, nvm: Ptr, nvmEnd: Ptr, nvmSize: nat, mem0: Ptr, mem: Ptr, memEnd: Ptr, memSize: nat, n: nat, threads: nat, lf: Size, F: Size, i: nat)
    requires threads > 0 && i <= threads
  {
    && Moved(nvm0, WidthOf(n, threads, lf, F, 0, i), nvmSize, nvm) && Moved(mem0, UpperSum(n, threads, lf, F, i), memSize, mem)
    && Suffices(nvm0, nvmEnd, nvmSize, mem0, memEnd, memSize, n, threads, lf, F, i)
  }

  predicate Suffices(nvm0: Ptr, nvmEnd: Ptr, nvmSize: nat, mem0: Ptr, memEnd: Ptr, memSize: nat, n: nat, threads: nat, lf: Size, F: Size, i: nat)
    requires threads > 0 && i <= threads
  {
    Enough(nvm0, WidthOf(n, threads, lf, F, 0, i), nvmSize, nvmEnd) && Enough(mem0, UpperSum(n, threads, lf, F, i), memSize, memEnd)
  }

  lemma {:induction false} UsedNext(nvm0: Ptr, nvm: Ptr, nvm': Ptr, nvmEnd: Ptr, nvmSize: nat, mem0: Ptr, mem: Ptr, mem': Ptr, memEnd: Ptr, memSize: nat, n: nat, threads: nat, lf: Size, F: Size, i: nat)
    requires threads > 0 && i < threads && Used(nvm0, nvm, nvmEnd, nvmSize, mem0, mem, memEnd, memSize, n, threads, lf, F, i)
    ensures var c, u := Ceiling(ShareOf(n, threads, i), lf), Uppers(Ceiling(ShareOf(n, threads, i), lf), F, 31);
      if Enough(nvm, c, nvmSize, nvmEnd) && Enough(mem, u, memSize, memEnd) then
        Moved(nvm, c, nvmSize, nvm') && Moved(mem, u, memSize, mem') ==> Used(nvm0, nvm', nvmEnd, nvmSize, mem0, mem', memEnd, memSize, n, threads, lf, F, i + 1)
      else !Suffices(nvm0, nvmEnd, nvmSize, mem0, memEnd, memSize, n, threads, lf, F, threads)
  {
    hide ShareOf, Ceiling, Uppers;
    var c, u := Ceiling(ShareOf(n, threads, i), lf), Uppers(Ceiling(ShareOf(n, threads, i), lf), F, 31);
    assert CountAt(ShareOf(n, threads, i), lf, F, 0) == c;
    MoveOn(nvm0, WidthOf(n, threads, lf, F, 0, i), c, nvmSize, nvm, nvmEnd);
    MoveOn(mem0, UpperSum(n, threads, lf, F, i), u, memSize, mem, memEnd);
    SumsGrow(n, threads, lf, F, i + 1, threads);
    hide CountAt;
    MovedIs(nvm, c, nvmSize, nvm');
    MovedIs(mem, u, memSize, mem');
    hide Enough, Moved;
    if Suffices(nvm0, nvmEnd, nvmSize, mem0, memEnd, memSize, n, threads, lf, F, threads) {
      EnoughFewer(nvm0, WidthOf(n, threads, lf, F, 0, i + 1), WidthOf(n, threads, lf, F, 0, threads), nvmSize, nvmEnd);
      EnoughFewer(mem0, UpperSum(n, threads, lf, F, i + 1), UpperSum(n, threads, lf, F, threads), memSize, memEnd);
    }
  }

  lemma {:induction false} MovedIs(cur: Ptr, n: nat, size: nat, cur': Ptr)
    ensures Moved(cur, n, size, cur') <==> cur' == cur + n * size
  {
  }

  /** The shape of the first `i` shares. */
  ghost predicate Shapes(C: seq<seq<IdxEntry>>, G: seq<seq<Key>>, keys: seq<Key>, threads: nat, lf: Size, F: Size, level: nat, i: nat) {
    && i <= threads && threads > 0 && G == ShareGroups(keys, threads, lf, i)
    && (i > 0 ==> |C| == level + 1 && forall l :: 0 <= l <= level ==> |C[l]| == WidthOf(|keys|, threads, lf, F, l, i))
  }

  lemma {:induction false} ShapesNext(C0: seq<seq<IdxEntry>>, C: seq<seq<IdxEntry>>, G0: seq<seq<Key>>, G: seq<seq<Key>>, keys: seq<Key>, threads: nat, lf: Size, F: Size, level0: nat,
                                      level: nat, i: nat)
    requires i < threads && Shapes(C0, G0, keys, threads, lf, F, level0, i) && (i > 0 ==> level == level0)
    requires var a, k := StartOf(|keys|, threads, i), ShareOf(|keys|, threads, i); G == G0 + Grouped(keys[a..a + k], lf)
    requires |C| == level + 1 && (i > 0 ==> |C0| == |C|)
    requires forall l :: 0 <= l <= level ==> |C[l]| == (if i == 0 then 0 else |C0[l]|) + CountAt(ShareOf(|keys|, threads, i), lf, F, l)
    ensures Shapes(C, G, keys, threads, lf, F, level, i + 1)
  {
    hide StartOf, ShareOf, Grouped, CountAt;
    forall l | 0 <= l <= level ensures |C[l]| == WidthOf(|keys|, threads, lf, F, l, i + 1) { }
  }

  /** The next share goes on top of those done. */
  lemma {:induction false} Progressed(inner: map<Ptr, Inner>, leaf: map<Ptr, Leaf>, C: seq<seq<IdxEntry>>, list0: seq<IdxEntry>, list: seq<IdxEntry>, G: seq<seq<Key>>, P: seq<Ptr>,
                                      keys: seq<Key>, i: nat, threads: nat, lf: Size, F: Size, level: nat)
    requires i < threads && threads >= 2 && |list0| == i && P != [] && JoinsAt(|keys| / threads, lf, F, level)
    requires |list| == |list0| + CountAt(ShareOf(|keys|, threads, i), lf, F, level)
    requires Joined(inner, leaf, C, list, G, P, keys, StartOf(|keys|, threads, i + 1), level)
    ensures Progress(inner, leaf, C, list, G, P, keys, i + 1, threads, lf, F, level, StartOf(|keys|, threads, i + 1))
  {
    hide Joined, CountAt;
  }

  lemma {:induction false} ProgressAt(inner: map<Ptr, Inner>, leaf: map<Ptr, Leaf>, C: seq<seq<IdxEntry>>, list: seq<IdxEntry>, G: seq<seq<Key>>, P: seq<Ptr>,
                                      keys: seq<Key>, i: nat, threads: nat, lf: Size, F: Size, level: nat, done: nat)
    requires Progress(inner, leaf, C, list, G, P, keys, i, threads, lf, F, level, done) && i < threads
    ensures |list| == i && done == StartOf(|keys|, threads, i)
    ensures if i == 0 then done == 0 && inner == map[] && leaf == map[] && list == [] && G == [] && P == []
      else Joined(inner, leaf, C, list, G, P, keys, done, level) && P != [] && JoinsAt(|keys| / threads, lf, F, level)
  {
    hide Joined, JoinsAt, CountAt;
  }

  /** Steps 3 to 5: the shares of all threads, connected and collected. */
  method LoadShares(keys: seq<Key>, threads: nat, lf: nat, f: nat, mempool: Mempool, nvmpool: Mempool)
    returns (r: Option<Share>, inner: map<Ptr, Inner>, leaf: map<Ptr, Leaf>, ghost C: seq<seq<IdxEntry>>, ghost G: seq<seq<Key>>, ghost P: seq<Ptr>)
    requires mempool.Valid() && nvmpool.Valid() && mempool != nvmpool && (mempool.end <= nvmpool.base || nvmpool.end <= mempool.base)
    requires mempool.used == {} && nvmpool.used == {} && 1 <= lf <= LEAF_KEY_NUM && 1 <= f <= NON_LEAF_KEY_NUM
    requires threads >= 2 && |keys| > threads * 10 && |keys| < 0x8000_0000 && Sorted(keys)
    modifies mempool, nvmpool
    ensures mempool.Valid() && nvmpool.Valid() && mempool.end == old(mempool.end) && nvmpool.end == old(nvmpool.end)
    ensures r.Some? ==> var s := r.value;
      && mempool.used == inner.Keys && nvmpool.used == leaf.Keys && Progress(inner, leaf, C, s.list, G, P, keys, threads, threads, lf, f + 1, s.level, |keys|)
      && |s.sub.pfirst| == |s.sub.count| == s.level + 1 && s.level <= 31 && P != [] && P[0] == s.sub.pfirst[0]
      && Shapes(C, G, keys, threads, lf, f + 1, s.level, threads)
    ensures r.Some? <==> Suffices(old(nvmpool.cur), nvmpool.end, nvmpool.size, old(mempool.cur), mempool.end, mempool.size, |keys|, threads, lf, f + 1, threads)
    ensures r.Some? ==> Moved(old(mempool.cur), UpperSum(|keys|, threads, lf, f + 1, threads), mempool.size, mempool.cur)
  {
    hide Enough, Moved, Uppers, Suffices, Used, Ceiling, Mempool.Valid, Sorted, Progress, Joined, JoinsAt, CountAt, StartOf, ShareOf, NodeAt, Shapes, Grouped;
    C, G, P, inner, leaf, r := [], [], [], map[], map[], None;
    var list: seq<IdxEntry>, level: nat, lp: Ptr, done: nat := [], 0, NULL, 0;
    var sub0 := Sub(0, [NULL], [0]);
    ProgressStart(keys, threads, lf, f + 1);
    ShapesStart(keys, threads, lf, f + 1);
    UsedStart(nvmpool, mempool, |keys|, threads, lf, f + 1);
    Shares(|keys|, threads);
    for i := 0 to threads
      invariant mempool.Valid() && nvmpool.Valid() && mempool.end == old(mempool.end) && nvmpool.end == old(nvmpool.end)
      invariant mempool.used == inner.Keys && nvmpool.used == leaf.Keys
      invariant Used(old(nvmpool.cur), nvmpool.cur, nvmpool.end, nvmpool.size, old(mempool.cur), mempool.cur, mempool.end, mempool.size, |keys|, threads, lf, f + 1, i)
      invariant Progress(inner, leaf, C, list, G, P, keys, i, threads, lf, f + 1, level, done) && Shapes(C, G, keys, threads, lf, f + 1, level, i)
      invariant |sub0.pfirst| > 0 && done == StartOf(|keys|, threads, i)
      invariant i > 0 ==> P != [] && lp == P[|P| - 1] && P[0] == sub0.pfirst[0] && |sub0.pfirst| == |sub0.count| == level + 1 && level <= 31
    {
      ghost var list0, C0, G0, level0, nvm, mem := list, C, G, level, nvmpool.cur, mempool.cur;
      ProgressAt(inner, leaf, C, list, G, P, keys, i, threads, lf, f + 1, level, done);
      var num := ShareOf(|keys|, threads, i);
      var share;
      share, inner, leaf, C, G, P := AddShare(i == 0, keys[done..done + num], lf, f, mempool, nvmpool, inner, leaf, list, level, lp, |keys| / threads, C, G, P, keys, done);
      UsedNext(old(nvmpool.cur), nvm, nvmpool.cur, nvmpool.end, nvmpool.size, old(mempool.cur), mem, mempool.cur, mempool.end, mempool.size, |keys|, threads, lf, f + 1, i);
      if share == None { return; }
      done, list, level := done + num, share.value.list, share.value.level;
      if i == 0 { sub0 := share.value.sub; }
      lp := NodeAt(share.value.sub.pfirst[0], share.value.sub.count[0] - 1, nvmpool.size);
      Progressed(inner, leaf, C, list0, list, G, P, keys, i, threads, lf, f + 1, level);
      ShapesNext(C0, C, G0, G, keys, threads, lf, f + 1, level0, level, i);
    }
    r := Some(Share(sub0, level, list));
    UsedAll(old(nvmpool.cur), nvmpool.cur, nvmpool.end, nvmpool.size, old(mempool.cur), mempool.cur, mempool.end, mempool.size, |keys|, threads, lf, f + 1);
    LastStart(|keys|, threads);
  }

  lemma {:induction false} LastStart(n: nat, threads: nat)
    requires threads > 0
    ensures StartOf(n, threads, threads) == n
  {
  }

  lemma {:induction false} ProgressStart(keys: seq<Key>, threads: nat, lf: Size, F: Size)
    requires threads > 0
    ensures Progress(map[], map[], [], [], [], [], keys, 0, threads, lf, F, 0, 0)
  {
  }

  lemma {:induction false} UsedStart(nvmpool: Mempool, mempool: Mempool, n: nat, threads: nat, lf: Size, F: Size)
    requires threads > 0 && nvmpool.Valid() && mempool.Valid()
    ensures Used(nvmpool.cur, nvmpool.cur, nvmpool.end, nvmpool.size, mempool.cur, mempool.cur, mempool.end, mempool.size, n, threads, lf, F, 0)
  {
    NoneNeeded(nvmpool);
    NoneNeeded(mempool);
  }

  lemma {:induction false} UsedAll(nvm0: Ptr, nvm: Ptr, nvmEnd: Ptr, nvmSize: nat, mem0: Ptr, mem: Ptr, memEnd: Ptr, memSize: nat, n: nat, threads: nat, lf: Size, F: Size)
    requires threads > 0 && Used(nvm0, nvm, nvmEnd, nvmSize, mem0, mem, memEnd, memSize, n, threads, lf, F, threads)
    ensures Suffices(nvm0, nvmEnd, nvmSize, mem0, memEnd, memSize, n, threads, lf, F, threads) && Moved(mem0, UpperSum(n, threads, lf, F, threads), memSize, mem)
  {
  }

  lemma {:induction false} ShapesStart(keys: seq<Key>, threads: nat, lf: Size, F: Size)
    requires threads > 0
    ensures Shapes([], [], keys, threads, lf, F, 0, 0)
  {
  }

  /** The shares and the top tree over them make one tree. */
  lemma {:induction false} AllJoined(inner1: map<Ptr, Inner>, inner: map<Ptr, Inner>, leaf: map<Ptr, Leaf>, raw: map<Ptr, RawLeaf>, s: State, C: seq<seq<IdxEntry>>, V: seq<seq<IdxEntry>>,
                                     list: seq<IdxEntry>, G: seq<seq<Key>>, P: seq<Ptr>, keys: seq<Key>, level: nat)
    requires Joined(inner1, leaf, C, list, G, P, keys, |keys|, level) && P != [] && Sorted(keys)
    requires |V| >= 2 && Stacked(GraphOf(inner), V) && V[0] == list && |V[|V| - 1]| == 1 && InnersOk(inner) && forall p :: p in inner1 ==> p in inner && inner[p] == inner1[p]
    requires inner.Keys !! leaf.Keys && NULL !in leaf && leaf.Keys == raw.Keys && s.cells == Unflushed(leaf, raw)
    requires s.firstWb == s.firstLow < |s.first| && s.first[|s.first| - 1] == P[0]
    ensures var root, h := V[|V| - 1][0].ch, level + |V| - 1;
      && Struct(h, root, inner, s, leaf.Keys) && LocksAre(inner, {}) && Unlocked(View(s.cells, LeafList(inner, root, h)))
      && Union(View(s.cells, LeafList(inner, root, h))) == EntrySet(keys)
  {
    hide Stacked, LeavesAre, LeafRow, Struct, LeafList, View, Union, Sorted, InnersOk, GraphOf, Flat, DistinctPtrs, NoneEmpty, Unlocked, LocksAre, EntrySet, Unflushed, Leaf.Shape;
    GraphGrew(inner1, inner);
    StackFrame(GraphOf(inner1), GraphOf(inner), C);
    StackOnStack(GraphOf(inner), C, V);
    var W: seq<seq<IdxEntry>> := C + V[1..];
    assert W[|W| - 1] == V[|V| - 1] && |W| - 1 == level + |V| - 1;
    assert keys[..|keys|] == keys;
    forall p | p in leaf ensures p in P { var j :| 0 <= j < |P| && P[j] == p; }
    LeavesShaped(map[], leaf, P, G);
    LoadedStruct(inner, leaf, raw, s, W, G, P);
  }

  lemma {:induction false} GraphGrew(inner1: map<Ptr, Inner>, inner: map<Ptr, Inner>)
    requires forall p :: p in inner1 ==> p in inner && inner[p] == inner1[p]
    ensures forall p :: p in GraphOf(inner1) ==> p in GraphOf(inner) && GraphOf(inner)[p] == GraphOf(inner1)[p]
  {
  }

  lemma {:induction false} SharesDone(inner: map<Ptr, Inner>, leaf: map<Ptr, Leaf>, C: seq<seq<IdxEntry>>, list: seq<IdxEntry>, G: seq<seq<Key>>, P: seq<Ptr>, keys: seq<Key>, threads: nat,
                                      lf: Size, F: Size, level: nat)
    requires threads >= 2 && F >= 2 && |keys| > threads * 10 && |keys| < 0x8000_0000 && Progress(inner, leaf, C, list, G, P, keys, threads, threads, lf, F, level, |keys|)
    ensures Joined(inner, leaf, C, list, G, P, keys, |keys|, level) && JoinsAt(|keys| / threads, lf, F, level) && InnersOk(inner)
    ensures |list| == TopNodes(|keys|, threads, lf, F, level) && 2 <= |list| < 2 * threads && level <= 30
  {
    hide Stacked, JoinedLeaves, LeafRow, InnersOk;
    FewTopNodes(|keys|, threads, lf, F, level);
    LevelLow(|keys|, threads, lf, F, level);
  }

  /**
   * The levels of a load by several threads. Up to the joining level each has the nodes of all the shares; above it they are the nested
   * ceilings over the joining level, up to the first with one node.
   */
  ghost predicate SharesLoad(inner: map<Ptr, Inner>, root: Ptr, h: nat, n: nat, threads: nat, lf: Size, F: Size, level: nat) {
    && threads > 0 && level <= h && TopNodes(n, threads, lf, F, level) >= 0 && JoinsAt(TopNodes(n, threads, lf, F, level), 1, F, h - level)
    && forall l :: 0 <= l <= h ==> WidthIs(inner, root, h, l, WidthAt(n, threads, lf, F, level, l))
  }

  /** The nodes of level `l` in the whole load. */
  function WidthAt(n: nat, threads: nat, lf: Size, F: Size, level: nat, l: nat): nat
    requires threads > 0 && TopNodes(n, threads, lf, F, level) >= 0
  {
    if l <= level then WidthOf(n, threads, lf, F, l, threads) else CountAt(TopNodes(n, threads, lf, F, level), 1, F, l - level)
  }

  /** The stack of all levels: those of the shares, and those of the top tree. */
  lemma {:induction false} WholeStack(inner1: map<Ptr, Inner>, inner: map<Ptr, Inner>, leaf: map<Ptr, Leaf>, C: seq<seq<IdxEntry>>, V: seq<seq<IdxEntry>>,
                                      list: seq<IdxEntry>, G: seq<seq<Key>>, P: seq<Ptr>, keys: seq<Key>, level: nat)
    requires Joined(inner1, leaf, C, list, G, P, keys, |keys|, level)
    requires |V| >= 2 && Stacked(GraphOf(inner), V) && V[0] == list && |V[|V| - 1]| == 1 && forall p :: p in inner1 ==> p in inner && inner[p] == inner1[p]
    ensures var W := C + V[1..];
      && |C| == level + 1 && Stacked(GraphOf(inner), W) && |W| == level + |V| && W[|W| - 1] == V[|V| - 1] && |G| == |P| && W[0] == LeafRow(G, P)
      && (forall l :: 0 <= l <= level ==> W[l] == C[l]) && forall l :: level <= l < |W| ==> W[l] == V[l - level]
    ensures LeavesAre(leaf, P, G) && Flat(G) == keys && NoneEmpty(G) && DistinctPtrs(P)
  {
    hide Stacked, LeavesAre, LeafRow, InnersOk, GraphOf, Flat, DistinctPtrs, NoneEmpty;
    GraphGrew(inner1, inner);
    StackFrame(GraphOf(inner1), GraphOf(inner), C);
    StackOnStack(GraphOf(inner), C, V);
    assert keys[..|keys|] == keys;
  }

  lemma {:induction false} AllShaped(inner1: map<Ptr, Inner>, inner: map<Ptr, Inner>, leaf: map<Ptr, Leaf>, raw: map<Ptr, RawLeaf>, s: State, C: seq<seq<IdxEntry>>, V: seq<seq<IdxEntry>>,
                                     list: seq<IdxEntry>, G: seq<seq<Key>>, P: seq<Ptr>, keys: seq<Key>, level: nat, threads: nat, lf: Size, F: Size, count: seq<nat>)
    requires Joined(inner1, leaf, C, list, G, P, keys, |keys|, level) && Sorted(keys) && Shapes(C, G, keys, threads, lf, F, level, threads) && threads > 0
    requires |V| >= 2 && Stacked(GraphOf(inner), V) && V[0] == list && |V[|V| - 1]| == 1 && forall p :: p in inner1 ==> p in inner && inner[p] == inner1[p]
    requires inner.Keys !! leaf.Keys && leaf.Keys == raw.Keys && s.cells == Unflushed(leaf, raw)
    requires |list| == TopNodes(|keys|, threads, lf, F, level) && |list| > 1 && |count| == level + |V| && (forall i :: 0 <= i < |V| ==> |V[i]| == count[level + i])
    requires (forall l :: level < l < |count| ==> count[l] == Ceiling(count[l - 1], F)) && forall l :: level <= l < |count| - 1 ==> count[l] > 1
    ensures var root, h := V[|V| - 1][0].ch, level + |V| - 1;
      LeafGroups(View(s.cells, LeafList(inner, root, h)), ShareGroups(keys, threads, lf, threads)) && SharesLoad(inner, root, h, |keys|, threads, lf, F, level)
  {
    hide Stacked, LeavesAre, LeafRow, LeafList, View, Sorted, InnersOk, GraphOf, Flat, DistinctPtrs, NoneEmpty, Unflushed, LeafGroups, Joined, JoinedLeaves, TopNodes, CountAt, WidthOf,
      ShareGroups, WidthIs, Ceiling;
    WholeStack(inner1, inner, leaf, C, V, list, G, P, keys, level);
    var W: seq<seq<IdxEntry>> := C + V[1..];
    LoadedGroups(inner, leaf, raw, s.cells, W, G, P);
    LoadedWidths(inner, W);
    TopWidths(count, |list|, F, level, |V| - 1);
    var root, h := V[|V| - 1][0].ch, level + |V| - 1;
    forall l | 0 <= l <= h ensures WidthIs(inner, root, h, l, WidthAt(|keys|, threads, lf, F, level, l)) {
      assert WidthIs(inner, root, h, l, |W[l]|);
      if l > level { assert |W[l]| == count[l]; }
    }
  }

  lemma {:induction false} TopWidths(count: seq<nat>, m: nat, F: Size, level: nat, top: nat)
    requires |count| == level + top + 1 && count[level] == m && count[level + top] == 1
    requires (forall l :: level < l < |count| ==> count[l] == Ceiling(count[l - 1], F)) && forall l :: level <= l < |count| - 1 ==> count[l] > 1
    ensures JoinsAt(m, 1, F, top) && forall l :: level <= l < |count| ==> count[l] == CountAt(m, 1, F, l - level)
  {
    hide CountAt, Ceiling;
    forall l | level <= l < |count| ensures count[l] == CountAt(m, 1, F, l - level) { TopCount(count, m, F, level, l - level); }
    forall i | 0 <= i < top ensures CountAt(m, 1, F, i) > 1 { assert count[level + i] == CountAt(m, 1, F, level + i - level); }
  }

  /** The inner nodes of the top tree. */
  function TopUppers(n: nat, threads: nat, lf: Size, F: Size, level: nat): nat
    requires threads > 0 && level <= 31
  {
    Uppers(TopNodes(n, threads, lf, F, level), F, 31 - level)
  }

  /**
   * `bulkload`. With any number of threads and for every fill, from one key per node to full nodes, sorted keys give a tree in order
   * whose entries are the input, the same as with one thread, unless the tree would have more than 31 levels, where the
   * assertion at its end fails.
   */
  method Bulkload(t: LBTree, keys: seq<Key>, workers: nat, lf: nat, f: nat) returns (r: Outcome, ghost level: nat)
    requires t.inner == map[] && t.nvm.cells == map[] && t.nvm.first != []
    requires t.mempool.Valid() && t.nvmpool.Valid() && t.mempool != t.nvmpool && t.mempool.used == {} && t.nvmpool.used == {}
    requires t.mempool.end <= t.nvmpool.base || t.nvmpool.end <= t.mempool.base
    requires 0 < |keys| < 0x8000_0000 && Sorted(keys) && 1 <= lf <= LEAF_KEY_NUM && 1 <= f <= NON_LEAF_KEY_NUM && workers >= 1
    modifies t, t.mempool, t.nvmpool
    ensures r == TooTall ==> workers >= 2 && |keys| > workers * 10
    ensures workers >= 2 && |keys| > workers * 10 && r != PoolsEmpty ==>
      JoinsAt(|keys| / workers, lf, f + 1, level) && (r == Loaded <==> OneRootAt(|keys|, workers, lf, f + 1, level))
    ensures r == Loaded ==> t.Valid() && t.Contents() == EntrySet(keys) && JustLoaded(t.nvm, keys)
    ensures !(workers >= 2 && |keys| > workers * 10) ==> (r == PoolsEmpty <==> old(
      || t.nvmpool.cur + Ceiling(|keys|, lf) * t.nvmpool.size > t.nvmpool.end
      || t.mempool.cur + Uppers(Ceiling(|keys|, lf), f + 1, 31) * t.mempool.size > t.mempool.end))
    ensures workers >= 2 && |keys| > workers * 10 ==> (r == PoolsEmpty <==>
      || old(t.nvmpool.cur + WidthOf(|keys|, workers, lf, f + 1, 0, workers) * t.nvmpool.size > t.nvmpool.end)
      || old(t.mempool.cur + UpperSum(|keys|, workers, lf, f + 1, workers) * t.mempool.size > t.mempool.end)
      || (JoinsAt(|keys| / workers, lf, f + 1, level) && level <= 31
          && old(t.mempool.cur) + (UpperSum(|keys|, workers, lf, f + 1, workers) + TopUppers(|keys|, workers, lf, f + 1, level)) * t.mempool.size > old(t.mempool.end)))
    ensures r == Loaded && !(workers >= 2 && |keys| > workers * 10) ==> LeafLoad(t.Leaves(), keys, lf) && LevelLoad(t.inner, t.treeRoot, t.rootLevel, |keys|, lf, f + 1)
    ensures r == Loaded && workers >= 2 && |keys| > workers * 10 ==>
      LeafGroups(t.Leaves(), ShareGroups(keys, workers, lf, workers)) && SharesLoad(t.inner, t.treeRoot, t.rootLevel, |keys|, workers, lf, f + 1, level)
  {
    hide Suffices, Enough, Moved, Uppers, UpperSum, WidthOf, LeafLoad, LevelLoad, LeafGroups, ShareGroups, SharesLoad, Shapes, EvenStack, GraphOf, Mempool.Valid, Sorted, InnersOk, Struct, Stacked, Union, View, LeafList, LocksAre, Unlocked, Progress, Joined, JoinsAt, TopNodes, EntrySet, Unflushed, Ceiling, OneRootAt, Leaf.Shape, JustLoaded;
    level := 0;
    var threads := if |keys| > workers * 10 then workers else 1;
    if threads == 1 {
      var ok := BulkloadOne(t, keys, lf, f);
      return if ok then Loaded else PoolsEmpty, 0;
    }
    var share, inner1, leaf;
    ghost var C, G, P;
    ghost var mem0 := t.mempool.cur;
    SufficesIs(t.nvmpool.cur, t.nvmpool.end, t.nvmpool.size, mem0, t.mempool.end, t.mempool.size, |keys|, threads, lf, f + 1);
    share, inner1, leaf, C, G, P := LoadShares(keys, threads, lf, f, t.mempool, t.nvmpool);
    if share == None { return PoolsEmpty, 0; }
    var s := share.value;
    level := s.level;
    SharesDone(inner1, leaf, C, s.list, G, P, keys, threads, lf, f + 1, level);
    assert |s.list| <= threads * 3;
    TopMove(mem0, |keys|, threads, lf, f + 1, level, t.mempool.size, t.mempool.cur, t.mempool.end);
    var ok, count, pfirst, inner;
    ghost var V;
    ok, count, pfirst, inner, V := BulkloadToptree(s.list, s.sub.count[..s.level] + [|s.list|], s.sub.pfirst, f, 31, t.mempool, inner1);
    if !ok { return PoolsEmpty, level; }
    var topLevel := |count| - 1;
    TopDecides(count, |keys|, threads, lf, f + 1, level, |s.list|);
    if count[topLevel] != 1 { return TooTall, level; }
    var raw := LeafContents(leaf);
    PoolsApart(t.mempool, t.nvmpool);
    NoNull(t.nvmpool);
    t.inner := inner;
    t.nvm := State(Unflushed(leaf, raw), t.nvm.first + [s.sub.pfirst[0]], |t.nvm.first|, |t.nvm.first|);
    t.rootLevel := topLevel;
    t.treeRoot := pfirst[topLevel];
    r := Loaded;
    AllJoined(inner1, inner, leaf, raw, t.nvm, C, V, s.list, G, P, keys, level);
    LoadedShares(inner1, leaf, raw, t.nvm, C, s.list, G, P, keys, level);
    AllShaped(inner1, inner, leaf, raw, t.nvm, C, V, s.list, G, P, keys, level, threads, lf, f + 1, count);
  }

  lemma {:induction false} SufficesIs(nvm0: Ptr, nvmEnd: Ptr, nvmSize: nat, mem0: Ptr, memEnd: Ptr, memSize: nat, n: nat, threads: nat, lf: Size, F: Size)
    requires threads > 0
    ensures Suffices(nvm0, nvmEnd, nvmSize, mem0, memEnd, memSize, n, threads, lf, F, threads) <==>
      nvm0 + WidthOf(n, threads, lf, F, 0, threads) * nvmSize <= nvmEnd && mem0 + UpperSum(n, threads, lf, F, threads) * memSize <= memEnd
  {
    hide WidthOf, UpperSum;
  }

  lemma {:induction false} TopMove(mem0: Ptr, n: nat, threads: nat, lf: Size, F: Size, level: nat, size: nat, cur: Ptr, end: Ptr)
    requires threads > 0 && level <= 31 && Moved(mem0, UpperSum(n, threads, lf, F, threads), size, cur)
    ensures Enough(cur, TopUppers(n, threads, lf, F, level), size, end) <==>
      mem0 + (UpperSum(n, threads, lf, F, threads) + TopUppers(n, threads, lf, F, level)) * size <= end
  {
    hide UpperSum, TopUppers;
    MoveOn(mem0, UpperSum(n, threads, lf, F, threads), TopUppers(n, threads, lf, F, level), size, cur, end);
  }

  lemma {:induction false} LoadedShares(inner1: map<Ptr, Inner>, leaf: map<Ptr, Leaf>, raw: map<Ptr, RawLeaf>, s: State, C: seq<seq<IdxEntry>>, list: seq<IdxEntry>, G: seq<seq<Key>>,
                                        P: seq<Ptr>, keys: seq<Key>, level: nat)
    requires Joined(inner1, leaf, C, list, G, P, keys, |keys|, level) && P != [] && Sorted(keys) && NULL !in leaf && leaf.Keys == raw.Keys && s.cells == Unflushed(leaf, raw)
    requires |s.first| > 0 && s.firstWb == s.firstLow == |s.first| - 1 && s.first[|s.first| - 1] == P[0]
    ensures JustLoaded(s, keys)
  {
    hide Stacked, LeavesAre, LeafRow, Sorted, InnersOk, GraphOf, Flat, DistinctPtrs, NoneEmpty, Unflushed, LoadIs, JustLoaded;
    assert keys[..|keys|] == keys;
    LoadIntro(s, keys, LoadMem(leaf, raw, P, G));
  }

  lemma {:induction false} TopDecides(count: seq<nat>, n: nat, threads: nat, lf: Size, F: Size, level: nat, m: nat)
    requires threads > 0 && level + 1 < |count| <= 32 && count[level] == m == TopNodes(n, threads, lf, F, level) && F >= 2
    requires (forall l :: level + 1 <= l < |count| ==> count[l] == Ceiling(count[l - 1], F)) && (count[|count| - 1] == 1 || |count| == 32)
    ensures count[|count| - 1] == 1 <==> OneRootAt(n, threads, lf, F, level)
  {
    hide TopNodes, CountAt;
    TopCounts(count, m, F, level);
  }
}
