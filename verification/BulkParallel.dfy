/** `bulkload` with several threads: subtrees over equal shares of the keys, joined at the level of the first, and a top tree over them. */
module BulkParallel {
  import opened Types
  import opened LeafNode
  import opened Levels
  import opened Pending
  import opened MemPool
  import opened Grouping
  import opened BulkRows
  import opened BulkTree
  import opened BulkSubtree
  import opened LbTree

  // ---------------------------------------------------------------- how many top nodes

  lemma {:induction false} CeilingOne(a: nat, F: Size)
    ensures Ceiling(a + 1, F) <= Ceiling(a, F) + 1
    decreases a
  {
    CeilingStep(a, F);
    CeilingStep(a + 1, F);
    if a > F {
      assert a + 1 - F == a - F + 1;
      CeilingOne(a - F, F);
    } else if a == F {
      CeilingStep(1, F);
    }
  }

  lemma {:induction false} CeilingAdd(a: nat, d: nat, F: Size)
    ensures Ceiling(a + d, F) <= Ceiling(a, F) + d
    decreases d
  {
    if d > 0 {
      CeilingAdd(a, d - 1, F);
      assert a + d == a + (d - 1) + 1;
      CeilingOne(a + (d - 1), F);
    }
  }

  /** `d` keys more make at most `d` nodes more on any level. */
  lemma {:induction false} CountAdd(n: nat, d: nat, lf: Size, F: Size, l: nat)
    ensures CountAt(n, lf, F, l) <= CountAt(n + d, lf, F, l) <= CountAt(n, lf, F, l) + d
    decreases l
  {
    if l == 0 {
      CeilingAdd(n, d, lf);
      CeilingGrows(n, n + d, lf);
    } else {
      CountAdd(n, d, lf, F, l - 1);
      var a, b := CountAt(n, lf, F, l - 1), CountAt(n + d, lf, F, l - 1);
      CeilingAdd(a, d, F);
      CeilingGrows(a, b, F);
      CeilingGrows(b, a + d, F);
    }
  }

  /** The shares: the last one has fewer than `threads` keys more than the others. */
  lemma {:induction false} Shares(n: nat, threads: nat)
    requires threads > 0
    ensures var k := n / threads; 0 <= n - threads * k < threads && (n > threads * 10 ==> k >= 10)
  {
    var k := n / threads;
    assert n == k * threads + n % threads;
    if n > threads * 10 && k < 10 { Less(k, 10, threads); }
  }

  /** The nodes collected for the top tree: one for each share but the last, and fewer than `2 * threads` in all. */
  lemma {:induction false} FewTopNodes(n: nat, threads: nat, lf: Size, F: Size, level: nat)
    requires threads >= 2 && CountAt(n / threads, lf, F, level) == 1
    ensures var k := n / threads; var last := n - (threads - 1) * k;
      last >= k && 1 <= CountAt(last, lf, F, level) && threads - 1 + CountAt(last, lf, F, level) < 2 * threads
  {
    Shares(n, threads);
    var k := n / threads;
    var last := n - (threads - 1) * k;
    assert (threads - 1) * k == threads * k - k;
    CountAdd(k, last - k, lf, F, level);
  }

  // ---------------------------------------------------------------- joining

  function JoinLists(C: seq<seq<IdxEntry>>, W: seq<seq<IdxEntry>>): seq<seq<IdxEntry>>
    requires |C| <= |W|
  {
    seq(|C|, l requires 0 <= l < |C| => C[l] + W[l])
  }

  lemma {:induction false} JoinStacked(g: Graph, C: seq<seq<IdxEntry>>, W: seq<seq<IdxEntry>>)
    requires |C| <= |W| && Stacked(g, C) && Stacked(g, W[..|C|])
    ensures Stacked(g, JoinLists(C, W))
  {
    hide Closed, ExpandAll;
    var J := JoinLists(C, W);
    forall l | 0 < l < |J| ensures OnTop(g, J, l) {
      assert OnTop(g, C, l) && OnTop(g, W[..|C|], l);
      ExpandConcat(g, C[l], W[l]);
      ClosedJoin(g, C[l], W[l]);
    }
  }

  lemma {:induction false} ClosedJoin(g: Graph, A: seq<IdxEntry>, B: seq<IdxEntry>)
    requires Closed(g, A) && Closed(g, B)
    ensures Closed(g, A + B)
  {
  }

  /** Removing nodes that no list mentions above level 0. */
  lemma {:induction false} StackLess(g: Graph, g': Graph, V: seq<seq<IdxEntry>>, gone: set<Ptr>)
    requires Stacked(g, V) && forall p :: p in g && p !in gone ==> p in g' && g'[p] == g[p]
    requires forall l, j :: 0 < l < |V| && 0 <= j < |V[l]| ==> V[l][j].ch !in gone
    ensures Stacked(g', V)
  {
    forall l | 0 < l < |V| ensures OnTop(g', V, l) {
      assert OnTop(g, V, l);
      ExpandFrame(g, g', V[l]);
    }
  }

  lemma {:induction false} StackPrefix(g: Graph, W: seq<seq<IdxEntry>>, n: nat)
    requires Stacked(g, W) && n <= |W|
    ensures Stacked(g, W[..n])
  {
    forall l | 0 < l < n ensures OnTop(g, W[..n], l) { assert OnTop(g, W, l); }
  }

  lemma {:induction false} FirstKeys(g: Graph, W: seq<seq<IdxEntry>>, l: nat)
    requires Stacked(g, W) && l < |W| && W[l] != []
    ensures W[0] != [] && W[l][0].k == W[0][0].k
    decreases l
  {
    if l > 0 {
      assert OnTop(g, W, l);
      FirstKey(g, W[l]);
      FirstKeys(g, W, l - 1);
    }
  }

  /** Stacks one on the other. */
  lemma {:induction false} StackOnStack(g: Graph, C: seq<seq<IdxEntry>>, V: seq<seq<IdxEntry>>)
    requires C != [] && V != [] && Stacked(g, C) && Stacked(g, V) && V[0] == C[|C| - 1]
    ensures Stacked(g, C + V[1..])
  {
    hide Closed, ExpandAll;
    var W := C + V[1..];
    forall l | 0 < l < |W| ensures OnTop(g, W, l) {
      if l < |C| {
        assert OnTop(g, C, l);
      } else {
        assert OnTop(g, V, l - |C| + 1);
        assert W[l] == V[l - |C| + 1] && W[l - 1] == V[l - |C|];
      }
    }
  }

  lemma {:induction false} RowJoin(G: seq<seq<Key>>, P: seq<Ptr>, G': seq<seq<Key>>, P': seq<Ptr>)
    requires |G| == |P| && |G'| == |P'|
    ensures LeafRow(G + G', P + P') == LeafRow(G, P) + LeafRow(G', P')
  {
  }

  lemma {:induction false} FlatJoin<T>(G: seq<seq<T>>, H: seq<seq<T>>)
    ensures Flat(G + H) == Flat(G) + Flat(H)
    decreases |G|
  {
    if G == [] {
      assert G + H == H;
    } else {
      assert (G + H)[1..] == G[1..] + H;
      FlatJoin(G[1..], H);
    }
  }

  // ---------------------------------------------------------------- connecting the leaves

  /** `lp->next[0]= q`, in a leaf as bulkload leaves it */
  function Connected(x: Leaf, q: Ptr): Leaf
    requires |x.next| == 2
  {
    x.(next := x.next[0 := q])
  }

  lemma {:induction false} ConnectedRight(x: Leaf, ks: seq<Key>, next: Ptr, q: Ptr)
    requires LeafRight(x, ks, next)
    ensures |x.next| == 2 && LeafRight(Connected(x, q), ks, q)
  {
    var y := Connected(x, q);
    assert LeafOk(y) && Entries(y) == Entries(x);
  }

  /** After the last leaf of the first part is pointed to the first leaf of the second, both are one chain. */
  lemma {:induction false} LeavesJoin(leaf: map<Ptr, Leaf>, P: seq<Ptr>, G: seq<seq<Key>>, P': seq<Ptr>, G': seq<seq<Key>>)
    requires LeavesAre(leaf, P, G) && LeavesAre(leaf, P', G') && P != [] && P' != [] && DistinctPtrs(P) && P[|P| - 1] !in P'
    requires P[|P| - 1] in leaf && |leaf[P[|P| - 1]].next| == 2
    ensures LeavesAre(leaf[P[|P| - 1] := Connected(leaf[P[|P| - 1]], P'[0])], P + P', G + G')
  {
    var t := P[|P| - 1];
    var leaf' := leaf[t := Connected(leaf[t], P'[0])];
    hide LeafRight;
    forall j | 0 <= j < |P + P'| ensures LeafSpot(leaf', P + P', G + G', j) {
      if j < |P| {
        assert LeafSpot(leaf, P, G, j);
        if j == |P| - 1 { ConnectedRight(leaf[t], G[j], NextPtr(P, j), P'[0]); }
      } else {
        assert LeafSpot(leaf, P', G', j - |P|);
      }
    }
  }

  lemma {:induction false} LastLeaf(leaf: map<Ptr, Leaf>, P: seq<Ptr>, G: seq<seq<Key>>)
    requires LeavesAre(leaf, P, G) && P != []
    ensures P[|P| - 1] in leaf && |leaf[P[|P| - 1]].next| == 2 && P[0] in leaf && LeafRight(leaf[P[0]], G[0], NextPtr(P, 0))
  {
    assert LeafSpot(leaf, P, G, |P| - 1) && LeafSpot(leaf, P, G, 0);
    LeafWith(leaf[P[|P| - 1]], G[|P| - 1]);
  }

  lemma {:induction false} LeavesGrew(leaf0: map<Ptr, Leaf>, leaf: map<Ptr, Leaf>, P: seq<Ptr>, G: seq<seq<Key>>)
    requires LeavesAre(leaf0, P, G) && forall p :: p in leaf0 ==> p in leaf && leaf[p] == leaf0[p]
    ensures LeavesAre(leaf, P, G)
  {
    hide LeafRight, NextPtr;
    forall j | 0 <= j < |P| ensures LeafSpot(leaf, P, G, j) {
      assert LeafSpot(leaf0, P, G, j);
      var p := P[j];
      assert p in leaf0 && leaf[p] == leaf0[p];
    }
  }

  // ---------------------------------------------------------------- bulkloadToptree

  /** `bulkloadToptree`: a tree over the nodes of level `|count0| - 1`. False is "run out of memory". */
  method BulkloadToptree(list: seq<IdxEntry>, count0: seq<nat>, pfirst0: seq<Ptr>, f: nat, target: nat, mempool: Mempool, inner0: map<Ptr, Inner>)
    returns (ok: bool, count: seq<nat>, pfirst: seq<Ptr>, inner: map<Ptr, Inner>, ghost W: seq<seq<IdxEntry>>)
    requires mempool.Valid() && mempool.used == inner0.Keys && InnersOk(inner0) && 1 <= f <= NON_LEAF_KEY_NUM
    requires |list| >= 2 && count0 != [] && count0[|count0| - 1] == |list| && |pfirst0| == |count0| && target >= |count0|
    modifies mempool
    ensures mempool.Valid() && mempool.end == old(mempool.end)
    ensures ok ==> mempool.used == inner.Keys && InnersOk(inner) && forall p :: p in inner0 ==> p in inner && inner[p] == inner0[p]
    ensures ok ==> count0 <= count && |count| > |count0| && |pfirst| == |count| && |W| == |count| - |count0| + 1 && Stacked(GraphOf(inner), W) && W[0] == list
    ensures ok ==> EvenStack(GraphOf(inner), W, f + 1) && (forall i :: 0 <= i < |W| ==> |W[i]| == count[|count0| - 1 + i]) && forall l :: |count0| - 1 <= l < |count| - 1 ==> count[l] > 1
    ensures ok <==> Enough(old(mempool.cur), Uppers(|list|, f + 1, target + 1 - |count0|), mempool.size, mempool.end)
    ensures ok ==> |W[|W| - 1]| == count[|count| - 1] > 0 && W[|W| - 1][0].ch == pfirst[|count| - 1]
    ensures ok ==> (forall l :: |count0| <= l < |count| ==> count[l] == Ceiling(count[l - 1], f + 1)) && |count| <= target + 1 && (count[|count| - 1] == 1 || |count| == target + 1)
  {
    hide Mempool.Valid, Nodes, NodeAt, RowsHold, Separate, PlacedUpTo, Ceiling, Stacked, AllNodes, InnersOk, LevelLists, EvenStack, GraphOf, Enough, Moved, Uppers;
    ghost var from := |count0|;
    W, inner := [], inner0;
    count := Counts(count0, f, target);
    CountsTotal(count, f + 1, |count0|, target);
    pfirst, ok := AllocRows(mempool, pfirst0, count, |count0|);
    if !ok { return; }
    var rows, cur, A := NewRows(count, pfirst, |count0|, f, mempool.size);
    Sizes(rows, cur, count, pfirst, A, from, |count| - 1, f + 1, mempool.size);
    for i := 0 to |list|
      invariant RowsHold(rows, cur, count, pfirst, A, from, |count| - 1, f + 1, mempool.size) && |A| == |count| && A[from] == list[..i]
      invariant mempool.Valid() && mempool.end == old(mempool.end) && mempool.used == inner0.Keys + AllNodes(pfirst, count, from, |count|, mempool.size)
    {
      rows, cur, A := AppendUp(rows, cur, count, pfirst, |count0|, |count| - 1, f, mempool.size, list[i].ch, list[i].k, A);
      Sizes(rows, cur, count, pfirst, A, from, |count| - 1, f + 1, mempool.size);
      assert list[..i + 1] == list[..i] + [list[i]];
    }
    assert list[..|list|] == list;
    RowSizes(rows, cur, count, pfirst, A, from, f + 1, mempool.size);
    PoolSize(mempool);
    inner := Place(inner0, rows, pfirst, count, |count0|, mempool.size);
    W := LevelLists(A, list, pfirst, from, |count| - 1, f + 1, mempool.size);
    RowsStack(inner, rows, cur, count, pfirst, A, from, |count| - 1, f + 1, mempool.size, list);
    RowsFine(inner0, inner, rows, cur, count, pfirst, A, from, f + 1, mempool.size);
    ListsStart(A, list, pfirst, from, |count| - 1, f + 1, mempool.size);
    ok := true;
  }
}
