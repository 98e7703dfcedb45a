/** The upward phase of `insert` on a whole tree: the invariant of Part 3, and what each of its cases does to it. */
module InsertSteps {
  import opened Types
  import opened Levels
  import opened TreeSteps
  import opened InnerNode
  import opened Pending
  import opened TreeState

  lemma {:induction false} GraphPut(inner: map<Ptr, Inner>, p: Ptr, n: Inner)
    ensures GraphOf(inner[p := n]) == GraphOf(inner)[p := KidsOf(n)]
  {
  }

  lemma {:induction false} OverfullIs(inner: map<Ptr, Inner>, p: Ptr, c: nat, n: IdxEntry)
    requires p in inner && NodesOk(inner) && inner[p].num == NON_LEAF_KEY_NUM && c <= NON_LEAF_KEY_NUM
    ensures Overfull(inner[p], c + 1, n) == InsertAt(GraphOf(inner)[p], c, n)
    ensures |Overfull(inner[p], c + 1, n)| == NON_LEAF_KEY_NUM + 2
  {
  }

  /**
   * Part 3 at level `lev`: the pair `n` is not in the inner nodes yet, but with it put in place at
   * `parray[lev]` (or beside the root) they form a tree with leaf list `L`.
   */
  ghost predicate Climbing(h: nat, root: Ptr, inner: map<Ptr, Inner>, leaves: set<Ptr>, L: seq<IdxEntry>,
                           lev: nat, parray: seq<Ptr>, ppos: seq<nat>, n: IdxEntry)
  {
    && NodesOk(inner) && 1 <= lev <= h + 1 && |parray| == |ppos| == h + 1
    && if lev <= h then
         && parray[lev] in GraphOf(inner) && ppos[lev] < |GraphOf(inner)[parray[lev]]|
         && ClimbTree(WithPending(GraphOf(inner), parray[lev], ppos[lev], n), h, root, leaves, L, lev, parray, ppos)
       else
         Tree(GraphOf(inner), leaves, TopWith(root, n), h) && Level(GraphOf(inner), TopWith(root, n), h, 0) == L
  }

  ghost predicate ClimbTree(g: Graph, h: nat, root: Ptr, leaves: set<Ptr>, L: seq<IdxEntry>, lev: nat, parray: seq<Ptr>, ppos: seq<nat>) {
    Tree(g, leaves, Top(root), h) && PathFrom(g, Top(root), h, lev, parray, ppos) && Level(g, Top(root), h, 0) == L
  }

  /** The leaf split has happened. */
  lemma {:induction false} ClimbStart(h: nat, root: Ptr, inner: map<Ptr, Inner>, leaves: set<Ptr>, key: Key,
                                      parray: seq<Ptr>, ppos: seq<nat>, ctxs: seq<Ctx>, n: IdxEntry)
    requires NodesOk(inner) && Tree(GraphOf(inner), leaves, Top(root), h)
    requires CtxPath(GraphOf(inner), Top(root), h, 0, key, parray, ppos, ctxs)
    requires n.ch !in leaves && n.ch !in inner && ctxs[0].e.k < n.k && Below(n.k, ctxs[0].B)
    ensures Climbing(h, root, inner, leaves + {n.ch}, After(ctxs[0], n), 1, parray, ppos, n)
  {
    var g := GraphOf(inner);
    assert CtxAt(g, Top(root), h, 0, key, parray[0], ctxs[0]);
    if h == 0 {
      OnlyOne(root, ctxs[0]);
      RootLeafPending(g, leaves, root, n);
    } else {
      assert CtxAt(g, Top(root), h, 1, key, parray[1], ctxs[1]) && StepAt(g, ctxs[1], ppos[1], ctxs[0]);
      PathOf(g, Top(root), h, key, parray, ppos, ctxs);
      LeafPending(g, leaves, Top(root), h, parray, ppos, ctxs[1], n);
    }
  }

  lemma {:induction false} OnlyOne(root: Ptr, x: Ctx)
    requires x.All() == Top(root)
    ensures x == Ctx([], IdxEntry(0, root), [])
  {
    assert |x.All()| == |x.A| + 1 + |x.B|;
    assert x.All()[0] == x.e;
  }

  /** The non-full case: the pair goes into `parray[lev]`, and the tree is whole. */
  lemma {:induction false} ClimbDone(h: nat, root: Ptr, inner: map<Ptr, Inner>, leaves: set<Ptr>, L: seq<IdxEntry>,
                                     lev: nat, parray: seq<Ptr>, ppos: seq<nat>, n: IdxEntry, p': Inner)
    requires Climbing(h, root, inner, leaves, L, lev, parray, ppos, n) && lev <= h
    requires NodeOk(p') && Children(p') == InsertAt(GraphOf(inner)[parray[lev]], ppos[lev], n)
    ensures var inner' := inner[parray[lev] := p'];
      NodesOk(inner') && Tree(GraphOf(inner'), leaves, Top(root), h) && LeafList(inner', root, h) == L
  {
    GraphPut(inner, parray[lev], p');
    hide Tree, Level, PathFrom;
  }

  /** The full case below the root: the right half becomes the pending pair one level up. */
  lemma {:induction false} ClimbSplit(h: nat, root: Ptr, inner: map<Ptr, Inner>, leaves: set<Ptr>, L: seq<IdxEntry>,
                                      lev: nat, parray: seq<Ptr>, ppos: seq<nat>, n: IdxEntry, p': Inner, newp: Ptr, q': Inner, up: Key)
    requires Climbing(h, root, inner, leaves, L, lev, parray, ppos, n) && lev <= h
    requires newp !in inner && newp !in leaves && NodeOk(p') && NodeOk(q')
    requires var ks := InsertAt(GraphOf(inner)[parray[lev]], ppos[lev], n);
      LEFT_KEY_NUM + 1 < |ks| && Children(p') == ks[..LEFT_KEY_NUM + 1] && Children(q') == ks[LEFT_KEY_NUM + 1..] && up == ks[LEFT_KEY_NUM + 1].k
    ensures Climbing(h, root, inner[parray[lev] := p'][newp := q'], leaves, L, lev + 1, parray, ppos, IdxEntry(up, newp))
  {
    var p, m, inner' := parray[lev], LEFT_KEY_NUM + 1, inner[parray[lev] := p'][newp := q'];
    var g, ks := GraphOf(inner), InsertAt(GraphOf(inner)[p], ppos[lev], n);
    GraphPut(inner, p, p');
    GraphPut(inner[p := p'], newp, q');
    PathHere(g[p := ks], Top(root), h, lev, parray, ppos);
    var g' := Halved(g, p, ks, m, newp);
    assert GraphOf(inner') == g';
    assert NodesOk(inner');
    HalvedAgain(g, p, ks, m, newp);
    hide Tree, Level, PathFrom, PathAt, GraphOf, InsertAt, NodesOk, Halved, Children;
    if lev < h {
      ClimbSplitBelow(h, root, g, leaves, L, lev, parray, ppos, ks, newp, IdxEntry(up, newp));
    } else {
      RootPending(g[p := ks], g', leaves, root, h, m, newp);
    }
  }

  /** The graph with the full node's children `ks` divided between `p` and the new node. */
  function Halved(g: Graph, p: Ptr, ks: seq<IdxEntry>, m: nat, newp: Ptr): Graph
    requires m <= |ks|
  {
    g[p := ks[..m]][newp := ks[m..]]
  }

  lemma {:induction false} HalvedAgain(g: Graph, p: Ptr, ks: seq<IdxEntry>, m: nat, newp: Ptr)
    requires m <= |ks|
    ensures Halved(g[p := ks], p, ks, m, newp) == Halved(g, p, ks, m, newp)
  {
  }

  lemma {:induction false} HalvedElse(g: Graph, p: Ptr, ks: seq<IdxEntry>, m: nat, newp: Ptr, q: Ptr)
    requires m <= |ks| && q in g && q != p && q != newp
    ensures q in Halved(g, p, ks, m, newp) && Halved(g, p, ks, m, newp)[q] == g[q] && g[p := ks][q] == g[q]
  {
  }

  lemma {:induction false} ClimbSplitBelow(h: nat, root: Ptr, g: Graph, leaves: set<Ptr>, L: seq<IdxEntry>, lev: nat,
                                           parray: seq<Ptr>, ppos: seq<nat>, ks: seq<IdxEntry>, newp: Ptr, n': IdxEntry)
    requires 0 < lev < h < |parray| && h < |ppos| && parray[lev] in g && LEFT_KEY_NUM + 1 < |ks|
    requires ClimbTree(g[parray[lev] := ks], h, root, leaves, L, lev, parray, ppos)
    requires newp !in g && newp !in leaves && n' == IdxEntry(ks[LEFT_KEY_NUM + 1].k, newp)
    ensures var g', q, c := Halved(g, parray[lev], ks, LEFT_KEY_NUM + 1, newp), parray[lev + 1], ppos[lev + 1];
      q in g' && c < |g'[q]| && ClimbTree(WithPending(g', q, c, n'), h, root, leaves, L, lev + 1, parray, ppos)
  {
    var p, q, c, m, gp := parray[lev], parray[lev + 1], ppos[lev + 1], LEFT_KEY_NUM + 1, g[parray[lev] := ks];
    PathHere(gp, Top(root), h, lev, parray, ppos);
    PathDistinct(gp, leaves, Top(root), h, lev, parray, ppos, lev, lev + 1);
    HalvedElse(g, p, ks, m, newp, q);
    HalvedAgain(g, p, ks, m, newp);
    hide Tree, Level, PathFrom, PathAt, InsertAt;
    SplitPending(gp, WithPending(Halved(gp, p, ks, m, newp), q, c, n'), leaves, Top(root), h, lev, parray, ppos, m, newp);
  }

  lemma {:induction false} PathHere(g: Graph, top: seq<IdxEntry>, h: nat, lev: nat, parray: seq<Ptr>, ppos: seq<nat>)
    requires PathFrom(g, top, h, lev, parray, ppos) && lev > 0
    ensures PathAt(g, top, h, lev, parray, ppos) && parray[lev] in g && (lev < h ==> PathAt(g, top, h, lev + 1, parray, ppos))
    ensures lev < h ==> parray[lev + 1] in g && ppos[lev + 1] < |g[parray[lev + 1]]|
    ensures lev == h && (exists r :: top == Top(r)) ==> Top(parray[lev]) == top
  {
    assert PathAt(g, top, h, lev, parray, ppos);
    if lev < h { assert PathAt(g, top, h, lev + 1, parray, ppos); }
  }

  /** Root growth. */
  lemma {:induction false} ClimbGrow(h: nat, root: Ptr, inner: map<Ptr, Inner>, leaves: set<Ptr>, L: seq<IdxEntry>,
                                     parray: seq<Ptr>, ppos: seq<nat>, n: IdxEntry, r: Ptr, r': Inner)
    requires Climbing(h, root, inner, leaves, L, h + 1, parray, ppos, n)
    requires r !in inner && r !in leaves && NodeOk(r') && |Children(r')| == 2 && Children(r')[0].ch == root && Children(r')[1] == n
    ensures var inner' := inner[r := r'];
      NodesOk(inner') && Tree(GraphOf(inner'), leaves, Top(r), h + 1) && LeafList(inner', r, h + 1) == L
  {
    GraphPut(inner, r, r');
    hide Tree, Level;
    GrowRoot(GraphOf(inner), leaves, root, n, h, r, Children(r'));
  }

  lemma {:induction false} OnPath(h: nat, root: Ptr, inner: map<Ptr, Inner>, leaves: set<Ptr>, L: seq<IdxEntry>,
                                  lev: nat, parray: seq<Ptr>, ppos: seq<nat>, n: IdxEntry)
    requires Climbing(h, root, inner, leaves, L, lev, parray, ppos, n) && lev <= h
    ensures lev < |parray| && lev < |ppos| && parray[lev] in inner && NodesOk(inner) && NodeOk(inner[parray[lev]])
    ensures ppos[lev] <= inner[parray[lev]].num && GraphOf(inner)[parray[lev]] == Children(inner[parray[lev]])
  {
  }

  lemma {:induction false} FullHere(h: nat, root: Ptr, inner: map<Ptr, Inner>, leaves: set<Ptr>, L: seq<IdxEntry>,
                                    lev: nat, parray: seq<Ptr>, ppos: seq<nat>, n: IdxEntry)
    requires Climbing(h, root, inner, leaves, L, lev, parray, ppos, n) && lev <= h
    ensures lev < |parray| && lev < |ppos| && parray[lev] in inner && NodesOk(inner) && inner[parray[lev]].num <= NON_LEAF_KEY_NUM
    ensures FullAt(inner, parray, lev) <==> inner[parray[lev]].num == NON_LEAF_KEY_NUM
  {
    OnPath(h, root, inner, leaves, L, lev, parray, ppos, n);
    hide Climbing, GraphOf, Children;
  }

  lemma {:induction false} ClimbApart(h: nat, root: Ptr, inner: map<Ptr, Inner>, leaves: set<Ptr>, L: seq<IdxEntry>,
                                      lev: nat, parray: seq<Ptr>, ppos: seq<nat>, n: IdxEntry)
    requires Climbing(h, root, inner, leaves, L, lev, parray, ppos, n) && lev <= h
    ensures parray[lev] in inner && forall i :: lev < i <= h ==> parray[i] != parray[lev]
  {
    var g := WithPending(GraphOf(inner), parray[lev], ppos[lev], n);
    forall i | lev < i <= h ensures parray[i] != parray[lev] {
      PathDistinct(g, leaves, Top(root), h, lev, parray, ppos, lev, i);
    }
  }

  /** The non-full case of Part 3 at level `lev`: insert the pair and unlock. */
  method AddUp(h: nat, root: Ptr, inner: map<Ptr, Inner>, ghost leaves: set<Ptr>, ghost L: seq<IdxEntry>,
               lev: nat, parray: seq<Ptr>, ppos: seq<nat>, n: IdxEntry, ghost top: nat) returns (inner': map<Ptr, Inner>)
    requires Climbing(h, root, inner, leaves, L, lev, parray, ppos, n) && lev <= top && lev <= h
    requires LocksAre(inner, PathSet(parray, lev, top)) && FullUpTo(inner, h, parray, lev, top)
    requires parray[lev] in inner && inner[parray[lev]].num < NON_LEAF_KEY_NUM
    ensures Whole(h, root, inner', leaves, L) && LocksAre(inner', {}) && inner'.Keys == inner.Keys
  {
    var p := parray[lev];
    OnPath(h, root, inner, leaves, L, lev, parray, ppos, n);
    hide Climbing;
    var p' := InsertChild(inner[p], ppos[lev] + 1, n);
    ghost var ks := Children(p');
    p' := p'.(lock := false);
    assert NodeOk(p') && Children(p') == ks;
    LastLock(inner, parray, lev, top, p');
    hide LocksAre, Children, InsertAt, NodesOk;
    ClimbDone(h, root, inner, leaves, L, lev, parray, ppos, n, p');
    inner' := inner[p := p'];
  }

  lemma {:induction false} LastLock(inner: map<Ptr, Inner>, parray: seq<Ptr>, lev: nat, top: nat, p': Inner)
    requires lev < |parray| && lev == top && LocksAre(inner, PathSet(parray, lev, top)) && !p'.lock
    ensures LocksAre(inner[parray[lev] := p'], {})
  {
    assert PathSet(parray, lev, lev) == {parray[lev]};
  }

  /** The full case of Part 3 at level `lev`: split the node; the root stays locked. */
  method SplitUp(h: nat, root: Ptr, inner: map<Ptr, Inner>, ghost leaves: set<Ptr>, ghost L: seq<IdxEntry>,
                 lev: nat, parray: seq<Ptr>, ppos: seq<nat>, n: IdxEntry, ghost top: nat, newp: Ptr, raw: RawInner)
    returns (inner': map<Ptr, Inner>, n': IdxEntry)
    requires Climbing(h, root, inner, leaves, L, lev, parray, ppos, n) && lev <= top && lev <= h
    requires LocksAre(inner, PathSet(parray, lev, top)) && FullUpTo(inner, h, parray, lev, top)
    requires parray[lev] in inner && inner[parray[lev]].num == NON_LEAF_KEY_NUM && parray[h] == root
    requires newp !in inner && newp !in leaves
    ensures Climbing(h, root, inner', leaves, L, lev + 1, parray, ppos, n') && inner'.Keys == inner.Keys + {newp}
    ensures lev < h ==> lev < top && LocksAre(inner', PathSet(parray, lev + 1, top)) && FullUpTo(inner', h, parray, lev + 1, top)
    ensures lev == h ==> LocksAre(inner', {root})
    ensures forall i :: lev < i <= h ==> i < |parray| && parray[i] in inner && parray[i] in inner' && inner'[parray[i]] == inner[parray[i]]
  {
    var p := parray[lev];
    OnPath(h, root, inner, leaves, L, lev, parray, ppos, n);
    ClimbApart(h, root, inner, leaves, L, lev, parray, ppos, n);
    OverfullIs(inner, p, ppos[lev], n);
    hide Climbing, Overfull;
    var p', q', up := SplitNode(inner[p], ppos[lev] + 1, n, raw);
    ghost var ks := Children(p');
    if lev < h { p' := p'.(lock := false); }
    assert NodeOk(p') && Children(p') == ks;
    assert lev == h ==> inner[p].lock by { assert p in PathSet(parray, lev, top); }
    SplitLocks(inner, h, parray, lev, top, p', newp, q');
    assert forall i :: lev < i <= h ==> i < |parray| && parray[i] in inner && parray[i] != newp;
    hide NodesOk, Children, InsertAt, LocksAre, FullUpTo;
    ClimbSplit(h, root, inner, leaves, L, lev, parray, ppos, n, p', newp, q', up);
    inner' := inner[p := p'][newp := q'];
    n' := IdxEntry(up, newp);
  }

  /** A split node below the root is unlocked; the root stays locked. */
  lemma {:induction false} SplitLocks(inner: map<Ptr, Inner>, h: nat, parray: seq<Ptr>, lev: nat, top: nat, p': Inner, newp: Ptr, q': Inner)
    requires lev <= top && lev <= h && LocksAre(inner, PathSet(parray, lev, top)) && FullUpTo(inner, h, parray, lev, top)
    requires parray[lev] in inner && inner[parray[lev]].num == NON_LEAF_KEY_NUM && newp !in inner && !q'.lock
    requires forall i :: lev < i <= h ==> parray[i] != parray[lev]
    requires p'.lock == (lev == h)
    ensures var inner' := inner[parray[lev] := p'][newp := q'];
      if lev < h then lev < top && LocksAre(inner', PathSet(parray, lev + 1, top)) && FullUpTo(inner', h, parray, lev + 1, top)
      else LocksAre(inner', {parray[h]})
  {
    assert PathSet(parray, lev, top) == PathSet(parray, lev + 1, top) + {parray[lev]};
    if lev < h {
      assert parray[lev] !in PathSet(parray, lev + 1, top);
      forall i | lev < i <= h ensures parray[i] in inner && parray[i] != newp { }
    }
  }

  /** The tree with its new root. */
  lemma {:induction false} Grown(h: nat, root: Ptr, inner: map<Ptr, Inner>, leaves: set<Ptr>, L: seq<IdxEntry>,
                                 parray: seq<Ptr>, ppos: seq<nat>, n: IdxEntry, p: Ptr, node: Inner, S: set<Ptr>)
    requires Climbing(h, root, inner, leaves, L, h + 1, parray, ppos, n) && p !in inner && p !in leaves && LocksAre(inner, S)
    requires NodeOk(node) && node.num == 1 && node.lock && node.ent[0].ch == root && node.ent[1] == n
    ensures Whole(h + 1, p, inner[p := node], leaves, L) && LocksAre(inner[p := node], S + {p})
  {
    ClimbGrow(h, root, inner, leaves, L, parray, ppos, n, p, node);
    hide Climbing, Tree, LeafList;
  }

  /** Part 3 is about to start: the leaf level `L` is done, and the path is locked up to `top`. */
  ghost predicate Rising(h: nat, root: Ptr, inner: map<Ptr, Inner>, leaves: set<Ptr>, L: seq<IdxEntry>,
                         parray: seq<Ptr>, ppos: seq<nat>, n: IdxEntry, top: nat, j: nat)
  {
    && Climbing(h, root, inner, leaves, L, 1, parray, ppos, n) && PathLocked(inner, h, parray, top)
    && parray[h] == root && L != [] && (h == 0 ==> L[0].ch == root && j == 0)
  }

  /** The upward phase starts: only lock bits have changed since the search. */
  lemma {:induction false} ClimbFrom(h: nat, root: Ptr, inner: map<Ptr, Inner>, inner': map<Ptr, Inner>, leaves: set<Ptr>, key: Key,
                                     parray: seq<Ptr>, ppos: seq<nat>, ctxs: seq<Ctx>, n: IdxEntry, top: nat)
    requires NodesOk(inner) && Tree(GraphOf(inner), leaves, Top(root), h) && OnlyLocks(inner, inner')
    requires PathLocked(inner', h, parray, top)
    requires CtxPath(GraphOf(inner), Top(root), h, 0, key, parray, ppos, ctxs)
    requires n.ch !in leaves && n.ch !in inner && ctxs[0].e.k < n.k && Below(n.k, ctxs[0].B)
    ensures Rising(h, root, inner', leaves + {n.ch}, After(ctxs[0], n), parray, ppos, n, top, |ctxs[0].A|)
  {
    LocksApart(inner, inner');
    RootOfPath(GraphOf(inner), root, h, key, parray, ppos, ctxs);
    AfterAt(ctxs[0], n);
    if h == 0 {
      assert CtxAt(GraphOf(inner), Top(root), h, 0, key, parray[0], ctxs[0]);
      OnlyOne(root, ctxs[0]);
    }
    hide OnlyLocks, Tree, CtxPath, Climbing, GraphOf, NodesOk, After;
    ClimbStart(h, root, inner', leaves, key, parray, ppos, ctxs, n);
  }
}
