/** The inner-node part of `del`: the left-sibling search, the branch that goes, and the collapse of the root. */
module DeleteSteps {
  import opened Types
  import opened LeafNode
  import opened Nvm
  import opened Levels
  import opened TreeSteps
  import opened InnerNode
  import opened Pending
  import opened LeafLevel
  import opened TreeView
  import opened TreeState
  import opened InsertSteps
  import opened LeafRemoval
  import opened LeafOps

  // ---------------------------------------------------------------- the left sibling

  /** `p` is the node just left of the context on its level. */
  predicate LeftOf(x: Ctx, p: Ptr) {
    x.A != [] && x.A[|x.A| - 1].ch == p
  }

  lemma {:induction false} LastKid(g: Graph, A: seq<IdxEntry>)
    requires A != [] && A[|A| - 1].ch in g && g[A[|A| - 1].ch] != []
    ensures var p, K := A[|A| - 1].ch, ExpandAll(g, A); K != [] && K[|K| - 1].ch == g[p][|g[p]| - 1].ch
  {
    var e, A' := A[|A| - 1], A[..|A| - 1];
    assert A == A' + [e];
    ExpandConcat(g, A', [e]);
    assert ExpandAll(g, [e]) == Kids(g, e);
    KidsAt(g, e);
  }

  /** From the path node with a left child to turn to: that child is left of the path one level down. */
  lemma {:induction false} TurnLeft(g: Graph, x: Ctx, c: nat)
    requires x.e.ch in g && 0 < c < |g[x.e.ch]|
    ensures c < |Kids(g, x.e)| && LeftOf(Down(g, x, c), g[x.e.ch][c - 1].ch)
  {
    KidsAt(g, x.e);
  }

  /** Below, the rightmost child of the left neighbour is left of the path, which goes through first children. */
  lemma {:induction false} StayLeft(g: Graph, x: Ctx, p: Ptr)
    requires Closed(g, x.All()) && LeftOf(x, p) && |Kids(g, x.e)| > 0
    ensures p in g && g[p] != [] && LeftOf(Down(g, x, 0), g[p][|g[p]| - 1].ch)
  {
    assert x.All()[|x.A| - 1] == x.A[|x.A| - 1];
    LastKid(g, x.A);
  }

  lemma {:induction false} NoneLeft(g: Graph, x: Ctx)
    requires x.A == [] && |Kids(g, x.e)| > 0
    ensures Down(g, x, 0).A == []
  {
  }

  ghost predicate PathCtx(g: Graph, h: nat, root: Ptr, key: Key, parray: seq<Ptr>, ppos: seq<nat>, ctxs: seq<Ctx>) {
    CtxPath(g, Top(root), h, 0, key, parray, ppos, ctxs)
  }

  lemma {:induction false} StepHere(g: Graph, leaves: set<Ptr>, h: nat, root: Ptr, key: Key, parray: seq<Ptr>, ppos: seq<nat>, ctxs: seq<Ctx>, i: nat)
    requires Tree(g, leaves, Top(root), h) && PathCtx(g, h, root, key, parray, ppos, ctxs) && 0 < i <= h
    ensures |parray| == |ppos| == |ctxs| == h + 1 && ctxs[i].e.ch == parray[i] && parray[i] in g && ppos[i] < |g[parray[i]]|
    ensures ppos[i] < |Kids(g, ctxs[i].e)| && ctxs[i - 1] == Down(g, ctxs[i], ppos[i]) && g[parray[i]][ppos[i]].ch == parray[i - 1]
    ensures Closed(g, ctxs[i].All()) && ctxs[i].All() == Level(g, Top(root), h, i) && ctxs[i - 1].e.ch == parray[i - 1]
  {
    assert CtxAt(g, Top(root), h, i, key, parray[i], ctxs[i]) && CtxAt(g, Top(root), h, i - 1, key, parray[i - 1], ctxs[i - 1]);
    assert StepAt(g, ctxs[i], ppos[i], ctxs[i - 1]);
    LevelClosed(g, leaves, Top(root), h, i);
  }

  /** A path through first children only, from level `i` down, stays at the left edge if it is there on level `i`. */
  lemma {:induction false} LeftEdge(g: Graph, leaves: set<Ptr>, h: nat, root: Ptr, key: Key, parray: seq<Ptr>, ppos: seq<nat>, ctxs: seq<Ctx>, i: nat)
    requires Tree(g, leaves, Top(root), h) && PathCtx(g, h, root, key, parray, ppos, ctxs) && i <= h
    requires forall j :: 1 <= j <= i ==> j < |ppos| && ppos[j] == 0
    requires i < |ctxs| && ctxs[i].A == []
    ensures |ctxs| > 0 && ctxs[0].A == []
  {
    if i > 0 {
      StepHere(g, leaves, h, root, key, parray, ppos, ctxs, i);
      NoneLeft(g, ctxs[i]);
      LeftEdge(g, leaves, h, root, key, parray, ppos, ctxs, i - 1);
    }
  }

  /**
   * The left-sibling search of `del`: up to the lowest ancestor with position at least 1, one child to the
   * left, then down along last children. It ends at the leaf just before `parray[0]` in the chain.
   */
  method LeftSibling(inner: map<Ptr, Inner>, h: nat, root: Ptr, parray: seq<Ptr>, ppos: seq<nat>,
                     ghost leaves: set<Ptr>, ghost key: Key, ghost ctxs: seq<Ctx>) returns (sib: Option<Ptr>)
    requires NodesOk(inner) && Tree(GraphOf(inner), leaves, Top(root), h)
    requires PathCtx(GraphOf(inner), h, root, key, parray, ppos, ctxs)
    ensures |ctxs| == h + 1 && if sib.Some? then LeftOf(ctxs[0], sib.value) else ctxs[0].A == []
    ensures sib == None ==> |ppos| == h + 1 && forall j :: 1 <= j <= h ==> ppos[j] == 0
  {
    ghost var g := GraphOf(inner);
    hide Tree, GraphOf, NodesOk, CtxPath, Kids, LeftOf;
    PathLengths(g, h, root, key, parray, ppos, ctxs);
    hide PathCtx;
    var i := 1;
    while i <= h && ppos[i] < 1
      invariant 1 <= i <= h + 1 && forall j :: 1 <= j < i ==> ppos[j] == 0
    {
      i := i + 1;
    }
    if i > h {
      LeftEdge(g, leaves, h, root, key, parray, ppos, ctxs, h);
      return None;
    }
    StepHere(g, leaves, h, root, key, parray, ppos, ctxs, i);
    TurnLeft(g, ctxs[i], ppos[i]);
    NodeAtGraph(inner, parray[i]);
    var p := inner[parray[i]].ent[ppos[i] - 1].ch;
    i := i - 1;
    while i >= 1
      invariant 0 <= i <= h && LeftOf(ctxs[i], p) && forall j :: 1 <= j <= i ==> ppos[j] == 0
    {
      StepHere(g, leaves, h, root, key, parray, ppos, ctxs, i);
      StayLeft(g, ctxs[i], p);
      NodeAtGraph(inner, p);
      p := inner[p].ent[inner[p].num].ch;
      i := i - 1;
    }
    return Some(p);
  }

  lemma {:induction false} PathLengths(g: Graph, h: nat, root: Ptr, key: Key, parray: seq<Ptr>, ppos: seq<nat>, ctxs: seq<Ctx>)
    requires PathCtx(g, h, root, key, parray, ppos, ctxs)
    ensures |parray| == |ppos| == |ctxs| == h + 1 && ctxs[h].A == [] && parray[h] == root
  {
    assert CtxAt(g, Top(root), h, h, key, parray[h], ctxs[h]);
    OnlyOne(root, ctxs[h]);
  }

  lemma {:induction false} LeafCtx(g: Graph, leaves: set<Ptr>, h: nat, root: Ptr, key: Key, parray: seq<Ptr>, ppos: seq<nat>, ctxs: seq<Ctx>)
    requires Tree(g, leaves, Top(root), h) && PathCtx(g, h, root, key, parray, ppos, ctxs)
    ensures |parray| > 0 && |ctxs| > 0 && ctxs[0].All() == Level(g, Top(root), h, 0) && ctxs[0].e.ch == parray[0] && NoDup(ctxs[0].All())
  {
    assert CtxAt(g, Top(root), h, 0, key, parray[0], ctxs[0]);
    TreeLevel(g, leaves, Top(root), h, 0);
  }

  lemma {:induction false} NodeAtGraph(inner: map<Ptr, Inner>, p: Ptr)
    requires NodesOk(inner) && p in GraphOf(inner)
    ensures p in inner && NodeOk(inner[p]) && GraphOf(inner)[p] == Children(inner[p]) && |GraphOf(inner)[p]| == inner[p].num + 1
    ensures forall c :: 0 <= c <= inner[p].num ==> GraphOf(inner)[p][c] == inner[p].ent[c]
  {
  }

  // ---------------------------------------------------------------- the branch that goes

  /** The path nodes on the levels `1..m-1` have a single child each. */
  predicate Thin(inner: map<Ptr, Inner>, parray: seq<Ptr>, m: nat) {
    m <= |parray| && forall i :: 1 <= i < m ==> parray[i] in inner && inner[parray[i]].num == 0
  }

  lemma {:induction false} ChainUp(inner: map<Ptr, Inner>, h: nat, root: Ptr, leaves: set<Ptr>, key: Key,
                                   parray: seq<Ptr>, ppos: seq<nat>, ctxs: seq<Ctx>, m: nat, i: nat)
    requires NodesOk(inner) && Tree(GraphOf(inner), leaves, Top(root), h) && PathCtx(GraphOf(inner), h, root, key, parray, ppos, ctxs)
    requires i < m <= h && Thin(inner, parray, m)
    ensures 0 < |parray| && i < |parray|
    ensures Chain(GraphOf(inner), parray[i], i, parray[0]) && ChainNodes(GraphOf(inner), parray[i], i) == PathSet(parray, 0, i)
  {
    var g := GraphOf(inner);
    hide Tree, NodesOk, GraphOf, Kids, Ctx.All, Level, PathCtx;
    PathLengths(g, h, root, key, parray, ppos, ctxs);
    if i == 0 {
      assert PathSet(parray, 0, 0) == {parray[0]};
    } else {
      ChainUp(inner, h, root, leaves, key, parray, ppos, ctxs, m, i - 1);
      StepHere(g, leaves, h, root, key, parray, ppos, ctxs, i);
      NodeAtGraph(inner, parray[i]);
      PathSetMore(parray, 0, i);
    }
  }

  lemma {:induction false} PathSetMore(parray: seq<Ptr>, a: nat, i: nat)
    requires a < i < |parray|
    ensures PathSet(parray, a, i) == PathSet(parray, a, i - 1) + {parray[i]}
  {
  }

  /** Taking the branch below child `c` of `parray[m]` out of the tree takes exactly its leaf out of the chain. */
  lemma {:induction false} PruneHere(inner: map<Ptr, Inner>, h: nat, root: Ptr, leaves: set<Ptr>, leaves': set<Ptr>, key: Key,
                                     parray: seq<Ptr>, ppos: seq<nat>, ctxs: seq<Ctx>, m: nat, g': Graph)
    requires NodesOk(inner) && Tree(GraphOf(inner), leaves, Top(root), h) && PathCtx(GraphOf(inner), h, root, key, parray, ppos, ctxs)
    requires 1 <= m <= h && Thin(inner, parray, m) && parray[m] in inner && inner[parray[m]].num > 0 && ppos[m] <= inner[parray[m]].num
    requires parray[m] in g' && g'[parray[m]] == RemoveKid(Children(inner[parray[m]]), ppos[m])
    requires Same(GraphOf(inner), g', {parray[m]} + PathSet(parray, 0, m - 1))
    requires g'.Keys !! leaves' && leaves - {parray[0]} <= leaves'
    ensures Tree(g', leaves', Top(root), h) && Level(g', Top(root), h, 0) == Removed(ctxs[0], ppos[m] == 0)
  {
    hide Tree, Level, Kids, Chain, ChainNodes, Removed, RemoveKid, Same, GraphOf, PathSet, PathCtx, NodesOk, NodeOk, Thin, Ctx.All;
    PathLengths(GraphOf(inner), h, root, key, parray, ppos, ctxs);
    var g, q, c := GraphOf(inner), parray[m], ppos[m];
    StepHere(g, leaves, h, root, key, parray, ppos, ctxs, m);
    NodeAtGraph(inner, q);
    ChainUp(inner, h, root, leaves, key, parray, ppos, ctxs, m, m - 1);
    LeafCtx(g, leaves, h, root, key, parray, ppos, ctxs);
    var z := Prune(g, g', leaves, leaves', Top(root), h, m - 1, ctxs[m], c, parray[0], {q} + PathSet(parray, 0, m - 1));
    CtxUnique(z, ctxs[0]);
  }

  /** The inner nodes after Part 3 of `del`: the single-child nodes are freed, and `parray[m]` has become `n'`. */
  function AfterRemoval(inner: map<Ptr, Inner>, parray: seq<Ptr>, m: nat, n': Inner): map<Ptr, Inner>
    requires 0 < m < |parray|
  {
    (inner - PathSet(parray, 1, m - 1))[parray[m] := n']
  }

  lemma {:induction false} RemovedWhole(inner: map<Ptr, Inner>, h: nat, root: Ptr, leaves: set<Ptr>, key: Key,
                                        parray: seq<Ptr>, ppos: seq<nat>, ctxs: seq<Ctx>, m: nat, n': Inner)
    requires NodesOk(inner) && Tree(GraphOf(inner), leaves, Top(root), h) && PathCtx(GraphOf(inner), h, root, key, parray, ppos, ctxs)
    requires 1 <= m <= h && Thin(inner, parray, m) && parray[m] in inner && inner[parray[m]].num > 0 && ppos[m] <= inner[parray[m]].num
    requires NodeOk(n') && Children(n') == RemoveKid(Children(inner[parray[m]]), ppos[m])
    ensures m < |parray| && Whole(h, root, AfterRemoval(inner, parray, m, n'), leaves - {parray[0]}, Removed(ctxs[0], ppos[m] == 0))
  {
    hide Tree, PathCtx, RemoveKid, Children, GraphOf, AfterRemoval, PathSet, Same, Removed, Thin;
    PathLengths(GraphOf(inner), h, root, key, parray, ppos, ctxs);
    var inner' := AfterRemoval(inner, parray, m, n');
    RemovedGraph(inner, parray, m, n');
    KeysApart(inner, leaves, root, h);
    PruneHere(inner, h, root, leaves, leaves - {parray[0]}, key, parray, ppos, ctxs, m, GraphOf(inner'));
  }

  lemma {:induction false} RemovedGraph(inner: map<Ptr, Inner>, parray: seq<Ptr>, m: nat, n': Inner)
    requires 0 < m < |parray| && NodesOk(inner) && NodeOk(n')
    ensures var inner' := AfterRemoval(inner, parray, m, n');
      && NodesOk(inner') && inner'.Keys <= inner.Keys + {parray[m]} && GraphOf(inner').Keys == inner'.Keys
      && parray[m] in GraphOf(inner') && GraphOf(inner')[parray[m]] == Children(n') && Same(GraphOf(inner), GraphOf(inner'), {parray[m]} + PathSet(parray, 0, m - 1))
  {
    assert PathSet(parray, 1, m - 1) <= PathSet(parray, 0, m - 1);
    var inner', p := AfterRemoval(inner, parray, m, n'), parray[m];
    assert p in inner' && inner'[p] == n';
    assert KidsOf(inner'[p]) == Children(n');
    assert GraphOf(inner')[p] == KidsOf(inner'[p]);
  }

  lemma {:induction false} KeysApart(inner: map<Ptr, Inner>, leaves: set<Ptr>, root: Ptr, h: nat)
    requires Tree(GraphOf(inner), leaves, Top(root), h)
    ensures inner.Keys !! leaves
  {
    assert GraphOf(inner).Keys == inner.Keys;
  }

  // ---------------------------------------------------------------- the root collapse

  /** A root left with a single child gives way to that child. */
  lemma {:induction false} Collapsed(h: nat, root: Ptr, inner: map<Ptr, Inner>, leaves: set<Ptr>, L: seq<IdxEntry>)
    requires Whole(h, root, inner, leaves, L) && h > 0 && root in inner && inner[root].num == 0
    ensures Whole(h - 1, inner[root].ent[0].ch, inner - {root}, leaves, L)
  {
    var g, r, inner' := GraphOf(inner), inner[root].ent[0].ch, inner - {root};
    var g' := GraphOf(inner');
    NodeAtGraph(inner, root);
    assert ExpandAll(g, Top(root)) == Top(r) by {
      assert Top(root)[1..] == [];
      ExpandEmpty(g);
    }
    assert Has(Top(root), root) by { assert Top(root)[0].ch == root; }
    NotBelow(g, leaves, Top(r), h - 1, Top(root), h, root);
    hide ExpandAll, AtOrBelow;
    FrameBelow(g, g', leaves, leaves, Top(r), h - 1, {root});
  }

  // ---------------------------------------------------------------- when the upward loop stays in the tree

  /** The path node on level `i` has more than one child. */
  predicate Wide(inner: map<Ptr, Inner>, parray: seq<Ptr>, i: nat) {
    i < |parray| && parray[i] in inner && inner[parray[i]].num > 0
  }

  lemma {:induction false} ExpandGrows(g: Graph, L: seq<IdxEntry>)
    requires Closed(g, L)
    ensures |ExpandAll(g, L)| >= |L|
  {
    if L != [] { ExpandGrows(g, L[1..]); }
  }

  lemma {:induction false} LevelGrows(g: Graph, leaves: set<Ptr>, L: seq<IdxEntry>, l: nat)
    requires Tree(g, leaves, L, l)
    ensures |Level(g, L, l, 0)| >= |L|
    decreases l
  {
    if l > 0 {
      ExpandGrows(g, L);
      LevelGrows(g, leaves, ExpandAll(g, L), l - 1);
    }
  }

  lemma {:induction false} ManyBelow(g: Graph, x: Ctx)
    requires x.e.ch in g && |g[x.e.ch]| > 1
    ensures |ExpandAll(g, x.All())| > 1
  {
    KidsAt(g, x.e);
    DownAll(g, x, 0);
    hide ExpandAll, Kids;
  }

  /** A path node with several children means several leaves. */
  lemma {:induction false} WideMany(inner: map<Ptr, Inner>, h: nat, root: Ptr, leaves: set<Ptr>, key: Key,
                                    parray: seq<Ptr>, ppos: seq<nat>, ctxs: seq<Ctx>, i: nat)
    requires NodesOk(inner) && Tree(GraphOf(inner), leaves, Top(root), h) && PathCtx(GraphOf(inner), h, root, key, parray, ppos, ctxs)
    requires 1 <= i <= h && Wide(inner, parray, i)
    ensures |LeafList(inner, root, h)| > 1
  {
    var g := GraphOf(inner);
    hide GraphOf, Tree, PathCtx, NodesOk, Level, ExpandAll, Kids, Ctx.All, Closed;
    PathLengths(g, h, root, key, parray, ppos, ctxs);
    StepHere(g, leaves, h, root, key, parray, ppos, ctxs, i);
    NodeAtGraph(inner, parray[i]);
    ManyBelow(g, ctxs[i]);
    LevelDown(g, Top(root), h, i - 1);
    TreeLevel(g, leaves, Top(root), h, i - 1);
    LevelGrows(g, leaves, Level(g, Top(root), h, i - 1), i - 1);
    LevelTwice(g, Top(root), h, i - 1, 0);
  }

  /** With single children all along the path, every level of the tree is that one node. */
  lemma {:induction false} NarrowOne(inner: map<Ptr, Inner>, h: nat, root: Ptr, leaves: set<Ptr>, key: Key,
                                     parray: seq<Ptr>, ppos: seq<nat>, ctxs: seq<Ctx>, i: nat)
    requires NodesOk(inner) && Tree(GraphOf(inner), leaves, Top(root), h) && PathCtx(GraphOf(inner), h, root, key, parray, ppos, ctxs)
    requires forall j :: 1 <= j <= h ==> !Wide(inner, parray, j)
    requires i <= h
    ensures |Level(GraphOf(inner), Top(root), h, i)| == 1
    decreases h - i
  {
    hide Tree, ExpandAll, Kids, Level, GraphOf, PathCtx, NodesOk, Closed, Wide, Ctx.All, Top;
    var g := GraphOf(inner);
    if i < h {
      NarrowOne(inner, h, root, leaves, key, parray, ppos, ctxs, i + 1);
      StepHere(g, leaves, h, root, key, parray, ppos, ctxs, i + 1);
      OneChild(inner, parray, i + 1);
      LevelDown(g, Top(root), h, i);
      OneKid(g, ctxs[i + 1]);
    } else {
      TopAlone(g, root, h);
    }
  }

  lemma {:induction false} TopAlone(g: Graph, root: Ptr, h: nat)
    ensures |Level(g, Top(root), h, h)| == 1
  {
  }

  lemma {:induction false} OneChild(inner: map<Ptr, Inner>, parray: seq<Ptr>, i: nat)
    requires NodesOk(inner) && i < |parray| && parray[i] in GraphOf(inner) && !Wide(inner, parray, i)
    ensures |GraphOf(inner)[parray[i]]| == 1
  {
    NodeAtGraph(inner, parray[i]);
  }

  lemma {:induction false} OneKid(g: Graph, x: Ctx)
    requires |x.All()| == 1 && x.e.ch in g && |g[x.e.ch]| == 1
    ensures |ExpandAll(g, x.All())| == 1
  {
    assert x.All()[0] == x.e && x.All()[1..] == [];
    ExpandEmpty(g);
  }

  /**
   * When the leaf's last key goes, Part 3 of `del` finds a node with several children, and so never climbs
   * past the root, exactly if the tree holds another key.
   */
  lemma {:induction false} LoopStays(h: nat, root: Ptr, inner: map<Ptr, Inner>, s: State, leaves: set<Ptr>, key: Key,
                                     parray: seq<Ptr>, ppos: seq<nat>, ctxs: seq<Ctx>)
    requires Struct(h, root, inner, s, leaves) && h > 0 && PathCtx(GraphOf(inner), h, root, key, parray, ppos, ctxs)
    requires var x, Y := ctxs[0], View(s.cells, LeafList(inner, root, h));
      |x.A| < |Y| && (forall e :: e in EntriesOf(Y[|x.A|]) ==> e.k == key)
    ensures (exists i :: 1 <= i <= h && Wide(inner, parray, i)) <==>
      (exists e :: e in Union(View(s.cells, LeafList(inner, root, h))) && e.k != key)
  {
    var x, L := ctxs[0], LeafList(inner, root, h);
    var Y := View(s.cells, L);
    assert CtxAt(GraphOf(inner), Top(root), h, 0, key, parray[0], x);
    ChainOrdered(h, root, inner, s, leaves);
    LeavesParts(s, L, h);
    hide LeavesOk, CtxPath, View, LeafOk;
    if i :| 1 <= i <= h && Wide(inner, parray, i) {
      WideMany(inner, h, root, leaves, key, parray, ppos, ctxs, i);
      OtherKey(x, Y, key);
    } else {
      NarrowOne(inner, h, root, leaves, key, parray, ppos, ctxs, 0);
      assert |Y| == 1 && Y[1..] == [];
    }
  }

  /** A second leaf holds a second key. */
  lemma {:induction false} OtherKey(x: Ctx, Y: seq<Leaf>, key: Key)
    requires Fits(x.All(), Y) && Ascending(x.All()) && NonEmpty(Y) && |Y| > 1 && Covers(x, key)
    ensures exists e :: e in Union(Y) && e.k != key
  {
    var i := if |x.A| == 0 then 1 else 0;
    assert EntriesOf(Y[i]) != {};
    var f :| f in EntriesOf(Y[i]);
    UnionHas(Y, i);
    if f.k == key { NotCovered(x, Y, f, i); }
  }

  /** The nodes of a search path are distinct. */
  lemma {:induction false} PathApart(inner: map<Ptr, Inner>, h: nat, root: Ptr, leaves: set<Ptr>, key: Key,
                                     parray: seq<Ptr>, ppos: seq<nat>, ctxs: seq<Ctx>)
    requires Tree(GraphOf(inner), leaves, Top(root), h) && PathCtx(GraphOf(inner), h, root, key, parray, ppos, ctxs)
    ensures |parray| == |ppos| == |ctxs| == h + 1 && (forall i :: 1 <= i <= h ==> parray[i] in inner)
    ensures forall i, j :: 0 <= i < j <= h ==> parray[i] != parray[j]
  {
    var g := GraphOf(inner);
    PathOf(g, Top(root), h, key, parray, ppos, ctxs);
    hide Tree, CtxPath;
    forall i | 1 <= i <= h ensures parray[i] in inner {
      StepHere(g, leaves, h, root, key, parray, ppos, ctxs, i);
    }
    forall i, j | 0 <= i < j <= h ensures parray[i] != parray[j] {
      PathDistinct(g, leaves, Top(root), h, 0, parray, ppos, i, j);
    }
  }

  /** The branch of single children freed so far. */
  predicate Freed(inner: map<Ptr, Inner>, inner': map<Ptr, Inner>, parray: seq<Ptr>, lev: nat) {
    lev > 0 && inner' == inner - PathSet(parray, 1, lev - 1)
  }

  lemma {:induction false} NoneFreed(inner: map<Ptr, Inner>, parray: seq<Ptr>)
    ensures Freed(inner, inner, parray, 1)
  {
    assert PathSet(parray, 1, 0) == {};
  }

  lemma {:induction false} FreeNext(inner: map<Ptr, Inner>, inner': map<Ptr, Inner>, parray: seq<Ptr>, lev: nat)
    requires Freed(inner, inner', parray, lev) && lev < |parray| && forall i, j :: 0 <= i < j < |parray| ==> parray[i] != parray[j]
    requires parray[lev] in inner
    ensures parray[lev] in inner' && inner'[parray[lev]] == inner[parray[lev]]
    ensures Freed(inner, inner' - {parray[lev]}, parray, lev + 1)
  {
    PathSetMoreFrom(parray, lev);
    assert parray[lev] !in PathSet(parray, 1, lev - 1);
  }

  lemma {:induction false} PathSetMoreFrom(parray: seq<Ptr>, lev: nat)
    requires 0 < lev < |parray|
    ensures PathSet(parray, 1, lev) == PathSet(parray, 1, lev - 1) + {parray[lev]}
  {
  }

  /** The lock bits after the locked branch is gone: at most its upper end's is left. */
  lemma {:induction false} FreedLocks(inner: map<Ptr, Inner>, parray: seq<Ptr>, m: nat, n': Inner)
    requires 0 < m < |parray| && LocksAre(inner, PathSet(parray, 1, m))
    ensures !n'.lock ==> LocksAre(AfterRemoval(inner, parray, m, n'), {})
    ensures LocksAre(AfterRemoval(inner, parray, m, n') - {parray[m]}, {})
  {
    PathSetMoreFrom(parray, m);
  }

  /** What Part 3 of `del` starts from: a locked branch of single children below the wide node on level `m`. */
  ghost predicate BranchReady(inner: map<Ptr, Inner>, h: nat, root: Ptr, leaves: set<Ptr>, key: Key,
                              parray: seq<Ptr>, ppos: seq<nat>, ctxs: seq<Ctx>, m: nat)
  {
    && NodesOk(inner) && Tree(GraphOf(inner), leaves, Top(root), h) && PathCtx(GraphOf(inner), h, root, key, parray, ppos, ctxs)
    && 1 <= m <= h && Thin(inner, parray, m) && Wide(inner, parray, m) && LocksAre(inner, PathSet(parray, 1, m))
  }

  /** The path as Part 3 of `del` uses it. */
  lemma {:induction false} BranchFacts(inner: map<Ptr, Inner>, h: nat, root: Ptr, leaves: set<Ptr>, key: Key,
                                       parray: seq<Ptr>, ppos: seq<nat>, ctxs: seq<Ctx>, m: nat)
    requires BranchReady(inner, h, root, leaves, key, parray, ppos, ctxs, m)
    ensures |parray| == |ppos| == |ctxs| == h + 1 && 1 <= m <= h && parray[h] == root
    ensures (forall i :: 1 <= i <= m ==> parray[i] in inner && (inner[parray[i]].num == 0 <==> i < m)) && NodeOk(inner[parray[m]])
    ensures forall i, j :: 0 <= i < j < |parray| ==> parray[i] != parray[j]
    ensures ppos[m] <= inner[parray[m]].num
  {
    hide Tree, PathCtx, GraphOf, LocksAre, Kids, Ctx.All, Closed, Level, PathSet;
    PathApart(inner, h, root, leaves, key, parray, ppos, ctxs);
    PathLengths(GraphOf(inner), h, root, key, parray, ppos, ctxs);
    StepHere(GraphOf(inner), leaves, h, root, key, parray, ppos, ctxs, m);
    NodeAtGraph(inner, parray[m]);
  }

  /** Node `p` has lost child `c`, and no other node has changed. */
  predicate ChildGone(inner: map<Ptr, Inner>, inner': map<Ptr, Inner>, p: Ptr, c: nat) {
    && p in inner && p in inner' && NodeOk(inner[p]) && NodeOk(inner'[p]) && 0 < inner[p].num && c <= inner[p].num
    && inner'[p].num == inner[p].num - 1 && Children(inner'[p]) == RemoveKid(Children(inner[p]), c)
    && forall q :: q in inner && q != p ==> q in inner' && inner'[q] == inner[q]
  }

  /** Of two children the other one is left. */
  lemma {:induction false} OtherLeft(inner: map<Ptr, Inner>, inner': map<Ptr, Inner>, p: Ptr, c: nat)
    requires ChildGone(inner, inner', p, c) && inner[p].num == 1
    ensures inner'[p].ent[0].ch == inner[p].ent[1 - c].ch
  {
    assert Children(inner'[p])[0] == inner'[p].ent[0] && Children(inner[p])[1 - c] == inner[p].ent[1 - c];
  }

  /** The lowest node from level `i` on that has several children, or the root. */
  function FirstWide(inner: map<Ptr, Inner>, parray: seq<Ptr>, h: nat, i: nat): nat
    decreases h - i
  {
    if i >= h || Wide(inner, parray, i) then i else FirstWide(inner, parray, h, i + 1)
  }

  lemma {:induction false} FirstWideIs(inner: map<Ptr, Inner>, parray: seq<Ptr>, h: nat, i: nat, m: nat)
    requires i <= m <= h && Wide(inner, parray, m) && forall j :: i <= j < m ==> !Wide(inner, parray, j)
    ensures FirstWide(inner, parray, h, i) == m
    decreases h - i
  {
    if i < m { FirstWideIs(inner, parray, h, i + 1, m); }
  }

  /** The root is about to lose one of its last two children. */
  predicate Collapses(inner: map<Ptr, Inner>, h: nat, root: Ptr, m: nat) {
    m == h && root in inner && inner[root].num == 1
  }

  /**
   * What Part 3 of `del` leaves of the inner nodes, when a leaf goes: below the lowest node of the path with several children, on level `m`,
   * the path's nodes are freed; that node loses the path's child; and a root left with a single child gives way to it.
   */
  predicate Pruned(inner: map<Ptr, Inner>, h: nat, root: Ptr, parray: seq<Ptr>, c: nat, m: nat, inner': map<Ptr, Inner>, h': nat, root': Ptr) {
    && 1 <= m <= h < |parray| && parray[m] in inner && NodeOk(inner[parray[m]]) && 0 < inner[parray[m]].num && c <= inner[parray[m]].num
    && inner'.Keys == inner.Keys - PathSet(parray, 1, m - 1) - (if Collapses(inner, h, root, m) then {root} else {})
    && (forall q :: q in inner' && q != parray[m] ==> inner'[q] == inner[q])
    && if Collapses(inner, h, root, m) then parray[m] == root && h' == h - 1 && root' == inner[root].ent[1 - c].ch
       else
         && h' == h && root' == root && parray[m] in inner' && NodeOk(inner'[parray[m]]) && inner'[parray[m]].num == inner[parray[m]].num - 1
         && Children(inner'[parray[m]]) == RemoveKid(Children(inner[parray[m]]), c)
  }

  /** The same for the way of the key. */
  predicate PrunedFor(inner: map<Ptr, Inner>, h: nat, root: Ptr, key: Key, inner': map<Ptr, Inner>, h': nat, root': Ptr) {
    var w, m := Way(inner, root, h, key), FirstWide(inner, Way(inner, root, h, key), h, 1);
    m < |w| && Pruned(inner, h, root, w, TurnAt(inner, w[m], key), m, inner', h', root')
  }

  lemma {:induction false} PrunedOnWay(inner: map<Ptr, Inner>, h: nat, root: Ptr, key: Key, parray: seq<Ptr>, ppos: seq<nat>, inner': map<Ptr, Inner>, h': nat, root': Ptr)
    requires parray == Way(inner, root, h, key) && |ppos| == h + 1 && forall l :: 1 <= l <= h ==> ppos[l] == TurnAt(inner, parray[l], key)
    ensures var m := FirstWide(inner, parray, h, 1);
      m < |ppos| && Pruned(inner, h, root, parray, ppos[m], m, inner', h', root') ==> PrunedFor(inner, h, root, key, inner', h', root')
  {
    hide Way, TurnAt, FirstWide, RemoveKid, PathSet;
    if h > 0 { FirstWideTop(inner, parray, h, 1); }
  }

  /** Only lock bits had been set in between. */
  lemma {:induction false} PrunedSince(inner0: map<Ptr, Inner>, inner: map<Ptr, Inner>, inner': map<Ptr, Inner>, h: nat, root: Ptr, parray: seq<Ptr>,
                                          c: nat, m: nat, h': nat, root': Ptr)
    requires OnlyLocks(inner0, inner) && LocksAre(inner0, {}) && LocksAre(inner, PathSet(parray, 1, m))
    requires Pruned(inner, h, root, parray, c, m, inner', h', root')
    ensures Pruned(inner0, h, root, parray, c, m, inner', h', root')
  {
    hide RemoveKid;
    PathSetMoreFrom(parray, m);
    forall q | q in inner' && q != parray[m] ensures inner'[q] == inner0[q] { assert q in inner && q !in PathSet(parray, 1, m); }
  }

  lemma {:induction false} WideLocks(inner0: map<Ptr, Inner>, inner: map<Ptr, Inner>, parray: seq<Ptr>, j: nat)
    requires OnlyLocks(inner0, inner)
    ensures Wide(inner0, parray, j) <==> Wide(inner, parray, j)
  {
    LocksKeys(inner0, inner);
    if j < |parray| && parray[j] in inner0 {
      var p := parray[j];
      assert p in inner0;
      assert p in inner;
      assert inner[p] == inner0[p].(lock := inner[p].lock);
    }
  }

  /** The level at which the branch ends. */
  lemma {:induction false} FirstWideHere(inner0: map<Ptr, Inner>, inner: map<Ptr, Inner>, h: nat, parray: seq<Ptr>, m: nat)
    requires OnlyLocks(inner0, inner) && 1 <= m <= h && Thin(inner, parray, m) && Wide(inner, parray, m)
    ensures FirstWide(inner0, parray, h, 1) == m
  {
    forall j | 1 <= j <= m ensures Wide(inner0, parray, j) <==> Wide(inner, parray, j) { WideLocks(inner0, inner, parray, j); }
    assert forall j :: 1 <= j < m ==> !Wide(inner, parray, j);
    FirstWideIs(inner0, parray, h, 1, m);
  }

  /** The number of children of the root, less one; a root leaf has none. */
  function RootNum(inner: map<Ptr, Inner>, root: Ptr): int { if root in inner then inner[root].num else 0 }

  /** The child of a node with two children that the search for the key does not go to. */
  function OtherOf(inner: map<Ptr, Inner>, p: Ptr, key: Key): Ptr {
    if p in inner && |inner[p].ent| > 1 && TurnAt(inner, p, key) <= 1 then inner[p].ent[1 - TurnAt(inner, p, key)].ch else NULL
  }

  /** The root has two children, and below the one on the way of the key there is a single leaf. */
  predicate LastPair(inner: map<Ptr, Inner>, h: nat, root: Ptr, key: Key) {
    RootNum(inner, root) == 1 && forall i :: 1 <= i < h ==> !Wide(inner, Way(inner, root, h, key), i)
  }

  lemma {:induction false} BranchLocks(inner0: map<Ptr, Inner>, inner: map<Ptr, Inner>, h: nat, root: Ptr, leaves: set<Ptr>, key: Key,
                                       parray: seq<Ptr>, ppos: seq<nat>, ctxs: seq<Ctx>, m: nat)
    requires OnlyLocks(inner0, inner) && BranchReady(inner, h, root, leaves, key, parray, ppos, ctxs, m)
    ensures LocksAre(inner, PathSet(parray, 1, m)) && FirstWide(inner0, parray, h, 1) == m && (Collapses(inner0, h, root, m) <==> Collapses(inner, h, root, m))
  {
    hide Tree, PathCtx, GraphOf, Thin, Wide, LocksAre, FirstWide;
    FirstWideHere(inner0, inner, h, parray, m);
    WideLocks(inner0, inner, [root], 0);
    LocksKeys(inner0, inner);
    if root in inner0 { assert root in inner && inner[root] == inner0[root].(lock := inner[root].lock); }
  }

  lemma {:induction false} FirstWideTop(inner: map<Ptr, Inner>, parray: seq<Ptr>, h: nat, i: nat)
    requires i <= h
    ensures i <= FirstWide(inner, parray, h, i) <= h
    ensures FirstWide(inner, parray, h, i) == h <==> forall j :: i <= j < h ==> !Wide(inner, parray, j)
    decreases h - i
  {
    hide Wide;
    if i < h && !Wide(inner, parray, i) { FirstWideTop(inner, parray, h, i + 1); }
  }

  lemma {:induction false} NotInPath(w: seq<Ptr>, b: nat, p: Ptr)
    requires b < |w| && forall i :: 0 <= i <= b ==> w[i] != p
    ensures p !in PathSet(w, 1, b)
  {
  }

  /** When the height drops, which node is the root then, and that a root kept does not end up with a single child. */
  lemma {:induction false} HeightAfter(inner: map<Ptr, Inner>, h: nat, root: Ptr, key: Key, inner': map<Ptr, Inner>, h': nat, root': Ptr)
    requires h > 0 && PrunedFor(inner, h, root, key, inner', h', root') && forall i :: 0 <= i < h ==> Way(inner, root, h, key)[i] != root
    ensures if LastPair(inner, h, root, key) then
        h' == h - 1 && root' == OtherOf(inner, root, key)
      else h' == h && root' == root && (RootNum(inner, root) > 0 ==> RootNum(inner', root') > 0)
  {
    var w := Way(inner, root, h, key);
    FirstWideTop(inner, w, h, 1);
    hide FirstWide, RemoveKid, Wide, TurnAt, PathSet;
    var m := FirstWide(inner, w, h, 1);
    if m < h {
      NotInPath(w, m - 1, root);
      assert root in inner ==> root in inner' && inner'[root] == inner[root];
    }
  }

  lemma {:induction false} PrunedStays(inner0: map<Ptr, Inner>, inner: map<Ptr, Inner>, inner': map<Ptr, Inner>, h: nat, root: Ptr, parray: seq<Ptr>, c: nat, m: nat)
    requires 1 <= m <= h < |parray| && Freed(inner0, inner, parray, m) && inner'.Keys == inner.Keys && ChildGone(inner, inner', parray[m], c)
    requires parray[m] in inner0 && inner[parray[m]] == inner0[parray[m]] && parray[h] == root && (forall i, j :: 0 <= i < j < |parray| ==> parray[i] != parray[j])
    ensures !(m == h && inner[parray[m]].num == 1) ==> Pruned(inner0, h, root, parray, c, m, inner', h, root)
    ensures m == h && inner[parray[m]].num == 1 ==> Pruned(inner0, h, root, parray, c, m, inner' - {root}, h - 1, inner'[root].ent[0].ch)
  {
    hide RemoveKid, PathSet;
    if m == h && inner[parray[m]].num == 1 { OtherLeft(inner, inner', parray[m], c); }
  }

  /** The last step of Part 3 of `del`: the child goes; the node is unlocked unless it is the root and about to collapse. */
  method RemoveUp(ghost inner0: map<Ptr, Inner>, inner: map<Ptr, Inner>, h: nat, root: Ptr, ghost leaves: set<Ptr>, ghost key: Key,
                  parray: seq<Ptr>, ppos: seq<nat>, ghost ctxs: seq<Ctx>, m: nat)
    returns (inner': map<Ptr, Inner>, collapse: bool)
    requires BranchReady(inner0, h, root, leaves, key, parray, ppos, ctxs, m) && Freed(inner0, inner, parray, m)
    requires m < |parray| && m < |ppos| && parray[m] in inner && inner[parray[m]] == inner0[parray[m]]
    ensures |ctxs| > 0 && Whole(h, root, inner', leaves - {parray[0]}, Removed(ctxs[0], ppos[m] == 0)) && inner'.Keys == inner.Keys
    ensures ChildGone(inner, inner', parray[m], ppos[m]) && (collapse <==> m == h && inner[parray[m]].num == 1)
    ensures !collapse ==> LocksAre(inner', {})
    ensures collapse ==> parray[m] == root && root in inner' && inner'[root].num == 0 && h > 0 && LocksAre(inner' - {root}, {}) && |inner'[root].ent| > 0
  {
    BranchFacts(inner0, h, root, leaves, key, parray, ppos, ctxs, m);
    hide Tree, PathCtx, GraphOf, Whole, Removed, RemoveKid;
    var p := parray[m];
    var n' := RemoveChild(inner[p], ppos[m]);
    ghost var ks := Children(n');
    collapse := n'.num == 0 && m >= h;
    if !collapse { n' := n'.(lock := false); }
    assert NodeOk(n') && Children(n') == ks;
    FreedLocks(inner0, parray, m, n');
    RemovedWhole(inner0, h, root, leaves, key, parray, ppos, ctxs, m, n');
    inner' := inner[p := n'];
  }

  lemma {:induction false} ThinLocked(inner: map<Ptr, Inner>, inner': map<Ptr, Inner>, parray: seq<Ptr>, m: nat)
    requires OnlyLocks(inner, inner') && Thin(inner, parray, m)
    ensures Thin(inner', parray, m)
  {
    forall i | 1 <= i < m ensures parray[i] in inner' && inner'[parray[i]].num == 0 {
      var p := parray[i];
      assert p in inner;
    }
  }

  lemma {:induction false} BranchIntro(inner: map<Ptr, Inner>, inner': map<Ptr, Inner>, h: nat, root: Ptr, leaves: set<Ptr>, key: Key,
                                       parray: seq<Ptr>, ppos: seq<nat>, ctxs: seq<Ctx>, m: nat)
    requires NodesOk(inner) && Tree(GraphOf(inner), leaves, Top(root), h) && PathCtx(GraphOf(inner), h, root, key, parray, ppos, ctxs)
    requires OnlyLocks(inner, inner') && 1 <= m <= h && Thin(inner', parray, m) && Wide(inner', parray, m) && LocksAre(inner', PathSet(parray, 1, m))
    ensures BranchReady(inner', h, root, leaves, key, parray, ppos, ctxs, m)
  {
    LocksApart(inner, inner');
    hide GraphOf, Tree, PathCtx, OnlyLocks, Thin, Wide;
  }

  /** The leaf level with the leaf and, if there is one, its left neighbour locked. */
  lemma {:induction false} UnlinkIntro(h: nat, root: Ptr, inner: map<Ptr, Inner>, s: State, leaves: set<Ptr>, x: Ctx, e: IdxEntry, left: bool,
                                       Y: seq<Leaf>)
    requires Struct(h, root, inner, s, leaves) && x.All() == LeafList(inner, root, h) && (!left ==> x.A != [])
    requires |x.A| < |Y| && EntriesOf(Y[|x.A|]) == {e} && UnlockedBut(Y, |x.A|)
    requires View(s.cells, x.All()) == if x.A != [] then Y[|x.A| - 1 := Relocked(Y[|x.A| - 1], true)] else Y
    ensures UnlinkReady(s, h, x, e, left)
  {
    ChainOrdered(h, root, inner, s, leaves);
    LeavesParts(s, x.All(), h);
    hide Tree, LeavesOk, View, Entries, LeafOk;
    assert LeafOk(View(s.cells, x.All())[|x.A|]);
  }

  /** The leaf to cut and its left sibling are in memory, and the leaf came from the pool. */
  ghost predicate LeafToCut(s: State, leaves: set<Ptr>, x: Ctx, lp: Ptr, sib: Option<Ptr>) {
    && lp == x.e.ch && lp in leaves && lp in s.cells && |s.cells[lp].h| > 0 && |x.A| < |View(s.cells, x.All())|
    && s.cells[lp].Now() == View(s.cells, x.All())[|x.A|] && s.cells[lp].Now().Shape()
    && if sib.Some? then LeftOf(x, sib.value) && sib.value in s.cells else x.A == []
  }

  lemma {:induction false} CutFacts(h: nat, root: Ptr, inner: map<Ptr, Inner>, s: State, leaves: set<Ptr>, x: Ctx, sib: Option<Ptr>, safe: bool)
    requires Struct(h, root, inner, s, leaves) && x.All() == LeafList(inner, root, h)
    requires if sib.Some? then LeftOf(x, sib.value) else x.A == []
    requires safe ==> Recovery.Durable(s, x.All(), View(s.cells, x.All()))
    ensures LeafToCut(s, leaves, x, x.e.ch, sib) && NULL !in leaves
  {
    ChainOrdered(h, root, inner, s, leaves);
    LeafHere(h, root, inner, s, leaves, x, safe);
    LeavesParts(s, x.All(), h);
    assert x.All()[|x.A|] == x.e;
    if sib.Some? { assert x.All()[|x.A| - 1] == x.A[|x.A| - 1]; }
    hide View, LeavesOk, Tree, LeafOk;
  }

  lemma {:induction false} LevelHere(s: State, L: seq<IdxEntry>, h: nat, C: set<IdxEntry>)
    requires PrunedLevel(s, L, h, C) || (PrunedLevel(s, L, h + 1, C))
    ensures LeavesOk(s, L, h) && Union(View(s.cells, L)) == C && Unlocked(View(s.cells, L))
  {
  }

  /** The leaf, now locked: either it keeps an entry, or it holds only `e` and is the root or has a wide ancestor. */
  ghost predicate DeletePlanned(h: nat, inner: map<Ptr, Inner>, parray: seq<Ptr>, L: seq<IdxEntry>, Y: seq<Leaf>, ctxs: seq<Ctx>, pos: nat, e: IdxEntry) {
    && |ctxs| > 0 && |parray| > 0 && ctxs[0].All() == L && ctxs[0].e.ch == parray[0] && |ctxs[0].A| < |Y| && UnlockedBut(Y, |ctxs[0].A|)
    && var y := Y[|ctxs[0].A|];
      && y.Shape() && y.Used(pos) && y.ent[pos] == e && CountBits(y.m.bitmap) > 0
      && (CountBits(y.m.bitmap) == 1 ==> EntriesOf(y) == {e} && (h > 0 ==> exists i :: 1 <= i <= h && Wide(inner, parray, i)))
  }

  /** What `del` finds out before it locks the leaf. */
  lemma {:induction false} DeletePlan(h: nat, root: Ptr, inner: map<Ptr, Inner>, s: State, leaves: set<Ptr>, key: Key,
                                      parray: seq<Ptr>, ppos: seq<nat>, ctxs: seq<Ctx>, pos: nat)
    requires Struct(h, root, inner, s, leaves) && CtxPath(GraphOf(inner), Top(root), h, 0, key, parray, ppos, ctxs)
    requires Reached(s, LeafList(inner, root, h), ctxs[0], parray[0], key)
    requires var Y := View(s.cells, LeafList(inner, root, h)); HoldsAt(Y[|ctxs[0].A|], pos, key) && Unlocked(Y)
    requires h == 0 || exists e :: e in Union(View(s.cells, LeafList(inner, root, h))) && e.k != key
    ensures var L, j := LeafList(inner, root, h), |ctxs[0].A|;
      var Y := View(s.cells, L);
      DeletePlanned(h, inner, parray, L, Y[j := Relocked(Y[j], true)], ctxs, pos, Y[j].ent[pos])
  {
    var L, j := LeafList(inner, root, h), |ctxs[0].A|;
    var Y := View(s.cells, L);
    LeavesParts(s, L, h);
    hide LeavesOk, Tree, View, Union, Covers;
    var y := Y[j];
    assert LeafOk(y);
    CountEntries(y, pos);
    LockedSame(Y, j);
    hide LeafOk, CountBits, Entries;
    if CountBits(y.m.bitmap) == 1 && h > 0 {
      LoopStays(h, root, inner, s, leaves, key, parray, ppos, ctxs);
    }
  }

  lemma {:induction false} LockedSame(Y: seq<Leaf>, j: nat)
    requires Unlocked(Y) && j < |Y| && Y[j].Shape()
    ensures var Y' := Y[j := Relocked(Y[j], true)];
      UnlockedBut(Y', j) && Y'[j].Shape() && EntriesOf(Y'[j]) == EntriesOf(Y[j]) && Y'[j].m.bitmap == Y[j].m.bitmap && Y'[j].ent == Y[j].ent
  {
  }

  /** The entry a search finds is the only one with the key. */
  lemma {:induction false} UniqueContents(h: nat, root: Ptr, inner: map<Ptr, Inner>, s: State, leaves: set<Ptr>, key: Key, pos: int, ctxs: seq<Ctx>)
    requires Struct(h, root, inner, s, leaves) && |ctxs| > 0
    requires var Y := View(s.cells, LeafList(inner, root, h));
      (pos >= 0 ==> |ctxs[0].A| < |Y| && HoldsAt(Y[|ctxs[0].A|], pos, key)) && (pos < 0 <==> !HasKey(Union(Y), key))
    ensures var Y := View(s.cells, LeafList(inner, root, h));
      && UniqueKeys(Union(Y))
      && (set e | e in Union(Y) && e.k != key) == if pos >= 0 then Union(Y) - {Y[|ctxs[0].A|].ent[pos]} else Union(Y)
  {
    var L := LeafList(inner, root, h);
    ChainOrdered(h, root, inner, s, leaves);
    LeavesParts(s, L, h);
    UnionUnique(L, View(s.cells, L));
    if pos >= 0 { UnionHas(View(s.cells, L), |ctxs[0].A|); }
    hide LeavesOk, Tree, View, Union, Fits, Linked;
  }
}
