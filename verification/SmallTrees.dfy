/** Small trees on which a condition fails: what `del` does with the last key of a tree of several levels, and what `check` makes of two more. */
module SmallTrees {
  import opened Types
  import opened LeafNode
  import opened Nvm
  import opened Levels
  import opened TreeSteps
  import opened Pending
  import opened LeafLevel
  import opened TreeView
  import opened TreeState
  import opened DeleteSteps
  import opened LbTree
  import opened TreeCheck
  import opened CheckMeaning

  /** A leaf with one key. */
  function OneKeyLeaf(k: Key, next: Ptr): Leaf {
    Leaf(Meta(seq(LEAF_KEY_NUM, i => i == 0), false, 0, seq(LEAF_KEY_NUM, _ => hashcode1B(k))), seq(LEAF_KEY_NUM, _ => IdxEntry(k, k)), [next, NULL])
  }

  lemma {:induction false} OneKeyIs(k: Key, next: Ptr)
    ensures var x := OneKeyLeaf(k, next);
      LeafOk(x) && Entries(x) == {IdxEntry(k, k)} && EntriesOf(x) == {IdxEntry(k, k)} && x.NextSibling() == next && !x.m.lock && !IsFull(x) && CountBits(x.m.bitmap) == 1
  {
    var x := OneKeyLeaf(k, next);
    assert x.ent[0] == IdxEntry(k, k);
    assert !x.m.bitmap[1];
    assert x.m.bitmap[0] && forall i :: 0 <= i < |x.m.bitmap[1..]| ==> !x.m.bitmap[1..][i];
    CountNone(x.m.bitmap[1..]);
  }

  function OneKid(p: Ptr): Inner { Inner(false, 0, seq(NON_LEAF_KEY_NUM + 1, _ => IdxEntry(0, p))) }

  function TwoKids(l: Ptr, k: Key, r: Ptr): Inner { Inner(false, 1, seq(NON_LEAF_KEY_NUM + 1, i => if i == 0 then IdxEntry(0, l) else IdxEntry(k, r))) }

  /** A leaf that has been written back. */
  function Settled(x: RawLeaf): Cell { Cell([x], [0, 0, 0, 0], [0, 0, 0, 0]) }

  // ---------------------------------------------------------------- one key below a root without a separator

  function LoneState(l: Ptr, k: Key): State {
    OneKeyIs(k, NULL);
    State(map[l := Settled(OneKeyLeaf(k, NULL))], [l], 0, 0)
  }

  lemma {:induction false} OneLevelDown(g: Graph, p: Ptr, q: Ptr)
    requires p in g && |g[p]| == 1 && g[p][0].ch == q
    ensures ExpandAll(g, Top(p)) == Top(q) && Kids(g, IdxEntry(0, p)) == Top(q)
  {
    assert Top(p)[1..] == [];
    ExpandEmpty(g);
  }

  /** A root with the leaf as its only child, and the leaf holds a single key. */
  lemma {:induction false} LoneTree(root: Ptr, l: Ptr, k: Key)
    requires root != l && l != NULL
    ensures var inner, s := map[root := OneKid(l)], LoneState(l, k);
      && Struct(1, root, inner, s, {l}) && LocksAre(inner, {}) && Unlocked(View(s.cells, LeafList(inner, root, 1)))
      && LeafList(inner, root, 1) == Top(l) && Union(View(s.cells, Top(l))) == {IdxEntry(k, k)}
  {
    var inner, s := map[root := OneKid(l)], LoneState(l, k);
    var g := GraphOf(inner);
    OneKeyIs(k, NULL);
    hide OneKeyLeaf, LeafOk, Entries, EntriesOf, CountBits, IsFull;
    OneLevelDown(g, root, l);
    assert Tree(g, {l}, Top(l), 0);
    assert Level(g, Top(l), 0, 0) == Top(l);
    assert View(s.cells, Top(l)) == [OneKeyLeaf(k, NULL)];
    assert [OneKeyLeaf(k, NULL)][1..] == [];
  }

  /** Deleting that key, Part 3 of `del` finds no node with several children up to the root. */
  lemma {:induction false} LoopLeaves(root: Ptr, l: Ptr, k: Key) returns (parray: seq<Ptr>, ppos: seq<nat>, ctxs: seq<Ctx>)
    requires root != l && l != NULL
    ensures var inner, s := map[root := OneKid(l)], LoneState(l, k);
      && Struct(1, root, inner, s, {l}) && LocksAre(inner, {}) && Unlocked(View(s.cells, LeafList(inner, root, 1)))
      && PathCtx(GraphOf(inner), 1, root, k, parray, ppos, ctxs) && !exists i :: 1 <= i <= 1 && Wide(inner, parray, i)
  {
    hide LoneState, Struct, View;
    LoneTree(root, l, k);
    parray, ppos, ctxs := LonePath(root, l, k);
  }

  lemma {:induction false} LonePath(root: Ptr, l: Ptr, k: Key) returns (parray: seq<Ptr>, ppos: seq<nat>, ctxs: seq<Ctx>)
    requires root != l
    ensures var inner := map[root := OneKid(l)]; PathCtx(GraphOf(inner), 1, root, k, parray, ppos, ctxs) && !exists i :: 1 <= i <= 1 && Wide(inner, parray, i)
  {
    var inner := map[root := OneKid(l)];
    var g := GraphOf(inner);
    OneLevelDown(g, root, l);
    parray, ppos, ctxs := [l, root], [0, 0], [Ctx([], IdxEntry(0, l), []), Ctx([], IdxEntry(0, root), [])];
    assert Level(g, Top(root), 1, 0) == Top(l) && Level(g, Top(root), 1, 1) == Top(root);
    assert CtxAt(g, Top(root), 1, 0, k, l, ctxs[0]) && CtxAt(g, Top(root), 1, 1, k, root, ctxs[1]);
    assert Down(g, ctxs[1], 0) == ctxs[0] by { ExpandEmpty(g); }
    assert StepAt(g, ctxs[1], 0, ctxs[0]);
    assert !Wide(inner, parray, 1);
  }

  /**
   * `del` itself leads there: of two keys in a tree with at least three levels it deletes one, the root collapses by at most one level,
   * and the other is then a key whose `del` would climb past the root.
   */
  method DeleteLastButOne(t: LBTree, e: IdxEntry, f: IdxEntry)
    requires t.Valid() && t.rootLevel >= 2 && t.Contents() == {e, f} && e.k != f.k
    modifies t, t.mempool, t.nvmpool
    ensures t.Valid() && t.rootLevel >= 1 && t.Contents() == {f}
    ensures forall parray, ppos, ctxs :: PathCtx(t.Graph(), t.rootLevel, t.treeRoot, f.k, parray, ppos, ctxs) ==>
      !exists i :: 1 <= i <= t.rootLevel && Wide(t.inner, parray, i)
  {
    hide PrunedFor, LastPair, RootNum, LBTree.LastKey, LBTree.Way, LBTree.SameNodes, LBTree.OtherChild, LBTree.Valid, LBTree.Durable, Tail, Ran, Wide, PathCtx,
      LBTree.Contents;
    assert f in t.Contents();
    t.Delete(e.k);
    assert t.Contents() == {f};
    LoneNow(t, f);
  }

  lemma {:induction false} LoneNow(t: LBTree, f: IdxEntry)
    requires t.Valid() && t.rootLevel >= 1 && t.Contents() == {f}
    ensures forall parray, ppos, ctxs :: PathCtx(t.Graph(), t.rootLevel, t.treeRoot, f.k, parray, ppos, ctxs) ==>
      !exists i :: 1 <= i <= t.rootLevel && Wide(t.inner, parray, i)
  {
    hide Struct, PathCtx, Wide, LBTree.Pools, LocksAre, Unlocked, View, Union, LeafList;
    forall parray, ppos, ctxs | PathCtx(t.Graph(), t.rootLevel, t.treeRoot, f.k, parray, ppos, ctxs)
      ensures !exists i :: 1 <= i <= t.rootLevel && Wide(t.inner, parray, i)
    {
      LoneClimbs(t.rootLevel, t.treeRoot, t.inner, t.nvm, t.nvmpool.used, f, parray, ppos, ctxs);
    }
  }

  lemma {:induction false} LoneClimbs(h: nat, root: Ptr, inner: map<Ptr, Inner>, s: State, leaves: set<Ptr>, f: IdxEntry,
                                      parray: seq<Ptr>, ppos: seq<nat>, ctxs: seq<Ctx>)
    requires Struct(h, root, inner, s, leaves) && h > 0 && PathCtx(GraphOf(inner), h, root, f.k, parray, ppos, ctxs)
    requires Union(View(s.cells, LeafList(inner, root, h))) == {f}
    ensures !exists i :: 1 <= i <= h && Wide(inner, parray, i)
  {
    var Y := View(s.cells, LeafList(inner, root, h));
    PathLengths(GraphOf(inner), h, root, f.k, parray, ppos, ctxs);
    LeafCtx(GraphOf(inner), leaves, h, root, f.k, parray, ppos, ctxs);
    hide PathCtx, Struct, Wide, LeafList, View, EntriesOf;
    UnionHas(Y, |ctxs[0].A|);
    LoopStays(h, root, inner, s, leaves, f.k, parray, ppos, ctxs);
  }

  // ---------------------------------------------------------------- two keys in a tree of three levels

  function TwoState(l: Ptr, j: Key, r: Ptr, k: Key): State {
    OneKeyIs(j, r);
    OneKeyIs(k, NULL);
    State(map[l := Settled(OneKeyLeaf(j, r)), r := Settled(OneKeyLeaf(k, NULL))], [l], 0, 0)
  }

  function TwoInner(root: Ptr, a: Ptr, b: Ptr, l: Ptr, r: Ptr, k: Key): map<Ptr, Inner> {
    map[root := TwoKids(a, k, b), a := OneKid(l), b := OneKid(r)]
  }

  predicate Five(root: Ptr, a: Ptr, b: Ptr, l: Ptr, r: Ptr) {
    root != a && root != b && root != l && root != r && a != b && a != l && a != r && b != l && b != r && l != r
  }

  lemma {:induction false} TwoTree(root: Ptr, a: Ptr, b: Ptr, l: Ptr, r: Ptr, k: Key)
    requires Five(root, a, b, l, r) && 0 < k
    ensures var inner := TwoInner(root, a, b, l, r, k);
      NodesOk(inner) && LocksAre(inner, {}) && Tree(GraphOf(inner), {l, r}, Top(root), 2) && LeafList(inner, root, 2) == [IdxEntry(0, l), IdxEntry(k, r)]
  {
    var g, L1, L0 := GraphOf(TwoInner(root, a, b, l, r, k)), [IdxEntry(0, a), IdxEntry(k, b)], [IdxEntry(0, l), IdxEntry(k, r)];
    assert g.Keys == {root, a, b};
    TwoLevels(g, root, a, b, l, r, k);
    hide GraphOf, ExpandAll;
    assert Tree(g, {l, r}, L0, 0);
    assert Closed(g, L1) && Closed(g, Top(root));
    assert Level(g, Top(root), 2, 0) == Level(g, L1, 1, 0) == Level(g, L0, 0, 0);
  }

  lemma {:induction false} TwoView(l: Ptr, j: Key, r: Ptr, k: Key)
    requires l != NULL && r != NULL && l != r && j < k
    ensures var s, L := TwoState(l, j, r, k), [IdxEntry(0, l), IdxEntry(k, r)];
      LeavesOk(s, L, 2) && Unlocked(View(s.cells, L)) && Union(View(s.cells, L)) == {IdxEntry(j, j), IdxEntry(k, k)}
  {
    var s, L := TwoState(l, j, r, k), [IdxEntry(0, l), IdxEntry(k, r)];
    OneKeyIs(j, r);
    OneKeyIs(k, NULL);
    hide OneKeyLeaf, LeafOk, Entries, EntriesOf, CountBits, IsFull;
    assert View(s.cells, L) == [OneKeyLeaf(j, r), OneKeyLeaf(k, NULL)];
    UnionTwo(OneKeyLeaf(j, r), OneKeyLeaf(k, NULL));
  }

  lemma {:induction false} UnionTwo(x: Leaf, y: Leaf)
    ensures Union([x, y]) == EntriesOf(x) + EntriesOf(y)
  {
    hide EntriesOf;
    assert Union([y]) == EntriesOf(y) + Union([]) by { assert [y][1..] == []; }
    assert Union([x, y]) == EntriesOf(x) + Union([y]) by { assert [x, y][1..] == [y]; }
  }

  /** A root above two nodes with one leaf each: of its two keys `del` removes one, and the other one is alone in a tree of two levels. */
  lemma {:induction false} TwoHigh(root: Ptr, a: Ptr, b: Ptr, l: Ptr, j: Key, r: Ptr, k: Key)
    requires Five(root, a, b, l, r) && l != NULL && r != NULL && j < k
    ensures var inner, s := TwoInner(root, a, b, l, r, k), TwoState(l, j, r, k);
      && Struct(2, root, inner, s, {l, r}) && LocksAre(inner, {}) && Unlocked(View(s.cells, LeafList(inner, root, 2)))
      && Union(View(s.cells, LeafList(inner, root, 2))) == {IdxEntry(j, j), IdxEntry(k, k)}
  {
    hide TwoInner, TwoState, LeavesOk, Tree, NodesOk, LocksAre, GraphOf, LeafList, View;
    TwoTree(root, a, b, l, r, k);
    TwoView(l, j, r, k);
  }

  lemma {:induction false} TwoLevels(g: Graph, root: Ptr, a: Ptr, b: Ptr, l: Ptr, r: Ptr, k: Key)
    requires root in g && a in g && b in g && |g[root]| == 2 && g[root][0].ch == a && g[root][1] == IdxEntry(k, b)
    requires |g[a]| == 1 && g[a][0].ch == l && |g[b]| == 1 && g[b][0].ch == r
    ensures ExpandAll(g, Top(root)) == [IdxEntry(0, a), IdxEntry(k, b)]
    ensures ExpandAll(g, [IdxEntry(0, a), IdxEntry(k, b)]) == [IdxEntry(0, l), IdxEntry(k, r)]
  {
    var L1 := [IdxEntry(0, a), IdxEntry(k, b)];
    ExpandEmpty(g);
    assert Top(root)[1..] == [] && L1[1..] == [IdxEntry(k, b)] && L1[1..][1..] == [];
  }

  // ---------------------------------------------------------------- what `check` makes of them

  function EmptyLeaf(): RawLeaf { Leaf(Meta(seq(LEAF_KEY_NUM, _ => false), false, 0, seq(LEAF_KEY_NUM, _ => 0)), seq(LEAF_KEY_NUM, _ => IdxEntry(0, NULL)), [NULL, NULL]) }

  /** A root leaf without a key is a tree, as `del` leaves it, and `check` rejects it. */
  lemma {:induction false} EmptyRejected(l: Ptr)
    requires l != NULL && l % 256 == 0
    ensures var s := State(map[l := Settled(EmptyLeaf())], [l], 0, 0);
      && Struct(0, l, map[], s, {l}) && LocksAre(map[], {}) && Unlocked(View(s.cells, LeafList(map[], l, 0))) && Aligned(map[], {l})
      && !Accepted(map[], LeafMap(s.cells), l, 0, l)
  {
    var s := State(map[l := Settled(EmptyLeaf())], [l], 0, 0);
    var Y := View(s.cells, Top(l));
    assert Level(GraphOf(map[]), Top(l), 0, 0) == Top(l);
    assert Y == [EmptyLeaf()] && Y[1..] == [];
    assert Tree(GraphOf(map[]), {l}, Top(l), 0);
    StructAccepted(0, l, map[], s, {l});
  }

  /** A leaf whose live sibling pointer leads anywhere is accepted as the last one. */
  lemma {:induction false} LastPointerIgnored(l: Ptr, k: Key, q: Ptr)
    requires l != NULL && l % 256 == 0
    ensures var leaf := map[l := OneKeyLeaf(k, q)]; leaf[l].Shape() && leaf[l].NextSibling() == q && Accepted(map[], leaf, l, 0, l)
  {
    var leaf := map[l := OneKeyLeaf(k, q)];
    OneKeyIs(k, q);
    hide OneKeyLeaf, CountBits, IsFull;
    assert Level(GraphOf(map[]), Top(l), 0, 0) == Top(l);
    AcceptedIs(map[], leaf, l, 0, l);
  }
}
