/** A whole tree as a value: inner nodes, leaf memory, and what a search in it finds. */
module TreeState {
  import opened Types
  import opened LeafNode
  import opened Nvm
  import opened LeafOps
  import opened Levels
  import opened TreeSteps
  import opened InnerNode
  import opened Pending
  import opened LeafLevel
  import opened Recovery
  import opened TreeView
  import opened MemoryRun

  function LeafList(inner: map<Ptr, Inner>, root: Ptr, h: nat): seq<IdxEntry> {
    Level(GraphOf(inner), Top(root), h, 0)
  }

  predicate NodesOk(inner: map<Ptr, Inner>) {
    forall p :: p in inner ==> NodeOk(inner[p])
  }

  /** Structure and contents of the tree, lock bits aside. */
  predicate Struct(h: nat, root: Ptr, inner: map<Ptr, Inner>, s: State, leaves: set<Ptr>) {
    && NodesOk(inner) && Tree(GraphOf(inner), leaves, Top(root), h) && NULL !in leaves
    && LeavesOk(s, LeafList(inner, root, h), h)
  }

  lemma {:induction false} StructTree(h: nat, root: Ptr, inner: map<Ptr, Inner>, s: State, leaves: set<Ptr>)
    requires Struct(h, root, inner, s, leaves)
    ensures NodesOk(inner) && Tree(GraphOf(inner), leaves, Top(root), h) && NULL !in leaves
  {
  }

  // ---------------------------------------------------------------- search

  lemma {:induction false} NodeAscending(g: Graph, leaves: set<Ptr>, x: Ctx, l: nat)
    requires l > 0 && Tree(g, leaves, x.All(), l)
    ensures x.e.ch in g && KeysAscend(g[x.e.ch])
  {
    assert x.All()[|x.A|] == x.e;
    KidsAt(g, x.e);
    ExpandAscending(g, leaves, x.All(), l);
    hide Kids, ExpandAll, Tree, Ctx.All;
    assert ExpandAll(g, x.A + [x.e] + x.B) == ExpandAll(g, x.A) + Kids(g, x.e) + ExpandAll(g, x.B) by { ExpandAround(g, x.A, x.e, x.B); }
    assert x.All() == x.A + [x.e] + x.B by { AllIs(x); }
    MiddleAscends(ExpandAll(g, x.A), Kids(g, x.e), ExpandAll(g, x.B));
  }

  lemma {:induction false} AllIs(x: Ctx)
    ensures x.All() == x.A + [x.e] + x.B
  {
  }

  lemma {:induction false} ExpandAscending(g: Graph, leaves: set<Ptr>, L: seq<IdxEntry>, l: nat)
    requires l > 0 && Tree(g, leaves, L, l)
    ensures Ascending(ExpandAll(g, L))
  {
    TreeOrdered(g, leaves, ExpandAll(g, L), l - 1);
  }

  lemma {:induction false} MiddleAscends(a: seq<IdxEntry>, ks: seq<IdxEntry>, b: seq<IdxEntry>)
    requires Ascending(a + ks + b)
    ensures Ascending(ks)
  {
    forall i, j | 0 <= i < j < |ks| ensures ks[i].k < ks[j].k {
      assert (a + ks + b)[|a| + i] == ks[i] && (a + ks + b)[|a| + j] == ks[j];
    }
  }

  /** The path of a search for `key`, with the context of each node on its level. */
  ghost predicate CtxPath(g: Graph, top: seq<IdxEntry>, h: nat, lev: nat, key: Key, parray: seq<Ptr>, ppos: seq<nat>, ctxs: seq<Ctx>) {
    && lev <= h && |parray| == |ppos| == |ctxs| == h + 1
    && (forall i :: lev <= i <= h ==> CtxAt(g, top, h, i, key, parray[i], ctxs[i]))
    && (forall i :: lev < i <= h ==> StepAt(g, ctxs[i], ppos[i], ctxs[i - 1]))
  }

  lemma {:induction false} CtxSizes(g: Graph, top: seq<IdxEntry>, h: nat, lev: nat, key: Key, parray: seq<Ptr>, ppos: seq<nat>, ctxs: seq<Ctx>)
    requires CtxPath(g, top, h, lev, key, parray, ppos, ctxs)
    ensures lev <= h && |parray| == |ppos| == |ctxs| == h + 1
  {
  }

  ghost predicate CtxAt(g: Graph, top: seq<IdxEntry>, h: nat, i: nat, key: Key, p: Ptr, x: Ctx)
    requires i <= h
  {
    x.All() == Level(g, top, h, i) && x.e.ch == p && Covers(x, key)
  }

  ghost predicate StepAt(g: Graph, x: Ctx, c: nat, x': Ctx) {
    x.e.ch in g && c < |g[x.e.ch]| && c < |Kids(g, x.e)| && x' == Down(g, x, c) && g[x.e.ch][c].ch == x'.e.ch
  }

  lemma {:induction false} PathOf(g: Graph, top: seq<IdxEntry>, h: nat, key: Key, parray: seq<Ptr>, ppos: seq<nat>, ctxs: seq<Ctx>)
    requires CtxPath(g, top, h, 0, key, parray, ppos, ctxs)
    ensures PathFrom(g, top, h, 0, parray, ppos)
  {
    forall i | 0 <= i <= h ensures PathAt(g, top, h, i, parray, ppos) && (i > 0 ==> g[parray[i]][ppos[i]].ch == parray[i - 1]) {
      assert CtxAt(g, top, h, i, key, parray[i], ctxs[i]);
      HasItself(ctxs[i]);
      if i > 0 { assert StepAt(g, ctxs[i], ppos[i], ctxs[i - 1]) && CtxAt(g, top, h, i - 1, key, parray[i - 1], ctxs[i - 1]); }
    }
  }

  lemma {:induction false} StepDown(g: Graph, leaves: set<Ptr>, top: seq<IdxEntry>, h: nat, i: nat, key: Key, p: Ptr, x: Ctx, c: nat)
    requires Tree(g, leaves, top, h) && 0 < i <= h && CtxAt(g, top, h, i, key, p, x) && p in g && Position(g[p], key, c)
    ensures c < |Kids(g, x.e)| && StepAt(g, x, c, Down(g, x, c)) && CtxAt(g, top, h, i - 1, key, g[p][c].ch, Down(g, x, c))
  {
    TreeLevel(g, leaves, top, h, i);
    KidsAt(g, x.e);
    Descend(g, x, key, c);
    LevelDown(g, top, h, i - 1);
  }

  lemma {:induction false} ExtendPath(g: Graph, leaves: set<Ptr>, top: seq<IdxEntry>, h: nat, i: nat, key: Key,
                                      parray: seq<Ptr>, ppos: seq<nat>, ctxs: seq<Ctx>, c: nat)
    requires Tree(g, leaves, top, h) && 0 < i <= h && CtxPath(g, top, h, i, key, parray, ppos, ctxs)
    requires parray[i] in g && Position(g[parray[i]], key, c)
    ensures c < |Kids(g, ctxs[i].e)|
    ensures CtxPath(g, top, h, i - 1, key, parray[i - 1 := g[parray[i]][c].ch], ppos[i := c], ctxs[i - 1 := Down(g, ctxs[i], c)])
  {
    assert CtxAt(g, top, h, i, key, parray[i], ctxs[i]);
    StepDown(g, leaves, top, h, i, key, parray[i], ctxs[i], c);
    hide CtxAt, StepAt, Tree, Position, Kids, Down;
  }

  lemma {:induction false} NodeOnPath(g: Graph, leaves: set<Ptr>, top: seq<IdxEntry>, h: nat, i: nat, key: Key,
                                      parray: seq<Ptr>, ppos: seq<nat>, ctxs: seq<Ctx>)
    requires Tree(g, leaves, top, h) && 0 < i <= h && CtxPath(g, top, h, i, key, parray, ppos, ctxs)
    ensures parray[i] in g && KeysAscend(g[parray[i]])
  {
    assert CtxAt(g, top, h, i, key, parray[i], ctxs[i]);
    TreeLevel(g, leaves, top, h, i);
    NodeAscending(g, leaves, ctxs[i], i);
  }

  // ---------------------------------------------------------------- the way of a key

  /** The node on level `l` on the way of a search for `key`, which has reached `p` on level `i`. */
  function NodeFor(inner: map<Ptr, Inner>, p: Ptr, i: nat, key: Key, l: nat): Ptr
    decreases i
  {
    if l >= i || p !in inner || !NodeOk(inner[p]) then p
    else NodeFor(inner, Children(inner[p])[PosIn(Children(inner[p]), key)].ch, i - 1, key, l)
  }

  /** All nodes on the way, from the leaf up. */
  function Way(inner: map<Ptr, Inner>, root: Ptr, h: nat, key: Key): (w: seq<Ptr>)
    ensures |w| == h + 1 && w[h] == root
  {
    seq(h + 1, l requires 0 <= l <= h => NodeFor(inner, root, h, key, l))
  }

  /** The child the search goes to at node `p`. */
  function TurnAt(inner: map<Ptr, Inner>, p: Ptr, key: Key): nat {
    if p in inner && NodeOk(inner[p]) then PosIn(Children(inner[p]), key) else 0
  }

  /** The search for `key` goes from `p` to its child `c`, the node `q`. */
  predicate WentTo(inner: map<Ptr, Inner>, p: Ptr, key: Key, c: nat, q: Ptr) {
    p in inner && NodeOk(inner[p]) && PosIn(Children(inner[p]), key) == c && Children(inner[p])[c].ch == q
  }

  lemma {:induction false} DownPosition(g: Graph, x: Ctx, c: nat, x': Ctx, key: Key)
    requires StepAt(g, x, c, x') && Covers(x', key)
    ensures Position(g[x.e.ch], key, c)
  {
    KidsAt(g, x.e);
    hide Kids, ExpandAll;
    var ks := Kids(g, x.e);
    if c + 1 < |ks| { assert x'.B[0] == ks[c + 1]; }
  }

  lemma {:induction false} WentHere(inner: map<Ptr, Inner>, leaves: set<Ptr>, h: nat, root: Ptr, key: Key,
                                    parray: seq<Ptr>, ppos: seq<nat>, ctxs: seq<Ctx>, i: nat)
    requires NodesOk(inner) && Tree(GraphOf(inner), leaves, Top(root), h) && CtxPath(GraphOf(inner), Top(root), h, 0, key, parray, ppos, ctxs) && 0 < i <= h
    ensures WentTo(inner, parray[i], key, ppos[i], parray[i - 1])
  {
    var g := GraphOf(inner);
    assert CtxAt(g, Top(root), h, i, key, parray[i], ctxs[i]) && CtxAt(g, Top(root), h, i - 1, key, parray[i - 1], ctxs[i - 1]);
    assert StepAt(g, ctxs[i], ppos[i], ctxs[i - 1]);
    TreeLevel(g, leaves, Top(root), h, i);
    NodeAscending(g, leaves, ctxs[i], i);
    hide Tree, CtxPath, Kids, ExpandAll, Covers, Position, Level;
    DownPosition(g, ctxs[i], ppos[i], ctxs[i - 1], key);
    PosInIs(g[parray[i]], key, ppos[i]);
  }

  lemma {:induction false} NodeForIs(inner: map<Ptr, Inner>, leaves: set<Ptr>, h: nat, root: Ptr, key: Key,
                                     parray: seq<Ptr>, ppos: seq<nat>, ctxs: seq<Ctx>, i: nat, l: nat)
    requires NodesOk(inner) && Tree(GraphOf(inner), leaves, Top(root), h) && CtxPath(GraphOf(inner), Top(root), h, 0, key, parray, ppos, ctxs) && l <= i <= h
    ensures |parray| == h + 1 && NodeFor(inner, parray[i], i, key, l) == parray[l]
    decreases i
  {
    hide Tree, CtxPath, GraphOf, NodesOk;
    CtxSizes(GraphOf(inner), Top(root), h, 0, key, parray, ppos, ctxs);
    if l < i {
      WentHere(inner, leaves, h, root, key, parray, ppos, ctxs, i);
      NodeForIs(inner, leaves, h, root, key, parray, ppos, ctxs, i - 1, l);
    }
  }

  /** The recorded path is the way of the key. */
  lemma {:induction false} WayIs(inner: map<Ptr, Inner>, leaves: set<Ptr>, h: nat, root: Ptr, key: Key,
                                 parray: seq<Ptr>, ppos: seq<nat>, ctxs: seq<Ctx>)
    requires NodesOk(inner) && Tree(GraphOf(inner), leaves, Top(root), h) && CtxPath(GraphOf(inner), Top(root), h, 0, key, parray, ppos, ctxs)
    ensures |parray| == |ppos| == h + 1 && parray[h] == root
    ensures parray == Way(inner, root, h, key) && forall l :: 1 <= l <= h ==> ppos[l] == TurnAt(inner, parray[l], key)
  {
    hide Tree, CtxPath, GraphOf, NodesOk, NodeFor;
    CtxSizes(GraphOf(inner), Top(root), h, 0, key, parray, ppos, ctxs);
    RootOfPath(GraphOf(inner), root, h, key, parray, ppos, ctxs);
    forall l | 0 <= l <= h ensures parray[l] == NodeFor(inner, root, h, key, l) { NodeForIs(inner, leaves, h, root, key, parray, ppos, ctxs, h, l); }
    forall l | 1 <= l <= h ensures ppos[l] == TurnAt(inner, parray[l], key) { WentHere(inner, leaves, h, root, key, parray, ppos, ctxs, l); }
  }

  lemma {:induction false} ChainOrdered(h: nat, root: Ptr, inner: map<Ptr, Inner>, s: State, leaves: set<Ptr>)
    requires Struct(h, root, inner, s, leaves)
    ensures var L := LeafList(inner, root, h); NoDup(L) && Ascending(L) && Tree(GraphOf(inner), leaves, L, 0)
  {
    TreeLevel(GraphOf(inner), leaves, Top(root), h, 0);
  }

  /** What holds at the leaf a search ends at. */
  lemma {:induction false} AtLeaf(h: nat, root: Ptr, inner: map<Ptr, Inner>, s: State, leaves: set<Ptr>, key: Key,
                                  parray: seq<Ptr>, ppos: seq<nat>, ctxs: seq<Ctx>)
    requires Struct(h, root, inner, s, leaves) && CtxPath(GraphOf(inner), Top(root), h, 0, key, parray, ppos, ctxs)
    ensures var x, L := ctxs[0], LeafList(inner, root, h);
      && x.All() == L && x.e.ch == parray[0] && Covers(x, key) && parray[0] in s.cells && parray[0] in leaves
      && NowAt(s.cells, parray[0]) == View(s.cells, L)[|x.A|] && LeafOk(NowAt(s.cells, parray[0]))
      && s.cells[parray[0]].Shape() && NowAt(s.cells, parray[0]) == s.cells[parray[0]].Now()
      && NoDup(L) && Ascending(L)
    ensures HasKey(Union(View(s.cells, LeafList(inner, root, h))), key) <==> HasKey(Entries(NowAt(s.cells, parray[0])), key)
  {
    var x, L := ctxs[0], LeafList(inner, root, h);
    assert CtxAt(GraphOf(inner), Top(root), h, 0, key, parray[0], x);
    ChainOrdered(h, root, inner, s, leaves);
    assert L[|x.A|] == x.e;
    KeyThere(x, View(s.cells, L), key);
  }

  /** The memory went from `s` to `s'` by exactly the events whose states the trace has gained since `was`. */
  ghost predicate Ran(was: seq<State>, now: seq<State>, s: State, s': State) {
    was <= now && Run(s, now[|was|..], s')
  }

  lemma {:induction false} RanNot(was: seq<State>, s: State)
    ensures Ran(was, was, s, s)
  {
    assert was[|was|..] == [];
  }

  lemma {:induction false} RanIs(was: seq<State>, more: seq<State>, s: State, s': State)
    requires Run(s, more, s')
    ensures Ran(was, was + more, s, s')
  {
    hide Run;
    assert (was + more)[|was|..] == more;
  }

  lemma {:induction false} RanTwice(a: seq<State>, b: seq<State>, c: seq<State>, s: State, s1: State, s2: State)
    requires Ran(a, b, s, s1) && Ran(b, c, s1, s2)
    ensures Ran(a, c, s, s2)
  {
    hide Run;
    RunJoin(s, b[|a|..], s1, c[|b|..], s2);
    assert c[|a|..] == b[|a|..] + c[|b|..];
  }

  /** The part of the trace since `was` recovers to `C` or `D` throughout. */
  ghost predicate Tail(was: seq<State>, now: seq<State>, C: set<IdxEntry>, D: set<IdxEntry>) {
    was <= now && TraceOk(now[|was|..], C, D)
  }

  lemma {:induction false} TailMore(was: seq<State>, now: seq<State>, more: seq<State>, C: set<IdxEntry>, D: set<IdxEntry>)
    requires Tail(was, now, C, D) && TraceOk(more, C, D)
    ensures Tail(was, now + more, C, D)
  {
    TraceJoin(now[|was|..], more, C, D);
    assert (now + more)[|was|..] == now[|was|..] + more;
  }

  lemma {:induction false} TailTwice(a: seq<State>, b: seq<State>, c: seq<State>, C: set<IdxEntry>, D: set<IdxEntry>)
    requires Tail(a, b, C, D) && Tail(b, c, C, D)
    ensures Tail(a, c, C, D)
  {
    TailMore(a, b, c[|b|..], C, D);
    assert b + c[|b|..] == c;
  }

  /** `isfull[i]` records whether the path node of level `i` was full when it was passed. */
  predicate FullAbove(inner: map<Ptr, Inner>, h: nat, lev: nat, parray: seq<Ptr>, isfull: seq<bool>) {
    && |parray| == |isfull| == h + 1
    && forall i :: lev < i <= h ==> parray[i] in inner && (isfull[i] <==> inner[parray[i]].num == NON_LEAF_KEY_NUM)
  }

  lemma {:induction false} CellOf(s: State, x: Ctx, h: nat, safe: bool)
    requires LeavesOk(s, x.All(), h)
    requires safe ==> Recovery.Durable(s, x.All(), View(s.cells, x.All()))
    ensures x.e.ch in s.cells && s.cells[x.e.ch].Shape() && s.cells[x.e.ch].wb == s.cells[x.e.ch].low
    ensures s.cells[x.e.ch].Now() == View(s.cells, x.All())[|x.A|] && LeafOk(s.cells[x.e.ch].Now())
    ensures Fits(x.All(), View(s.cells, x.All())) && Linked(x.All(), View(s.cells, x.All()))
    ensures h > 0 ==> EntriesOf(s.cells[x.e.ch].Now()) != {}
    ensures safe ==> Quiet(s.cells[x.e.ch])
  {
    assert x.All()[|x.A|] == x.e;
    assert safe ==> QuietAt(s, x.All(), View(s.cells, x.All()), |x.A|);
  }

  /** The leaf of a tree, as memory and as an element of the leaf level. */
  lemma {:induction false} LeafHere(h: nat, root: Ptr, inner: map<Ptr, Inner>, s: State, leaves: set<Ptr>, x: Ctx, safe: bool)
    requires Struct(h, root, inner, s, leaves) && x.All() == LeafList(inner, root, h)
    requires safe ==> Recovery.Durable(s, x.All(), View(s.cells, x.All()))
    ensures var Y := View(s.cells, x.All());
      && |x.A| < |Y| && |Y| == |x.All()| && x.e.ch in s.cells && s.cells[x.e.ch].Shape() && s.cells[x.e.ch].wb == s.cells[x.e.ch].low
      && s.cells[x.e.ch].Now() == Y[|x.A|] && LeafOk(Y[|x.A|]) && Fits(x.All(), Y) && Linked(x.All(), Y)
      && (h > 0 ==> EntriesOf(Y[|x.A|]) != {}) && (safe ==> Quiet(s.cells[x.e.ch]))
    ensures NoDup(x.All()) && Ascending(x.All())
  {
    CellOf(s, x, h, safe);
    ChainOrdered(h, root, inner, s, leaves);
  }

  lemma {:induction false} RelockShows(k: Cell, y: Leaf, b: bool, safe: bool)
    requires k.Shape() && LeafOk(y) && k.Now() == Relocked(y, b)
    requires safe ==> Quiet(k)
    ensures safe ==> AllShow([k], y, k.Now())
  {
    RelockedOk(y, b);
    if safe {
      SafeShows(k, k.Now(), k.Now());
      hide CellImage, Quiet;
    }
  }

  lemma {:induction false} TailIs(was: seq<State>, more: seq<State>, C: set<IdxEntry>, D: set<IdxEntry>)
    requires TraceOk(more, C, D)
    ensures Tail(was, was + more, C, D)
  {
    assert (was + more)[|was|..] == more;
  }

  lemma {:induction false} TailSame(was: seq<State>, C: set<IdxEntry>, D: set<IdxEntry>)
    ensures Tail(was, was, C, D)
  {
    assert was[|was|..] == [];
  }

  lemma {:induction false} TailWiden(was: seq<State>, now: seq<State>, C: set<IdxEntry>, D: set<IdxEntry>)
    ensures Tail(was, now, C, C) ==> Tail(was, now, C, D)
    ensures Tail(was, now, D, D) ==> Tail(was, now, C, D)
  {
    hide IsImage, Recovers;
  }

  lemma {:induction false} RootOfPath(g: Graph, root: Ptr, h: nat, key: Key, parray: seq<Ptr>, ppos: seq<nat>, ctxs: seq<Ctx>)
    requires CtxPath(g, Top(root), h, 0, key, parray, ppos, ctxs)
    ensures parray[h] == root
  {
    assert CtxAt(g, Top(root), h, h, key, parray[h], ctxs[h]);
    assert ctxs[h].All()[|ctxs[h].A|] == ctxs[h].e;
  }

  /** An address that is no leaf's is not in the leaf list; a root leaf is alone in it. */
  lemma {:induction false} LeafFacts(h: nat, root: Ptr, inner: map<Ptr, Inner>, s: State, leaves: set<Ptr>, x: Ctx, newp: Ptr)
    requires Struct(h, root, inner, s, leaves) && x.All() == LeafList(inner, root, h) && newp !in leaves
    ensures !Has(x.All(), newp) && LeavesOk(s, x.All(), h) && (h == 0 ==> |x.All()| == 1)
  {
    ChainOrdered(h, root, inner, s, leaves);
  }

  /** The search for `key` ended at leaf `lp`, which is where the key belongs. */
  predicate Reached(s: State, L: seq<IdxEntry>, x: Ctx, lp: Ptr, key: Key) {
    && x.All() == L && x.e.ch == lp && Covers(x, key) && |x.A| < |View(s.cells, L)|
    && lp in s.cells && |s.cells[lp].h| > 0 && s.cells[lp].Now() == View(s.cells, L)[|x.A|]
  }

  predicate HoldsAt(x: Leaf, pos: int, key: Key) {
    x.Shape() && x.Used(pos) && x.ent[pos].k == key && x.ent[pos] in Entries(x)
  }

  lemma {:induction false} HeldKey(x: Leaf, pos: int, key: Key)
    requires HoldsAt(x, pos, key)
    ensures x.Shape() && HasKey(Entries(x), key) && EntriesOf(x) == Entries(x)
  {
  }

  lemma {:induction false} SameBits(x: Leaf, b: bool)
    ensures Relocked(x, b).m.bitmap == x.m.bitmap
  {
  }

  /** The locked leaf `lp`, full or not, in whose range the new key `e.k` falls. */
  predicate LockedLeaf(s: State, L: seq<IdxEntry>, x: Ctx, lp: Ptr, e: IdxEntry, full: bool) {
    var Y := View(s.cells, L);
    && x.All() == L && x.e.ch == lp && Covers(x, e.k) && !HasKey(Union(Y), e.k)
    && |x.A| < |Y| && IsFull(Y[|x.A|]) == full && Y[|x.A|].m.lock && UnlockedBut(Y, |x.A|)
  }

  lemma {:induction false} NowLocked(s: State, L: seq<IdxEntry>, x: Ctx, lp: Ptr, e: IdxEntry, Y: seq<Leaf>)
    requires Unlocked(Y) && |x.A| < |Y| && View(s.cells, L) == Y[|x.A| := Relocked(Y[|x.A|], true)]
    requires x.All() == L && x.e.ch == lp && Covers(x, e.k) && !HasKey(Union(View(s.cells, L)), e.k)
    ensures LockedLeaf(s, L, x, lp, e, IsFull(View(s.cells, L)[|x.A|]))
  {
    hide View, Union, HasKey, Covers, IsFull;
  }

  // ---------------------------------------------------------------- lock bits

  lemma {:induction false} UnlockedNow(Y: seq<Leaf>, j: nat, z: Leaf)
    requires UnlockedBut(Y, j) && j < |Y| && !z.m.lock
    ensures Unlocked(Y[j := z])
  {
  }

  /** Exactly the inner nodes of `S` are locked. */
  predicate LocksAre(inner: map<Ptr, Inner>, S: set<Ptr>) {
    forall p :: p in inner ==> (inner[p].lock <==> p in S)
  }

  /** Same nodes, but for lock bits. */
  predicate OnlyLocks(inner: map<Ptr, Inner>, inner': map<Ptr, Inner>) {
    inner.Keys == inner'.Keys && forall p :: p in inner ==> inner'[p] == inner[p].(lock := inner'[p].lock)
  }

  lemma {:induction false} LocksKeys(inner: map<Ptr, Inner>, inner': map<Ptr, Inner>)
    requires OnlyLocks(inner, inner')
    ensures inner.Keys == inner'.Keys
  {
  }

  lemma {:induction false} LocksApart(inner: map<Ptr, Inner>, inner': map<Ptr, Inner>)
    requires OnlyLocks(inner, inner')
    ensures GraphOf(inner') == GraphOf(inner) && (NodesOk(inner) ==> NodesOk(inner'))
  {
    assert forall p | p in inner :: KidsOf(inner'[p]) == KidsOf(inner[p]);
  }

  function PathSet(parray: seq<Ptr>, a: nat, b: nat): set<Ptr> {
    set i | a <= i <= b && i < |parray| :: parray[i]
  }

  /** The path nodes from `lev` up to `top` were full when passed, except that `top` may be the first that was not. */
  predicate FullUpTo(inner: map<Ptr, Inner>, h: nat, parray: seq<Ptr>, lev: nat, top: nat) {
    && h < |parray| && top <= h && (forall i :: lev <= i <= h ==> parray[i] in inner)
    && (forall i :: lev <= i < top ==> inner[parray[i]].num == NON_LEAF_KEY_NUM)
    && (lev <= top < h ==> inner[parray[top]].num < NON_LEAF_KEY_NUM)
  }

  /** The path node on level `i` is full. */
  predicate FullAt(inner: map<Ptr, Inner>, parray: seq<Ptr>, i: nat) {
    i < |parray| && parray[i] in inner && inner[parray[i]].num == NON_LEAF_KEY_NUM
  }

  /** The lowest level from `i` on whose path node has room, or the level above the root if there is none. */
  function FirstRoom(inner: map<Ptr, Inner>, parray: seq<Ptr>, h: nat, i: nat): nat
    decreases h + 1 - i
  {
    if i > h || !FullAt(inner, parray, i) then i else FirstRoom(inner, parray, h, i + 1)
  }

  /** The inner nodes an insert needs when the split at the leaf is to be taken in at level `k`: one for each full node below, and a new root if there is no such level. */
  function Splits(h: nat, k: nat): nat { if k > h then h + 1 else if k > 0 then k - 1 else 0 }

  lemma {:induction false} FirstRoomRange(inner: map<Ptr, Inner>, parray: seq<Ptr>, h: nat, i: nat)
    requires i <= h + 1
    ensures i <= FirstRoom(inner, parray, h, i) <= h + 1
    decreases h + 1 - i
  {
    hide FullAt;
    if i <= h && FullAt(inner, parray, i) { FirstRoomRange(inner, parray, h, i + 1); }
  }

  lemma {:induction false} FirstRoomSame(inner: map<Ptr, Inner>, inner': map<Ptr, Inner>, parray: seq<Ptr>, h: nat, i: nat)
    requires forall j :: i <= j <= h ==> (FullAt(inner', parray, j) <==> FullAt(inner, parray, j))
    ensures FirstRoom(inner', parray, h, i) == FirstRoom(inner, parray, h, i)
    decreases h + 1 - i
  {
    hide FullAt;
    if i <= h { FirstRoomSame(inner, inner', parray, h, i + 1); }
  }

  lemma {:induction false} FirstRoomLocks(inner: map<Ptr, Inner>, inner': map<Ptr, Inner>, parray: seq<Ptr>, h: nat)
    requires OnlyLocks(inner, inner')
    ensures FirstRoom(inner', parray, h, 1) == FirstRoom(inner, parray, h, 1)
  {
    forall j | 1 <= j <= h ensures FullAt(inner', parray, j) <==> FullAt(inner, parray, j) {
      LocksKeys(inner, inner');
      if j < |parray| && parray[j] in inner {
        var p := parray[j];
        assert p in inner && p in inner';
        assert inner'[p] == inner[p].(lock := inner'[p].lock);
      }
    }
    hide OnlyLocks, FullAt;
    FirstRoomSame(inner, inner', parray, h, 1);
  }

  lemma {:induction false} FirstRoomAbove(inner: map<Ptr, Inner>, inner': map<Ptr, Inner>, parray: seq<Ptr>, h: nat, i: nat)
    requires forall j :: i <= j <= h ==> j < |parray| && parray[j] in inner && parray[j] in inner' && inner'[parray[j]] == inner[parray[j]]
    ensures FirstRoom(inner', parray, h, i) == FirstRoom(inner, parray, h, i)
  {
    FirstRoomSame(inner, inner', parray, h, i);
  }

  /** A root leaf has no path above it. */
  lemma {:induction false} NoPath(inner: map<Ptr, Inner>, h: nat, parray: seq<Ptr>, top: nat)
    requires LocksAre(inner, PathSet(parray, 1, top)) && FullUpTo(inner, h, parray, 1, top) && (h > 0 ==> top > 0)
    ensures h == 0 ==> LocksAre(inner, {})
    ensures h > 0 ==> 1 <= top
  {
    if h == 0 { assert PathSet(parray, 1, 0) == {}; }
  }

  lemma {:induction false} UnlockedOne(inner: map<Ptr, Inner>, p: Ptr, S: set<Ptr>)
    requires p in inner && LocksAre(inner, S)
    ensures var inner' := inner[p := inner[p].(lock := false)]; OnlyLocks(inner, inner') && LocksAre(inner', S - {p})
  {
  }

  lemma {:induction false} StructLocks(h: nat, root: Ptr, inner: map<Ptr, Inner>, inner': map<Ptr, Inner>, s: State, leaves: set<Ptr>)
    requires Struct(h, root, inner, s, leaves) && OnlyLocks(inner, inner')
    ensures Struct(h, root, inner', s, leaves) && LeafList(inner', root, h) == LeafList(inner, root, h)
  {
    LocksApart(inner, inner');
    hide Tree, LeavesOk, NodesOk, OnlyLocks, GraphOf;
  }

  /** The inner nodes form a whole tree with leaf list `L`. */
  ghost predicate Whole(h: nat, root: Ptr, inner: map<Ptr, Inner>, leaves: set<Ptr>, L: seq<IdxEntry>) {
    NodesOk(inner) && Tree(GraphOf(inner), leaves, Top(root), h) && LeafList(inner, root, h) == L
  }

  lemma {:induction false} StructOf(h: nat, root: Ptr, inner: map<Ptr, Inner>, s: State, leaves: set<Ptr>, L: seq<IdxEntry>)
    requires Whole(h, root, inner, leaves, L) && NULL !in leaves && LeavesOk(s, L, h)
    ensures Struct(h, root, inner, s, leaves) && LeafList(inner, root, h) == L
  {
  }

  /** The path is locked from level 1 up to `top`, the first node with room or the root. */
  predicate PathLocked(inner: map<Ptr, Inner>, h: nat, parray: seq<Ptr>, top: nat) {
    LocksAre(inner, PathSet(parray, 1, top)) && FullUpTo(inner, h, parray, 1, top) && (h > 0 ==> top > 0)
  }

  /** The marks taken during the search are right for the nodes up to the first that was not full. */
  lemma {:induction false} FullMarked(inner: map<Ptr, Inner>, inner': map<Ptr, Inner>, h: nat, parray: seq<Ptr>, isfull: seq<bool>, top: nat)
    requires FullAbove(inner, h, 0, parray, isfull) && NodesOk(inner) && top <= h && OnlyLocks(inner, inner')
    requires forall j :: 1 <= j < top ==> isfull[j]
    requires 1 <= top < h ==> !isfull[top]
    ensures FullUpTo(inner', h, parray, 1, top)
  {
    forall i | 1 <= i <= h
      ensures parray[i] in inner' && (i < top ==> inner'[parray[i]].num == NON_LEAF_KEY_NUM)
      ensures i == top && top < h ==> inner'[parray[i]].num < NON_LEAF_KEY_NUM
    {
      var p := parray[i];
      assert p in inner && NodeOk(inner[p]);
    }
  }
}
