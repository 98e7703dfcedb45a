/** The structural steps on the logical tree: leaf split, inner split, root growth. */
module ConcurrentTree {
  import opened Types
  import opened LeafNode
  import opened LeafOps
  import opened LeafSplit
  import opened Levels
  import opened TreeSteps
  import opened Pending
  import opened LeafLevel
  import opened TreeView
  import opened Concurrent
  import opened ConcurrentInv
  import opened ConcurrentLeaf

  /** Every node stays on its level. */
  ghost predicate LevelsKept(v: Logical, h: nat, v': Logical, h': nat) {
    h <= h' && forall i, p :: 0 <= i <= h ==> StillHas(v, h, v', h', i, p)
  }

  predicate StillHas(v: Logical, h: nat, v': Logical, h': nat, i: nat, p: Ptr)
    requires i <= h <= h'
  {
    Has(Lv(v, h, i), p) ==> Has(Lv(v', h', i), p)
  }

  lemma {:induction false} AfterHas(x: Ctx, n: IdxEntry, p: Ptr)
    requires Has(x.All(), p)
    ensures Has(After(x, n), p)
  {
    AfterAt(x, n);
    var i :| 0 <= i < |x.All()| && x.All()[i].ch == p;
    hide After, Ctx.All;
    if i <= |x.A| { assert After(x, n)[i].ch == p; } else { assert After(x, n)[i + 1].ch == p; }
  }

  /** No address is on two levels. */
  lemma {:induction false} LevelsApart(v: Logical, h: nat, i: nat, j: nat, p: Ptr)
    requires LogicalOk(v, h) && i < j <= h && Has(Lv(v, h, i), p)
    ensures !Has(Lv(v, h, j), p)
  {
    TreeLevel(v.g, v.lv.Keys, v.top, h, i);
    TreeLevel(v.g, v.lv.Keys, v.top, h, j);
    if Has(Lv(v, h, j), p) { OneLevel(v.g, v.lv.Keys, Lv(v, h, i), i, Lv(v, h, j), j, p); }
  }

  lemma {:induction false} LevelsOf(v: Logical, h: nat, v': Logical, l: nat, x: Ctx, n: IdxEntry)
    requires l <= h && x.All() == Lv(v, h, l) && Lv(v', h, l) == After(x, n)
    requires forall i :: 0 <= i <= h && i != l ==> Lv(v', h, i) == Lv(v, h, i)
    ensures LevelsKept(v, h, v', h)
  {
    hide Lv, After, Ctx.All;
    forall i, p | 0 <= i <= h ensures StillHas(v, h, v', h, i, p) {
      if i == l { if Has(x.All(), p) { AfterHas(x, n, p); } }
    }
  }

  // ---------------------------------------------------------------- leaf split

  lemma {:induction false} PlainSplit(x: Leaf, e: IdxEntry, k: Key, y: Leaf, z: Leaf)
    requires SplitDone(x, e, k, y, z)
    ensures SplitDone(x, e, k, Plain(y), Plain(z)) && Plain(y).NextSibling() == y.NextSibling() && !Plain(y).m.lock && !Plain(z).m.lock && !z.m.lock
  {
    RelockedOk(y, false);
    RelockedOk(z, false);
    hide LeafOk, Entries;
  }

  lemma {:induction false} AlongSplit(lv: map<Ptr, Leaf>, x: Ctx, n: IdxEntry, y: Leaf, z: Leaf)
    requires NoDup(x.All()) && !Has(x.All(), n.ch) && x.e.ch in lv
    ensures Along(lv[x.e.ch := y][n.ch := z], After(x, n)) == SplitView(Along(lv, x.All()), |x.A|, y, z)
    ensures lv[x.e.ch := y][n.ch := z].Keys == lv.Keys + {n.ch}
  {
    var lv', L, L' := lv[x.e.ch := y][n.ch := z], x.All(), After(x, n);
    var Y := Along(lv, L);
    AfterAt(x, n);
    SplitAt(Y, |x.A|, y, z);
    hide After, SplitView, Ctx.All;
    forall i | 0 <= i < |L'| ensures Along(lv', L')[i] == SplitView(Y, |x.A|, y, z)[i] {
      if i < |x.A| { assert L'[i] == L[i] && L[i].ch != L[|x.A|].ch; }
      if i > |x.A| + 1 { assert L'[i] == L[i - 1] && L[i - 1].ch != L[|x.A|].ch; }
    }
  }

  lemma {:induction false} CtxPlace(v: Logical, h: nat, x: Ctx)
    requires LogicalOk(v, h) && x.All() == Lv(v, h, 0)
    ensures x.All()[|x.A|] == x.e && NoDup(x.All()) && x.e.ch in v.lv && |x.A| < |x.All()|
    ensures forall p :: p !in v.lv ==> !Has(x.All(), p)
  {
    TreeLevel(v.g, v.lv.Keys, v.top, h, 0);
  }

  /** The leaf level after the split of the leaf that covers the new key. */
  lemma {:induction false} LeafLevelSplit(v: Logical, v': Logical, h: nat, x: Ctx, e: IdxEntry, y: Leaf, z: Leaf, n: IdxEntry)
    requires LogicalOk(v, h) && x.All() == Lv(v, h, 0) && Covers(x, e.k) && x.e.ch in v.lv && n.ch !in v.lv
    requires SplitDone(v.lv[x.e.ch], e, n.k, y, z) && y.NextSibling() == n.ch && !y.m.lock && !z.m.lock
    requires v'.lv == v.lv[x.e.ch := y][n.ch := z] && Tree(v'.g, v.lv.Keys + {n.ch}, v'.top, h) && Lv(v', h, 0) == After(x, n)
    ensures LogicalOk(v', h) && Contents(v', h) == Contents(v, h) + {e}
  {
    hide Fits, Linked, Union, After, NoDup, Ascending, LeafOk, SplitDone, Ctx.All, Covers, Tree, Entries;
    var Y := Along(v.lv, x.All());
    CtxPlace(v, h, x);
    SplitSides(v.lv[x.e.ch], e, n.k, y, z);
    AlongSplit(v.lv, x, n, y, z);
    SplitThere(x, Y, y, z, n, e);
  }

  lemma {:induction false} SplitRange(v: Logical, h: nat, x: Ctx, e: IdxEntry, y: Leaf, z: Leaf, n: IdxEntry)
    requires LogicalOk(v, h) && x.All() == Lv(v, h, 0) && Covers(x, e.k) && x.e.ch in v.lv && SplitDone(v.lv[x.e.ch], e, n.k, y, z)
    ensures x.e.k < n.k && Below(n.k, x.B)
  {
    var Y := Along(v.lv, x.All());
    assert x.All()[|x.A|] == x.e;
    hide Tree, Linked, Fits, Covers, SplitDone;
    SplitKeyRange(x, Y, y, z, n, e);
  }

  /** Only the range of the split leaf changes. */
  lemma {:induction false} AfterRanges(x: Ctx, n: IdxEntry, p: Ptr, key: Key)
    requires CoversAt(x.All(), p, key) && p != x.e.ch && NoDup(x.All())
    ensures CoversAt(After(x, n), p, key)
  {
    var L, L' := x.All(), After(x, n);
    var i :| 0 <= i < |L| && RangeAt(L, i, p, key);
    AfterAt(x, n);
    hide After, Ctx.All;
    if i < |x.A| { assert RangeAt(L', i, p, key); } else { assert RangeAt(L', i + 1, p, key); }
  }

  /** The split of the only leaf. */
  lemma {:induction false} RootLeafSplits(v: Logical, root: Ptr, e: IdxEntry, y: Leaf, z: Leaf, n: IdxEntry)
    requires LogicalOk(v, 0) && v.top == Top(root) && root in v.lv && n.ch !in v.g && n.ch !in v.lv
    requires SplitDone(v.lv[root], e, n.k, y, z) && y.NextSibling() == n.ch && !y.m.lock && !z.m.lock
    ensures var v' := v.(lv := v.lv[root := y][n.ch := z], top := TopWith(root, n));
      && LogicalOk(v', 0) && Contents(v', 0) == Contents(v, 0) + {e} && LevelsKept(v, 0, v', 0)
      && forall p, key :: p != root && CoversAt(Lv(v, 0, 0), p, key) ==> CoversAt(Lv(v', 0, 0), p, key)
  {
    var x := Ctx([], IdxEntry(0, root), []);
    var v' := v.(lv := v.lv[root := y][n.ch := z], top := TopWith(root, n));
    assert x.All() == Top(root) && After(x, n) == TopWith(root, n);
    SplitRange(v, 0, x, e, y, z, n);
    RootLeafPending(v.g, v.lv.Keys, root, n);
    LeafLevelSplit(v, v', 0, x, e, y, z, n);
    LevelsOf(v, 0, v', 0, x, n);
  }

  /** The split of a leaf below node `q`: the new leaf becomes a child of `q` in the logical tree. */
  lemma {:induction false} LeafSplits(v: Logical, h: nat, lp: Ptr, q: Ptr, c: nat, e: IdxEntry, y: Leaf, z: Leaf, n: IdxEntry)
    requires LogicalOk(v, h) && h > 0 && Has(Lv(v, h, 1), q) && q in v.g && c < |v.g[q]| && v.g[q][c].ch == lp && CoversAt(Lv(v, h, 0), lp, e.k)
    requires lp in v.lv && n.ch !in v.g && n.ch !in v.lv && SplitDone(v.lv[lp], e, n.k, y, z) && y.NextSibling() == n.ch && !y.m.lock && !z.m.lock
    ensures var v' := v.(lv := v.lv[lp := y][n.ch := z], g := WithPending(v.g, q, c, n));
      && LogicalOk(v', h) && Contents(v', h) == Contents(v, h) + {e} && LevelsKept(v, h, v', h)
      && forall p, key :: p != lp && CoversAt(Lv(v, h, 0), p, key) ==> CoversAt(Lv(v', h, 0), p, key)
  {
    hide Tree, Fits, Linked, SplitDone, Ctx.All, Covers, After, Below, Down, LevelsKept, CoversAt, LeafOk, LogicalOk, Kids, Level, Lv, Has, Contents;
    var v' := v.(lv := v.lv[lp := y][n.ch := z], g := WithPending(v.g, q, c, n));
    var x, yc := LeafBelow(v, h, lp, q, c, e.k);
    SplitRange(v, h, x, e, y, z, n);
    PendingLevels(v, v', h, x, yc, c, n);
    LeafLevelSplit(v, v', h, x, e, y, z, n);
    LevelsOf(v, h, v', 0, x, n);
    AfterRangesAll(x, n);
  }

  /** The leaf and the node above it, in their levels. */
  lemma {:induction false} LeafBelow(v: Logical, h: nat, lp: Ptr, q: Ptr, c: nat, key: Key) returns (x: Ctx, yc: Ctx)
    requires LogicalOk(v, h) && h > 0 && Has(Lv(v, h, 1), q) && q in v.g && c < |v.g[q]| && v.g[q][c].ch == lp && CoversAt(Lv(v, h, 0), lp, key)
    ensures x.All() == Lv(v, h, 0) && yc.All() == Lv(v, h, 1) && x.e.ch == lp && yc.e.ch == q && Covers(x, key) && NoDup(x.All()) && lp in v.lv
    ensures c < |Kids(v.g, yc.e)| && x == Down(v.g, yc, c) && q !in v.lv && v.g.Keys !! v.lv.Keys
  {
    x := CtxAtLeaf(v, h, lp, key);
    yc := CtxOf(Lv(v, h, 1), q);
    PathFacts(v.g, v.lv.Keys, v.top, h, 0, yc, c);
    CtxUnique(x, Down(v.g, yc, c));
    NotKey(v, h, q);
  }

  /** The levels with the new leaf below `q`. */
  lemma {:induction false} PendingLevels(v: Logical, v': Logical, h: nat, x: Ctx, yc: Ctx, c: nat, n: IdxEntry)
    requires LogicalOk(v, h) && h > 0 && yc.e.ch in v.g && c < |v.g[yc.e.ch]| && x.All() == Lv(v, h, 0) && yc.All() == Lv(v, h, 1)
    requires c < |Kids(v.g, yc.e)| && x == Down(v.g, yc, c) && v.g.Keys !! v.lv.Keys && x.e.k < n.k && Below(n.k, x.B)
    requires n.ch !in v.g && n.ch !in v.lv && v'.g == WithPending(v.g, yc.e.ch, c, n) && v'.top == v.top
    ensures Tree(v'.g, v.lv.Keys + {n.ch}, v'.top, h) && Lv(v', h, 0) == After(x, n)
    ensures forall i :: 0 < i <= h ==> Lv(v', h, i) == Lv(v, h, i)
  {
    hide Fits, Linked, Ctx.All, After, Below, Down, Kids, Level;
    AddKid(v.g, v'.g, v.lv.Keys, v.lv.Keys + {n.ch}, v.top, h, 0, yc, c, n);
  }

  lemma {:induction false} AfterRangesAll(x: Ctx, n: IdxEntry)
    requires NoDup(x.All())
    ensures forall p, key :: p != x.e.ch && CoversAt(x.All(), p, key) ==> CoversAt(After(x, n), p, key)
  {
    hide After, Ctx.All, CoversAt, NoDup;
    forall p, key | p != x.e.ch && CoversAt(x.All(), p, key) ensures CoversAt(After(x, n), p, key) { AfterRanges(x, n, p, key); }
  }

  lemma {:induction false} NotKey(v: Logical, h: nat, q: Ptr)
    requires LogicalOk(v, h) && q in v.g
    ensures q !in v.lv && v.g.Keys !! v.lv.Keys
  {
  }

  // ---------------------------------------------------------------- inner split

  /** A full node `p` with the pair already in divides; the right part becomes a child of `q`, the node above. */
  lemma {:induction false} InnerSplits(v: Logical, h: nat, lev: nat, p: Ptr, q: Ptr, c: nat, m: nat, n: IdxEntry)
    requires LogicalOk(v, h) && 0 < lev < h && Has(Lv(v, h, lev), p) && Has(Lv(v, h, lev + 1), q) && p in v.g && q in v.g
    requires c < |v.g[q]| && v.g[q][c].ch == p && 0 < m < |v.g[p]| && n.k == v.g[p][m].k && n.ch !in v.g && n.ch !in v.lv
    ensures p != q && q in v.g[p := v.g[p][..m]][n.ch := v.g[p][m..]] && v.g[p := v.g[p][..m]][n.ch := v.g[p][m..]][q] == v.g[q]
    ensures var v' := v.(g := WithPending(v.g[p := v.g[p][..m]][n.ch := v.g[p][m..]], q, c, n));
      LogicalOk(v', h) && Lv(v', h, 0) == Lv(v, h, 0) && LevelsKept(v, h, v', h)
  {
    hide Tree, Fits, Linked, Ctx.All, After, Down, LevelsKept, Kids, Has;
    if p == q { LevelsApart(v, h, lev, lev + 1, p); }
    var g1 := v.g[p := v.g[p][..m]][n.ch := v.g[p][m..]];
    var v' := v.(g := WithPending(g1, q, c, n));
    var yc := CtxOf(Lv(v, h, lev + 1), q);
    PathFacts(v.g, v.lv.Keys, v.top, h, lev, yc, c);
    var x := Down(v.g, yc, c);
    SplitKids(v.g, v'.g, x.e, n, m);
    NotKey(v, h, q);
    AddKid(v.g, v'.g, v.lv.Keys, v.lv.Keys, v.top, h, lev, yc, c, n);
    LevelsOf(v, h, v', lev, x, n);
  }

  /** The root divides: its right part waits beside it. */
  lemma {:induction false} RootSplits(v: Logical, h: nat, root: Ptr, m: nat, n: IdxEntry)
    requires LogicalOk(v, h) && h > 0 && v.top == Top(root) && root in v.g && 0 < m < |v.g[root]| && n.k == v.g[root][m].k
    requires n.ch !in v.g && n.ch !in v.lv
    ensures var v' := v.(g := v.g[root := v.g[root][..m]][n.ch := v.g[root][m..]], top := TopWith(root, n));
      LogicalOk(v', h) && Lv(v', h, 0) == Lv(v, h, 0) && LevelsKept(v, h, v', h)
  {
    var v' := v.(g := v.g[root := v.g[root][..m]][n.ch := v.g[root][m..]], top := TopWith(root, n));
    var x := Ctx([], IdxEntry(0, root), []);
    assert x.All() == Top(root) && After(x, n) == TopWith(root, n);
    SplitKids(v.g, v'.g, x.e, n, m);
    NotKey(v, h, root);
    hide Tree, Fits, Linked, LevelsKept, Kids, Ctx.All, After;
    SplitHere(v.g, v'.g, v.lv.Keys, v.lv.Keys, x, h, n, {root, n.ch});
    forall i | 0 <= i <= h && i != h ensures Lv(v', h, i) == Lv(v, h, i) { }
    LevelsOf(v, h, v', h, x, n);
  }

  // ---------------------------------------------------------------- root growth

  /** A new root above the old one and its sibling: everything is where it was, one level further from the root. */
  lemma {:induction false} RootGrows(v: Logical, h: nat, root: Ptr, n: IdxEntry, r: Ptr, ks: seq<IdxEntry>)
    requires LogicalOk(v, h) && v.top == TopWith(root, n) && r !in v.g && r !in v.lv && |ks| == 2 && ks[0].ch == root && ks[1] == n
    ensures var v' := v.(g := v.g[r := ks], top := Top(r));
      LogicalOk(v', h + 1) && Lv(v', h + 1, 0) == Lv(v, h, 0) && LevelsKept(v, h, v', h + 1)
  {
    var v' := v.(g := v.g[r := ks], top := Top(r));
    var e := IdxEntry(0, r);
    assert Kids(v'.g, e) == TopWith(root, n);
    assert Top(r)[0] == e && Top(r)[1..] == [];
    ExpandEmpty(v'.g);
    assert ExpandAll(v'.g, Top(r)) == TopWith(root, n);
    FrameBelow(v.g, v'.g, v.lv.Keys, v.lv.Keys, TopWith(root, n), h, {r});
    hide Fits, Linked, Kids;
    forall i | 0 <= i <= h ensures Lv(v', h + 1, i) == Lv(v, h, i) { }
  }
}
