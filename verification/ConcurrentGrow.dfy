/** The structural steps as steps of the concurrent tree. */
module ConcurrentGrow {
  import opened Types
  import opened LeafNode
  import opened LeafSplit
  import opened Levels
  import opened TreeSteps
  import opened InnerNode
  import opened Pending
  import opened LeafLevel
  import opened TreeState
  import opened LbTree
  import opened Concurrent
  import opened ConcurrentInv
  import opened ConcurrentSteps
  import opened ConcurrentLeaf
  import opened ConcurrentTree
  import opened ConcurrentUp

  // ---------------------------------------------------------------- new addresses

  lemma {:induction false} PlaceIn(v: Logical, h: nat, i: nat, p: Ptr)
    requires LogicalOk(v, h) && i <= h && Has(Lv(v, h, i), p)
    ensures if i == 0 then p in v.lv else p in v.g
  {
    TreeLevel(v.g, v.lv.Keys, v.top, h, i);
  }

  lemma {:induction false} TopHas(v: Logical, h: nat, root: Ptr)
    requires v.top == Top(root) || (|v.top| == 2 && v.top[0] == IdxEntry(0, root))
    ensures Has(Lv(v, h, h), root)
  {
    assert v.top[0].ch == root;
  }

  /** Only nodes are ever locked. */
  lemma {:induction false} OwnedNode(s: Sys, p: Ptr)
    requires TreeInv(s) && p in s.own
    ensures p in s.m.inner || p in s.m.leaf
  {
    hide LogicalOk, MemOk, PlaceOk, Has, RoomOk, CoversAt;
    InvParts(s);
    OwnerThere(s, p);
    var t := s.own[p];
    var pc := s.th[t].pc;
    ThreadThere(s, t);
    MemKeys(s);
    assert Owns(s.own, t, p) && p in HeldBy(pc);
    if pc.Storing? {
      PathNode(s, pc.w, 0, p);
    } else if pc.LeafDone? && pc.w.top > 0 {
      PathNode(s, pc.w, 1, p);
    } else if pc.Filling? || pc.Splitting? || (pc.Rising? && pc.lev <= pc.total) {
      PathNode(s, pc.w, pc.lev, p);
    } else if WaitsAtRoot(pc) {
      OnlyNode(pc.w.node, pc.w.top);
      TopHas(s.v, s.m.h, s.m.root);
      PlaceIn(s.v, s.m.h, s.m.h, p);
    }
  }

  lemma {:induction false} OwnerThere(s: Sys, p: Ptr)
    requires MemOk(s) && p in s.own
    ensures s.own[p] in s.th
  {
  }

  lemma {:induction false} PathNode(s: Sys, w: Path, a: nat, p: Ptr)
    requires LogicalOk(s.v, s.m.h) && MemOk(s) && PathOk(s.v, s.m.h, w, a) && p in PathSet(w.node, a, w.top)
    ensures p in s.m.inner || p in s.m.leaf
  {
    var i :| a <= i <= w.top && i < |w.node| && w.node[i] == p;
    assert PlaceOk(s.v, s.m.h, w, i);
    MemKeys(s);
    hide LogicalOk, MemOk;
    PlaceIn(s.v, s.m.h, i, p);
  }

  lemma {:induction false} FreshFree(s: Sys, p: Ptr)
    requires TreeInv(s) && Fresh(s.m, p)
    ensures p !in s.own && p !in s.v.g && p !in s.v.lv
  {
    InvParts(s);
    MemKeys(s);
    hide TreeInv, MemOk, LogicalOk;
    if p in s.own { OwnedNode(s, p); }
  }

  /** Who has locked the root and has no sibling waiting sees it alone. */
  lemma {:induction false} RootAlone(s: Sys, t: Tid)
    requires RootOk(s) && t in s.th && Owns(s.own, t, s.m.root) && !WaitsAtRoot(s.th[t].pc)
    ensures s.v.top == Top(s.m.root)
  {
  }

  lemma {:induction false} OpenKidsAt(s: Sys, t: Tid, p: Ptr)
    requires LogicalOk(s.v, s.m.h) && MemOk(s) && t in s.th && Owns(s.own, t, p) && BusyAt(s.th[t].pc) != Some(p) && p in s.v.g
    ensures p in s.m.inner && s.m.inner[p].lock && NodeOk(s.m.inner[p]) && Children(s.m.inner[p]) == s.v.g[p]
  {
    MemKeys(s);
    assert InnerAt(s, p);
  }

  // ---------------------------------------------------------------- leaf split

  /** The split of a root leaf. */
  lemma {:induction false} SplitRootLeafStep(s: Sys, t: Tid, y: Leaf, z: Leaf, n: IdxEntry)
    requires TreeInv(s) && Enabled(s, t, SplitLeaf(y, z, n)) && s.m.h == 0
    ensures var s' := Fire(s, t, SplitLeaf(y, z, n)); TreeInv(s') && Effective(s, s', t)
  {
    hide TreeInv, LogicalOk, MemOk, PlaceKept, RangeKept, Holds, Contents, PathSet, RoomOk, PathOk, SplitDone, HasKey, IsFull, CoversAt, Added, LevelsKept, Plain, Busy,
      Outside, SpotOk;
    var pc, op, s' := s.th[t].pc, s.th[t].op, Fire(s, t, SplitLeaf(y, z, n));
    var lp, e := LeafNow(pc), IdxEntry(op.key, op.rec);
    HeldLeaf(s, t);
    ThreadThere(s, t);
    InvParts(s);
    PathTop(s, pc.w, 0);
    FreshFree(s, n.ch);
    RootAlone(s, t);
    KeyInLeaf(s.v, 0, lp, op.key);
    PlainFull(pc.orig);
    AddedNew(Contents(s.v, 0), e);
    PlainAnswer(Contents(s.v, 0), op);
    PlainSplit(pc.orig, e, n.k, y, z);
    RootLeafSplits(s.v, lp, e, Plain(y), Plain(z), n);
    PlacesKept(s, s');
    RootLeafRanges(s, s', lp);
    SplitRootSpots(s, s', t, lp, y, z, n.ch);
    SameHeld(s, s', t);
    RootOnlyTop(s', t);
    Assemble(s, s', t, {lp, n.ch});
  }

  lemma {:induction false} RootLeafRanges(s: Sys, s': Sys, lp: Ptr)
    requires s.m.h == s'.m.h && forall p, key :: p != lp && CoversAt(Lv(s.v, s.m.h, 0), p, key) ==> CoversAt(Lv(s'.v, s'.m.h, 0), p, key)
    ensures forall p, key :: p != lp ==> RangeKept(s, s', p, key)
  {
    hide CoversAt, Lv;
  }

  lemma {:induction false} RootOnlyTop(s: Sys, t: Tid)
    requires t in s.th && Owns(s.own, t, s.m.root) && WaitsAtRoot(s.th[t].pc) && exists n :: s.v.top == TopWith(s.m.root, n)
    ensures RootOk(s)
  {
  }

  lemma {:induction false} SplitRootSpots(s: Sys, s': Sys, t: Tid, lp: Ptr, y: Leaf, z: Leaf, q: Ptr)
    requires LogicalOk(s.v, s.m.h) && MemOk(s) && Others(s, s', t) && lp in s.m.leaf && Owns(s.own, t, lp) && Fresh(s.m, q)
    requires q !in s.own && q !in s.v.g && q !in s.v.lv && y.m.lock && !z.m.lock
    requires s'.m.inner == s.m.inner && s'.m.leaf == s.m.leaf[lp := y][q := z] && s'.v.g == s.v.g
    requires s'.v.lv == s.v.lv[lp := Plain(y)][q := Plain(z)] && s'.own == s.own
    ensures (forall p :: p !in {lp, q} ==> Outside(s, s', p)) && SpotOk(s', lp) && SpotOk(s', q)
  {
    hide LogicalOk, MemOk, Plain, BusyAt;
    Disjoint(s, lp);
    MemKeys(s);
  }

  /** The split of a leaf under a parent. */
  lemma {:induction false} SplitLeafStep(s: Sys, t: Tid, y: Leaf, z: Leaf, n: IdxEntry)
    requires TreeInv(s) && Enabled(s, t, SplitLeaf(y, z, n)) && s.m.h > 0
    ensures var s' := Fire(s, t, SplitLeaf(y, z, n)); TreeInv(s') && Effective(s, s', t)
  {
    hide TreeInv, LogicalOk, MemOk, PlaceKept, RangeKept, Holds, Contents, PathSet, RoomOk, PathOk, SplitDone, HasKey, IsFull, CoversAt, Added, LevelsKept, Plain, Busy,
      Outside, SpotOk, PendOk, NodeOk, Children, InsertAt, Has;
    var pc, op, s' := s.th[t].pc, s.th[t].op, Fire(s, t, SplitLeaf(y, z, n));
    var w, lp := pc.w, LeafNow(pc);
    HeldLeaf(s, t);
    ThreadThere(s, t);
    InvParts(s);
    PathTop(s, w, 0);
    PathStep(s.v, s.m.h, w, 0, 0);
    var q := w.node[1];
    FreshFree(s, n.ch);
    SplitLeafLogical(s.v, s.m.h, lp, q, w.pos[1], op, pc.orig, y, z, n);
    PlacesKept(s, s');
    RootLeafRanges(s, s', lp);
    InPathSet(w.node, 0, w.top, 1);
    OwnsOne(s, t, q);
    OpenKidsAt(s, t, q);
    SplitLeafSpots(s, s', t, lp, y, z, n.ch, q);
    PathLess(s.v, s.m.h, w, 0);
    LessHolds(s.own, t, pc, lp, s'.th[t].pc);
    PathFrom1(s.v, s.m.h, w, 0, 1);
    PendNext(s.v, s.m.h, s'.v, w, 1, n, s.m.inner[q], lp);
    assert s.m.root in s.own ==> Outside(s, s', s.m.root) || s.own[s.m.root] == t;
    RootStays(s, s', t);
    Assemble(s, s', t, {lp, n.ch, q});
  }

  /** What the split does to the logical tree. */
  lemma {:induction false} SplitLeafLogical(v: Logical, h: nat, lp: Ptr, q: Ptr, c: nat, op: Op, orig: Leaf, y: Leaf, z: Leaf, n: IdxEntry)
    requires LogicalOk(v, h) && h > 0 && Has(Lv(v, h, 1), q) && q in v.g && c < |v.g[q]| && v.g[q][c].ch == lp && op.Put?
    requires LeafHeld(v, h, lp, op.key, orig) && !HasKey(EntriesOf(orig), op.key) && n.ch !in v.g && n.ch !in v.lv
    requires SplitDone(orig, IdxEntry(op.key, op.rec), n.k, y, z) && y.NextSibling() == n.ch && !y.m.lock
    ensures !z.m.lock && q !in v.lv && v.g.Keys !! v.lv.Keys
    ensures var v' := v.(lv := v.lv[lp := Plain(y)][n.ch := Plain(z)], g := WithPending(v.g, q, c, n));
      && LogicalOk(v', h) && ResOk(Contents(v, h), op, None) && Contents(v', h) == Applied(Contents(v, h), op) && LevelsKept(v, h, v', h)
      && forall p, key :: p != lp && CoversAt(Lv(v, h, 0), p, key) ==> CoversAt(Lv(v', h, 0), p, key)
  {
    hide LogicalOk, Contents, SplitDone, HasKey, CoversAt, Added, LevelsKept, Plain, Has, Lv, Entries, EntriesOf, Level;
    var e := IdxEntry(op.key, op.rec);
    KeyInLeaf(v, h, lp, op.key);
    PlainFull(orig);
    AddedNew(Contents(v, h), e);
    PlainAnswer(Contents(v, h), op);
    PlainSplit(orig, e, n.k, y, z);
    NotKey(v, h, q);
    LeafSplits(v, h, lp, q, c, e, Plain(y), Plain(z), n);
  }

  lemma {:induction false} SplitLeafSpots(s: Sys, s': Sys, t: Tid, lp: Ptr, y: Leaf, z: Leaf, np: Ptr, q: Ptr)
    requires LogicalOk(s.v, s.m.h) && MemOk(s) && Others(s, s', t) && lp in s.m.leaf && Fresh(s.m, np)
    requires np !in s.own && np !in s.v.g && np !in s.v.lv && !y.m.lock && !z.m.lock && q in s.m.inner && q in s.v.g && s.m.inner[q].lock && Owns(s.own, t, q)
    requires s'.m.inner == s.m.inner && s'.m.leaf == s.m.leaf[lp := y][np := z] && q in s'.v.g && s'.v.g == s.v.g[q := s'.v.g[q]]
    requires s'.v.lv == s.v.lv[lp := Plain(y)][np := Plain(z)] && s'.own == Less(s.own, lp) && BusyAt(s'.th[t].pc) == Some(q)
    ensures (forall p :: p !in {lp, np, q} ==> Outside(s, s', p)) && SpotOk(s', lp) && SpotOk(s', np) && SpotOk(s', q)
    ensures s'.own[q] == t && lp !in s'.own && np !in s'.own
  {
    hide LogicalOk, MemOk, Plain, BusyAt, NodeOk, Children;
    Disjoint(s, lp);
    Disjoint(s, q);
    MemKeys(s);
  }

  // ---------------------------------------------------------------- inner split

  lemma {:induction false} SplitFacts(s: Sys, t: Tid, p': Inner, q': Inner, n': IdxEntry)
    requires TreeInv(s) && Enabled(s, t, SplitInner(p', q', n'))
    ensures var pc, p, m := s.th[t].pc, InnerNow(s.th[t].pc), LEFT_KEY_NUM + 1;
      && BusyAt(pc) == Some(p) && p in s.v.g && p in s.m.inner && Owns(s.own, t, p) && pc.lev < |pc.w.node| && p == pc.w.node[pc.lev]
      && 0 < m < |s.v.g[p]| && KidsOf(p') == s.v.g[p][..m] && KidsOf(q') == s.v.g[p][m..] && n'.k == s.v.g[p][m].k
      && Children(p') == KidsOf(p') && Children(q') == KidsOf(q')
      && (pc.lev < pc.total <==> pc.lev < s.m.h) && (pc.lev < s.m.h ==> pc.lev < pc.w.top) && (pc.lev == s.m.h ==> p == s.m.root)
      && PathOk(s.v, s.m.h, pc.w, pc.lev) && RoomOk(s.v, s.m.h, pc.w, pc.lev + 1) && TopOk(s.m, pc.w) && TotalOk(s.m, pc.w, pc.total)
      && 1 <= pc.lev <= pc.w.top <= s.m.h && HeldBy(pc) == PathSet(pc.w.node, pc.lev, pc.w.top)
  {
    HeldInner(s, t);
    hide TreeInv, PathOk, RoomOk, PathSet, LogicalOk, MemOk;
    ThreadThere(s, t);
  }

  /** What a split of path node `lev`, below the root, does to the logical tree: the node's kids become `kp`, those of its new sibling `kq`. */
  ghost predicate SplitShape(s: Sys, s': Sys, w: Path, lev: nat, kp: seq<IdxEntry>, kq: seq<IdxEntry>, n': IdxEntry) {
    && s'.m.h == s.m.h && lev < w.top && lev + 1 < |w.node| && lev + 1 < |w.pos| && lev < s.m.h
    && var p, q := w.node[lev], w.node[lev + 1];
      && q in s.v.g && w.pos[lev + 1] < |s.v.g[q]| && p != q && p in s.v.g && Has(Lv(s.v, s.m.h, lev), p)
      && s'.v == s.v.(g := s.v.g[p := kp][n'.ch := kq][q := InsertAt(s.v.g[q], w.pos[lev + 1], n')])
      && LogicalOk(s'.v, s.m.h) && Lv(s'.v, s.m.h, 0) == Lv(s.v, s.m.h, 0) && LevelsKept(s.v, s.m.h, s'.v, s.m.h)
  }

  /** The logical tree after a split below the root. */
  lemma {:induction false} SplitInnerTree(s: Sys, t: Tid, p': Inner, q': Inner, n': IdxEntry)
    requires TreeInv(s) && Enabled(s, t, SplitInner(p', q', n')) && s.th[t].pc.lev < s.m.h
    ensures SplitShape(s, Fire(s, t, SplitInner(p', q', n')), s.th[t].pc.w, s.th[t].pc.lev, KidsOf(p'), KidsOf(q'), n')
  {
    hide TreeInv, LogicalOk, MemOk, Holds, PathSet, RoomOk, PathOk, LevelsKept, PendOk, PcOk, NodeOk, Children, InsertAt, Has, KidsOf, TopOk, TotalOk;
    var pc := s.th[t].pc;
    var w, p, lev := pc.w, InnerNow(pc), pc.lev;
    SplitFacts(s, t, p', q', n');
    InvParts(s);
    PathTop(s, w, lev);
    PathStep(s.v, s.m.h, w, lev, lev);
    FreshFree(s, n'.ch);
    InnerSplits(s.v, s.m.h, lev, p, w.node[lev + 1], w.pos[lev + 1], LEFT_KEY_NUM + 1, n');
  }

  /** Memory after a split below the root. */
  lemma {:induction false} SplitInnerMem(s: Sys, t: Tid, p': Inner, q': Inner, n': IdxEntry, q: Ptr)
    requires TreeInv(s) && Enabled(s, t, SplitInner(p', q', n')) && s.th[t].pc.lev < s.m.h
    requires var lev, w := s.th[t].pc.lev, s.th[t].pc.w; lev + 1 < |w.node| && q == w.node[lev + 1]
    ensures var p, s' := InnerNow(s.th[t].pc), Fire(s, t, SplitInner(p', q', n'));
      && (forall x :: x !in {p, n'.ch, q} ==> Outside(s, s', x)) && SpotOk(s', p) && SpotOk(s', n'.ch) && SpotOk(s', q)
      && Owns(s'.own, t, q) && p !in s'.own && n'.ch !in s'.own && Owns(s.own, t, p) && Owns(s.own, t, q) && n'.ch !in s.own
      && q in s.m.inner && NodeOk(s.m.inner[q]) && q in s.v.g && Children(s.m.inner[q]) == s.v.g[q]
  {
    hide TreeInv, LogicalOk, MemOk, Holds, PathSet, RoomOk, PathOk, LevelsKept, PendOk, PcOk, NodeOk, Children, InsertAt, Has, KidsOf, TopOk, TotalOk, Outside, SpotOk;
    var pc, s' := s.th[t].pc, Fire(s, t, SplitInner(p', q', n'));
    SplitFacts(s, t, p', q', n');
    SplitInnerTree(s, t, p', q', n');
    ThreadThere(s, t);
    InvParts(s);
    FreshFree(s, n'.ch);
    InPathSet(pc.w.node, pc.lev, pc.w.top, pc.lev + 1);
    OwnsOne(s, t, q);
    OpenKidsAt(s, t, q);
    SplitInnerSpots(s, s', t, InnerNow(pc), p', q', n'.ch, q);
  }

  /** The thread after a split below the root: the pair goes into the next node up. */
  lemma {:induction false} SplitInnerThread(s: Sys, t: Tid, p': Inner, q': Inner, n': IdxEntry, q: Ptr)
    requires TreeInv(s) && Enabled(s, t, SplitInner(p', q', n')) && s.th[t].pc.lev < s.m.h
    requires var lev, w := s.th[t].pc.lev, s.th[t].pc.w; lev + 1 < |w.node| && q == w.node[lev + 1]
    ensures ThreadOk(Fire(s, t, SplitInner(p', q', n')), t)
  {
    hide TreeInv, LogicalOk, MemOk, Holds, PathSet, RoomOk, PathOk, LevelsKept, PendOk, PcOk, NodeOk, Children, InsertAt, Has, KidsOf, TopOk, Outside, SpotOk;
    var pc, s' := s.th[t].pc, Fire(s, t, SplitInner(p', q', n'));
    var w, p, lev := pc.w, InnerNow(pc), pc.lev;
    SplitFacts(s, t, p', q', n');
    SplitInnerTree(s, t, p', q', n');
    SplitInnerMem(s, t, p', q', n', q);
    ThreadThere(s, t);
    InvParts(s);
    PathLess(s.v, s.m.h, w, lev);
    LessHolds(s.own, t, pc, p, s'.th[t].pc);
    PathFrom1(s.v, s.m.h, w, lev, lev + 1);
    FreshFree(s, n'.ch);
    PendNext(s.v, s.m.h, s'.v, w, lev + 1, n', s.m.inner[q], p);
    SameTop(s, s', w);
    RisingOk(s', t);
  }

  /** A split below the root. */
  lemma {:induction false} SplitInnerStep(s: Sys, t: Tid, p': Inner, q': Inner, n': IdxEntry)
    requires TreeInv(s) && Enabled(s, t, SplitInner(p', q', n')) && s.th[t].pc.lev < s.m.h
    ensures var s' := Fire(s, t, SplitInner(p', q', n')); TreeInv(s') && Silent(s, s')
  {
    hide TreeInv, LogicalOk, MemOk, PlaceKept, RangeKept, Holds, PathSet, RoomOk, PathOk, CoversAt, LevelsKept, Busy, Outside, SpotOk, PendOk, PcOk, NodeOk, Children,
      InsertAt, Has, KidsOf, TopOk, TotalOk, ThreadOk;
    var pc, s' := s.th[t].pc, Fire(s, t, SplitInner(p', q', n'));
    SplitFacts(s, t, p', q', n');
    SplitInnerTree(s, t, p', q', n');
    var q := pc.w.node[pc.lev + 1];
    SplitInnerMem(s, t, p', q', n', q);
    SplitInnerThread(s, t, p', q', n', q);
    InvParts(s);
    PlacesKept(s, s');
    SameRanges(s, s');
    assert s.m.root in s.own ==> Outside(s, s', s.m.root) || s.own[s.m.root] == t;
    RootStays(s, s', t);
    Assemble(s, s', t, {InnerNow(pc), n'.ch, q});
  }

  lemma {:induction false} RisingOk(s: Sys, t: Tid)
    requires t in s.th && s.th[t].pc.Rising?
    requires var pc := s.th[t].pc;
      TopOk(s.m, pc.w) && TotalOk(s.m, pc.w, pc.total) && 1 <= pc.lev <= pc.total && pc.lev < |pc.w.node| && pc.w.node[pc.lev] in s.m.inner
      && PendOk(s.v, s.m.h, pc.w, pc.n, pc.lev, s.m.inner[pc.w.node[pc.lev]])
    ensures PcOk(s.m, s.v, s.th[t])
  {
    hide PendOk;
  }

  lemma {:induction false} SameRanges(s: Sys, s': Sys)
    requires Lv(s'.v, s'.m.h, 0) == Lv(s.v, s.m.h, 0)
    ensures forall p, key :: RangeKept(s, s', p, key)
    ensures s'.v.lv == s.v.lv ==> Contents(s'.v, s'.m.h) == Contents(s.v, s.m.h)
  {
  }

  lemma {:induction false} SplitInnerSpots(s: Sys, s': Sys, t: Tid, p: Ptr, p': Inner, q': Inner, np: Ptr, q: Ptr)
    requires LogicalOk(s.v, s.m.h) && MemOk(s) && Others(s, s', t) && p in s.m.inner && p in s.v.g && p != q && Fresh(s.m, np)
    requires np !in s.own && np !in s.v.g && np !in s.v.lv && !p'.lock && !q'.lock && q in s.m.inner && q in s.v.g && s.m.inner[q].lock && Owns(s.own, t, q)
    requires NodeOk(p') && NodeOk(q') && q in s'.v.g
    requires s'.m.leaf == s.m.leaf && s'.m.inner == s.m.inner[p := p'][np := q'] && s'.v.g == s.v.g[p := Children(p')][np := Children(q')][q := s'.v.g[q]]
    requires s'.v.lv == s.v.lv && s'.own == Less(s.own, p) && BusyAt(s'.th[t].pc) == Some(q)
    ensures (forall x :: x !in {p, np, q} ==> Outside(s, s', x)) && SpotOk(s', p) && SpotOk(s', np) && SpotOk(s', q)
    ensures s'.own[q] == t && p !in s'.own && np !in s'.own
  {
    hide LogicalOk, MemOk, BusyAt, NodeOk, Children;
    Disjoint(s, p);
    Disjoint(s, q);
    MemKeys(s);
  }

  /** A split of the root: it stays locked, its right part waits. */
  lemma {:induction false} SplitRootStep(s: Sys, t: Tid, p': Inner, q': Inner, n': IdxEntry)
    requires TreeInv(s) && Enabled(s, t, SplitInner(p', q', n')) && s.th[t].pc.lev >= s.m.h
    ensures var s' := Fire(s, t, SplitInner(p', q', n')); TreeInv(s') && Silent(s, s')
  {
    hide TreeInv, LogicalOk, MemOk, PlaceKept, RangeKept, Holds, PathSet, RoomOk, PathOk, CoversAt, LevelsKept, Busy, Outside, SpotOk, PendOk, PcOk, NodeOk, Children,
      InsertAt, Has, KidsOf, TopOk;
    var pc, s' := s.th[t].pc, Fire(s, t, SplitInner(p', q', n'));
    var w, p, m := pc.w, InnerNow(pc), LEFT_KEY_NUM + 1;
    SplitFacts(s, t, p', q', n');
    ThreadThere(s, t);
    InvParts(s);
    FreshFree(s, n'.ch);
    RootAlone(s, t);
    RootSplits(s.v, s.m.h, p, m, n');
    PlacesKept(s, s');
    SameRanges(s, s');
    SplitTopSpots(s, s', t, p, p', q', n'.ch);
    SameHeld(s, s', t);
    WaitOk(s', t);
    RootOnlyTop(s', t);
    Assemble(s, s', t, {p, n'.ch});
  }

  lemma {:induction false} WaitOk(s: Sys, t: Tid)
    requires t in s.th && s.th[t].pc.Rising?
    requires var pc := s.th[t].pc; TopOk(s.m, pc.w) && pc.lev == pc.total + 1 && pc.w.top == pc.total == s.m.h && s.v.top == TopWith(s.m.root, pc.n)
    ensures PcOk(s.m, s.v, s.th[t])
  {
  }

  lemma {:induction false} SplitTopSpots(s: Sys, s': Sys, t: Tid, p: Ptr, p': Inner, q': Inner, np: Ptr)
    requires LogicalOk(s.v, s.m.h) && MemOk(s) && Others(s, s', t) && p in s.m.inner && p in s.v.g && Fresh(s.m, np) && Owns(s.own, t, p)
    requires np !in s.own && np !in s.v.g && np !in s.v.lv && p'.lock && !q'.lock && NodeOk(p') && NodeOk(q')
    requires s'.m.leaf == s.m.leaf && s'.m.inner == s.m.inner[p := p'][np := q'] && s'.v.g == s.v.g[p := Children(p')][np := Children(q')]
    requires s'.v.lv == s.v.lv && s'.own == s.own
    ensures (forall x :: x !in {p, np} ==> Outside(s, s', x)) && SpotOk(s', p) && SpotOk(s', np) && np !in s'.own
  {
    hide LogicalOk, MemOk, BusyAt, NodeOk, Children;
    Disjoint(s, p);
    MemKeys(s);
  }

  // ---------------------------------------------------------------- root growth

  /** The logical tree, and what the thread knows, when a new root is due. */
  lemma {:induction false} GrowFacts(s: Sys, t: Tid, r: Ptr, r': Inner)
    requires TreeInv(s) && Enabled(s, t, Grow(r, r'))
    ensures var pc, s' := s.th[t].pc, Fire(s, t, Grow(r, r'));
      && pc.lev == s.m.h + 1 && Owns(s.own, t, s.m.root) && HeldBy(pc) == {s.m.root} && BusyAt(pc) == None && KidsOf(r') == Children(r')
      && (if pc.total == 0 then s.m.root in s.m.leaf else s.m.root in s.m.inner) && s.m.root != r && r !in s.own && r !in s.v.g && r !in s.v.lv
      && LogicalOk(s'.v, s'.m.h) && Lv(s'.v, s'.m.h, 0) == Lv(s.v, s.m.h, 0) && LevelsKept(s.v, s.m.h, s'.v, s'.m.h)
  {
    hide TreeInv, LogicalOk, MemOk, Holds, PathSet, PathOk, LevelsKept, NodeOk, Children, Has, KidsOf, PendOk;
    var pc := s.th[t].pc;
    ThreadThere(s, t);
    InvParts(s);
    FreshFree(s, r);
    OnlyNode(pc.w.node, pc.w.top);
    OwnsOne(s, t, s.m.root);
    TopHas(s.v, s.m.h, s.m.root);
    PlaceIn(s.v, s.m.h, s.m.h, s.m.root);
    MemKeys(s);
    NewRootKids(r', s.m.root, pc.n);
    RootGrows(s.v, s.m.h, s.m.root, pc.n, r, KidsOf(r'));
  }

  lemma {:induction false} GrowStep(s: Sys, t: Tid, r: Ptr, r': Inner)
    requires TreeInv(s) && Enabled(s, t, Grow(r, r'))
    ensures var s' := Fire(s, t, Grow(r, r')); TreeInv(s') && Silent(s, s')
  {
    hide TreeInv, LogicalOk, MemOk, PlaceKept, RangeKept, Holds, PathSet, PathOk, CoversAt, LevelsKept, Busy, Outside, SpotOk, NodeOk, Children, Has, KidsOf, HeldBy, BusyAt, Lv,
      Contents, Owns;
    var pc, s' := s.th[t].pc, Fire(s, t, Grow(r, r'));
    GrowFacts(s, t, r, r');
    ThreadThere(s, t);
    InvParts(s);
    PlacesKept(s, s');
    SameRanges(s, s');
    GrowSpots(s, s', t, r, r');
    GrownHeld(s'.th[t].pc);
    MoreHolds(s, s', t, r);
    Assemble(s, s', t, {r});
  }

  lemma {:induction false} GrownHeld(pc: Pc)
    requires pc.Grown?
    ensures HeldBy(pc) == {pc.oldRoot} + {pc.newRoot} && BusyAt(pc) == None
  {
  }

  lemma {:induction false} NewRootKids(r': Inner, root: Ptr, n: IdxEntry)
    requires NodeOk(r') && r'.num == 1 && r'.ent[0].ch == root && r'.ent[1] == n
    ensures |KidsOf(r')| == 2 && KidsOf(r')[0].ch == root && KidsOf(r')[1] == n && KidsOf(r') == Children(r')
  {
  }

  lemma {:induction false} MoreHolds(s: Sys, s': Sys, t: Tid, r: Ptr)
    requires t in s.th && t in s'.th && Holds(s.own, t, s.th[t].pc) && s'.own == s.own[r := t] && r !in s.own
    requires HeldBy(s'.th[t].pc) == HeldBy(s.th[t].pc) + {r}
    ensures Holds(s'.own, t, s'.th[t].pc)
  {
    forall p ensures Owns(s'.own, t, p) <==> p in HeldBy(s'.th[t].pc) { assert Owns(s.own, t, p) <==> p in HeldBy(s.th[t].pc); }
  }

  lemma {:induction false} GrowSpots(s: Sys, s': Sys, t: Tid, r: Ptr, r': Inner)
    requires MemOk(s) && Others(s, s', t) && Fresh(s.m, r) && r !in s.own && r !in s.v.g && r !in s.v.lv && r'.lock && NodeOk(r')
    requires s'.m.leaf == s.m.leaf && s'.m.inner == s.m.inner[r := r'] && s'.v.g == s.v.g[r := Children(r')] && s'.v.lv == s.v.lv && s'.own == s.own[r := t]
    ensures (forall p :: p !in {r} ==> Outside(s, s', p)) && SpotOk(s', r) && s'.own[r] == t
  {
    hide MemOk, BusyAt, NodeOk, Children;
    MemKeys(s);
  }

  // ---------------------------------------------------------------- unlocking the roots

  lemma {:induction false} UnlockedChildren(n: Inner)
    requires NodeOk(n)
    ensures NodeOk(n.(lock := false)) && Children(n.(lock := false)) == Children(n)
  {
  }

  lemma {:induction false} UnlockInnerAt(s: Sys, s': Sys, t: Tid, p: Ptr)
    requires LogicalOk(s.v, s.m.h) && MemOk(s) && Others(s, s', t) && p in s.m.inner && Owns(s.own, t, p) && BusyAt(s.th[t].pc) != Some(p)
    requires s'.m == s.m.(inner := s.m.inner[p := s.m.inner[p].(lock := false)]) && s'.v == s.v && s'.own == Less(s.own, p)
    ensures (forall q :: q !in {p} ==> Outside(s, s', q)) && SpotOk(s', p) && p !in s'.own
  {
    hide LogicalOk, MemOk, BusyAt, NodeOk, Children;
    Disjoint(s, p);
    MemKeys(s);
    OpenKidsAt(s, t, p);
    UnlockedChildren(s.m.inner[p]);
  }

  lemma {:induction false} UnlockLeafAt(s: Sys, s': Sys, t: Tid, p: Ptr)
    requires LogicalOk(s.v, s.m.h) && MemOk(s) && Others(s, s', t) && p in s.m.leaf && Owns(s.own, t, p) && BusyAt(s.th[t].pc) != Some(p)
    requires s'.m == s.m.(leaf := SetLeafLock(s.m.leaf, p, false)) && s'.v == s.v && s'.own == Less(s.own, p)
    ensures (forall q :: q !in {p} ==> Outside(s, s', q)) && SpotOk(s', p) && p !in s'.own
  {
    assert LeafAt(s, p);
    hide LogicalOk, MemOk, BusyAt;
    Disjoint(s, p);
    MemKeys(s);
  }

  lemma {:induction false} UnlockOldStep(s: Sys, t: Tid)
    requires TreeInv(s) && Enabled(s, t, UnlockOld)
    ensures var s' := Fire(s, t, UnlockOld); TreeInv(s') && Silent(s, s')
  {
    hide TreeInv, LogicalOk, MemOk, PlaceKept, RangeKept, Holds, Contents, Outside, SpotOk;
    var pc, s' := s.th[t].pc, Fire(s, t, UnlockOld);
    ThreadThere(s, t);
    InvParts(s);
    OwnsOne(s, t, pc.oldRoot);
    if pc.wasLeaf { UnlockLeafAt(s, s', t, pc.oldRoot); } else { UnlockInnerAt(s, s', t, pc.oldRoot); }
    ShapeKept(s, s');
    LessHolds(s.own, t, pc, pc.oldRoot, s'.th[t].pc);
    RootStays(s, s', t);
    Assemble(s, s', t, {pc.oldRoot});
  }

  lemma {:induction false} UnlockNewStep(s: Sys, t: Tid)
    requires TreeInv(s) && Enabled(s, t, UnlockNew)
    ensures var s' := Fire(s, t, UnlockNew); TreeInv(s') && Silent(s, s')
  {
    hide TreeInv, LogicalOk, MemOk, PlaceKept, RangeKept, Holds, Contents, Outside, SpotOk;
    var pc, s' := s.th[t].pc, Fire(s, t, UnlockNew);
    ThreadThere(s, t);
    InvParts(s);
    OwnsOne(s, t, pc.newRoot);
    UnlockInnerAt(s, s', t, pc.newRoot);
    ShapeKept(s, s');
    LessHolds(s.own, t, pc, pc.newRoot, s'.th[t].pc);
    RootStays(s, s', t);
    Assemble(s, s', t, {pc.newRoot});
  }

  // ---------------------------------------------------------------- any step

  /** Every step of every thread keeps the invariant, and is either silent or the point where the thread's operation takes effect. */
  lemma {:induction false} AnyStep(s: Sys, t: Tid, a: Action)
    requires TreeInv(s) && Enabled(s, t, a)
    ensures var s' := Fire(s, t, a); TreeInv(s') && (Silent(s, s') || Effective(s, s', t))
  {
    hide TreeInv, Silent, Effective, Fire;
    match a
    case Call(op) => CallStep(s, t, op);
    case Search => SearchHere(s, t);
    case ScribbleLeaf(x) => ScribbleLeafStep(s, t, x);
    case Store(y) => StoreStep(s, t, y);
    case Erase(y) => EraseStep(s, t, y);
    case SplitLeaf(y, z, n) => if s.m.h == 0 { SplitRootLeafStep(s, t, y, z, n); } else { SplitLeafStep(s, t, y, z, n); }
    case ReadLevel => ReadLevelStep(s, t);
    case Decide => DecideStep(s, t);
    case ScribbleInner(raw) => ScribbleInnerStep(s, t, raw);
    case Fill(p') => FilledStep(s, t, p');
    case SplitInner(p', q', n') => if s.th[t].pc.lev < s.m.h { SplitInnerStep(s, t, p', q', n'); } else { SplitRootStep(s, t, p', q', n'); }
    case Grow(r, r') => GrowStep(s, t, r, r');
    case UnlockOld => UnlockOldStep(s, t);
    case UnlockNew => UnlockNewStep(s, t);
    case Return => ReturnStep(s, t);
  }

  lemma {:induction false} SearchHere(s: Sys, t: Tid)
    requires TreeInv(s) && Enabled(s, t, Search)
    ensures var s' := Fire(s, t, Search); TreeInv(s') && (Silent(s, s') || Effective(s, s', t))
  {
    hide TreeInv, Silent, Effective, Searched;
    SearchStep(s, t);
  }
}
