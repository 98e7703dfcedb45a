/** The steps after the search: leaf stores, splits on the way up, root growth, unlocking. Each keeps the invariant. */
module ConcurrentUp {
  import opened Types
  import opened LeafNode
  import opened Levels
  import opened TreeSteps
  import opened InnerNode
  import opened TreeState
  import opened LbTree
  import opened Concurrent
  import opened ConcurrentInv
  import opened ConcurrentSteps
  import opened ConcurrentLeaf
  import opened ConcurrentTree

  // ---------------------------------------------------------------- locks given back

  lemma {:induction false} LessHolds(own: map<Ptr, Tid>, t: Tid, pc: Pc, p: Ptr, pc': Pc)
    requires Holds(own, t, pc) && HeldBy(pc') == HeldBy(pc) - {p}
    ensures Holds(Less(own, p), t, pc')
  {
    forall q ensures Owns(Less(own, p), t, q) <==> q in HeldBy(pc') {
      assert Owns(own, t, q) <==> q in HeldBy(pc);
    }
  }

  lemma {:induction false} OnlyNode(node: seq<Ptr>, i: nat)
    requires i < |node|
    ensures PathSet(node, i, i) == {node[i]}
  {
  }

  lemma {:induction false} PathLess(v: Logical, h: nat, w: Path, a: nat)
    requires LogicalOk(v, h) && PathOk(v, h, w, a) && a < w.top
    ensures PathSet(w.node, a + 1, w.top) == PathSet(w.node, a, w.top) - {w.node[a]}
  {
    hide LogicalOk;
    assert PlaceOk(v, h, w, a);
    forall i | a < i <= w.top ensures w.node[i] != w.node[a] {
      assert PlaceOk(v, h, w, i);
      LevelsApart(v, h, a, i, w.node[a]);
    }
  }

  // ---------------------------------------------------------------- leaf stores

  lemma {:induction false} LeafEffectStep(s: Sys, t: Tid, lp: Ptr, y: Leaf)
    requires TreeInv(s) && t in s.th && (s.th[t].pc.Storing? || s.th[t].pc.Erasing?) && HeldBy(s.th[t].pc) == {lp} && BusyAt(s.th[t].pc) == Some(lp)
    requires lp in s.v.lv && !y.m.lock && LogicalOk(s.v.(lv := s.v.lv[lp := y]), s.m.h)
    ensures TreeInv(LeafEffect(s, t, lp, y)) && LeafEffect(s, t, lp, y).v == s.v.(lv := s.v.lv[lp := y])
  {
    hide TreeInv, LogicalOk, MemOk, HasKey, PlaceKept, RangeKept, Holds, Plain, PcOk;
    var s' := LeafEffect(s, t, lp, y);
    InvParts(s);
    MemKeys(s);
    PlainFull(y);
    ThreadThere(s, t);
    OwnsOne(s, t, lp);
    LessHolds(s.own, t, s.th[t].pc, lp, Returning);
    ShapeKept(s, s');
    OneLeaf(s, s', t, lp);
    assert s.m.root != lp ==> Outside(s, s', s.m.root);
    RootStays(s, s', t);
    ReturnOk(s', t);
    Assemble(s, s', t, {lp});
  }

  lemma {:induction false} ReturnOk(s: Sys, t: Tid)
    requires t in s.th && s.th[t].pc.Returning?
    ensures PcOk(s.m, s.v, s.th[t])
  {
  }

  /** Part 2 of `insert` for a leaf with room. */
  lemma {:induction false} StoreStep(s: Sys, t: Tid, y: Leaf)
    requires TreeInv(s) && Enabled(s, t, Store(y))
    ensures var s' := Fire(s, t, Store(y)); TreeInv(s') && Effective(s, s', t)
  {
    hide TreeInv, LogicalOk, Holds, PathOk, TopOk, RoomOk, CoversAt, IsFull, NewLeaf, Contents, HasKey, PathSet, Added, Entries;
    var pc, op := s.th[t].pc, s.th[t].op;
    var lp, e := LeafNow(pc), IdxEntry(op.key, op.rec);
    ThreadThere(s, t);
    InvParts(s);
    PathTop(s, pc.w, 0);
    OnlyNode(pc.w.node, 0);
    KeyInLeaf(s.v, s.m.h, lp, op.key);
    PlainFull(pc.orig);
    LeafGains(s.v, s.m.h, lp, y, e);
    NewLeafLock(pc.orig, y, Entries(pc.orig) + {e});
    LeafEffectStep(s, t, lp, y);
    AddedNew(Contents(s.v, s.m.h), e);
    PlainAnswer(Contents(s.v, s.m.h), op);
  }

  lemma {:induction false} NewLeafLock(x: Leaf, y: Leaf, C: set<IdxEntry>)
    requires NewLeaf(x, y, C)
    ensures !y.m.lock
  {
  }

  lemma {:induction false} AddedNew(C: set<IdxEntry>, e: IdxEntry)
    requires !HasKey(C, e.k)
    ensures Added(C, e) == C + {e}
  {
  }

  /** Part 2 of `del` for a leaf that keeps other keys. */
  lemma {:induction false} EraseStep(s: Sys, t: Tid, y: Leaf)
    requires TreeInv(s) && Enabled(s, t, Erase(y))
    ensures var s' := Fire(s, t, Erase(y)); TreeInv(s') && Effective(s, s', t)
  {
    hide TreeInv, LogicalOk, Holds, PathOk, TopOk, RoomOk, CoversAt, IsFull, NewLeaf, Contents, HasKey, PathSet, Without, Entries;
    var pc, op := s.th[t].pc, s.th[t].op;
    ThreadThere(s, t);
    InvParts(s);
    PlainFull(pc.orig);
    LeafLoses(s.v, s.m.h, pc.lp, y, op.key);
    NewLeafLock(pc.orig, y, Without(Entries(pc.orig), op.key));
    LeafEffectStep(s, t, pc.lp, y);
    PlainAnswer(Contents(s.v, s.m.h), op);
  }

  /** What the holder of a locked leaf stores in it meanwhile does not matter. */
  lemma {:induction false} ScribbleLeafStep(s: Sys, t: Tid, x: RawLeaf)
    requires TreeInv(s) && Enabled(s, t, ScribbleLeaf(x))
    ensures var s' := Fire(s, t, ScribbleLeaf(x)); TreeInv(s') && Silent(s, s')
  {
    hide TreeInv, LogicalOk, MemOk, PlaceKept, RangeKept, Holds, Contents, PcOk, HeldBy, Plain;
    var pc := s.th[t].pc;
    var lp, s' := LeafNow(pc), Fire(s, t, ScribbleLeaf(x));
    HeldLeaf(s, t);
    ThreadThere(s, t);
    InvParts(s);
    MemKeys(s);
    ShapeKept(s, s');
    OneLeaf(s, s', t, lp);
    assert s.m.root != lp ==> Outside(s, s', s.m.root);
    RootStays(s, s', t);
    SameHeld(s, s', t);
    LeafPcOk(s, s', t);
    Assemble(s, s', t, {lp});
  }

  lemma {:induction false} HeldLeaf(s: Sys, t: Tid)
    requires TreeInv(s) && t in s.th && (s.th[t].pc.Storing? || s.th[t].pc.Erasing?)
    ensures var lp := LeafNow(s.th[t].pc); BusyAt(s.th[t].pc) == Some(lp) && lp in s.v.lv && lp in s.m.leaf && Owns(s.own, t, lp)
  {
    hide LogicalOk, CoversAt, MemOk, RoomOk, IsFull, HasKey;
    ThreadThere(s, t);
    MemKeys(s);
    var pc := s.th[t].pc;
    if pc.Storing? {
      PathTop(s, pc.w, 0);
      InPathSet(pc.w.node, 0, pc.w.top, 0);
    }
    OwnsOne(s, t, LeafNow(pc));
  }

  lemma {:induction false} LeafPcOk(s: Sys, s': Sys, t: Tid)
    requires t in s.th && t in s'.th && s'.th[t] == s.th[t] && (s.th[t].pc.Storing? || s.th[t].pc.Erasing?) && PcOk(s.m, s.v, s.th[t])
    requires s'.v == s.v && s'.m.h == s.m.h && s'.m.root == s.m.root
    ensures PcOk(s'.m, s'.v, s'.th[t])
  {
  }

  // ---------------------------------------------------------------- the pair that waits

  /** After a split the node above has the new pair in the logical tree, and what is known of the path still holds. */
  lemma {:induction false} PendNext(v: Logical, h: nat, v': Logical, w: Path, lev: nat, n: IdxEntry, was: Inner, below: Ptr)
    requires LogicalOk(v, h) && 1 <= lev <= w.top && PathOk(v, h, w, lev) && RoomOk(v, h, w, lev) && Has(Lv(v, h, lev - 1), below)
    requires w.node[lev] in v.g && NodeOk(was) && Children(was) == v.g[w.node[lev]] && w.pos[lev] < |v.g[w.node[lev]]|
    requires w.node[lev] in v'.g && v'.g[w.node[lev]] == InsertAt(v.g[w.node[lev]], w.pos[lev], n)
    requires forall p :: p in v.g && p != w.node[lev] && p != below ==> p in v'.g && v'.g[p] == v.g[p]
    requires LevelsKept(v, h, v', h)
    ensures PendOk(v', h, w, n, lev, was)
  {
    hide LogicalOk, LevelsKept, PlaceOk, LinkOk, KidsAre, KidsSame, Has, Lv, NodeOk, Children;
    forall i | lev <= i <= w.top ensures PlaceOk(v', h, w, i) && (lev < i ==> LinkOk(v', w, i) && KidsSame(v, v', w, i)) {
      assert PlaceOk(v, h, w, i);
      if lev < i { assert LinkOk(v, w, i); }
      PlaceNext(v, h, v', w, lev, n, below, i);
    }
    if lev < w.top || lev < h { assert KidsAre(v, w, lev, lev < w.top); }
    KidsOfWas(v, w, lev, was);
    RoomNext(v, v', h, w, lev);
  }

  lemma {:induction false} KidsOfWas(v: Logical, w: Path, lev: nat, was: Inner)
    requires lev < |w.node| && lev < |w.pos| && w.node[lev] in v.g && NodeOk(was) && Children(was) == v.g[w.node[lev]]
    requires w.pos[lev] < |v.g[w.node[lev]]|
    ensures KidsAre(v, w, lev, true) ==> was.num == NON_LEAF_KEY_NUM
    ensures KidsAre(v, w, lev, false) ==> was.num < NON_LEAF_KEY_NUM
    ensures w.pos[lev] <= was.num
  {
  }

  lemma {:induction false} RoomNext(v: Logical, v': Logical, h: nat, w: Path, lev: nat)
    requires RoomOk(v, h, w, lev) && lev <= w.top
    requires forall i :: lev < i <= w.top ==> KidsSame(v, v', w, i)
    ensures RoomOk(v', h, w, lev + 1)
  {
    forall i | lev + 1 <= i < w.top ensures KidsAre(v', w, i, true) { assert KidsAre(v, w, i, true) && KidsSame(v, v', w, i); }
    if lev + 1 <= w.top < h { assert KidsAre(v, w, w.top, false) && KidsSame(v, v', w, w.top); }
  }

  predicate KidsSame(v: Logical, v': Logical, w: Path, i: nat) {
    i < |w.node| && w.node[i] in v.g && w.node[i] in v'.g && v'.g[w.node[i]] == v.g[w.node[i]]
  }

  lemma {:induction false} PlaceNext(v: Logical, h: nat, v': Logical, w: Path, lev: nat, n: IdxEntry, below: Ptr, i: nat)
    requires LogicalOk(v, h) && 1 <= lev <= i <= w.top <= h && PlaceOk(v, h, w, i) && PlaceOk(v, h, w, lev) && (lev < i ==> LinkOk(v, w, i))
    requires Has(Lv(v, h, lev - 1), below) && w.node[lev] in v'.g && v'.g[w.node[lev]] == InsertAt(v.g[w.node[lev]], w.pos[lev], n)
    requires forall p :: p in v.g && p != w.node[lev] && p != below ==> p in v'.g && v'.g[p] == v.g[p]
    requires LevelsKept(v, h, v', h)
    ensures PlaceOk(v', h, w, i) && (lev < i ==> LinkOk(v', w, i) && KidsSame(v, v', w, i))
  {
    hide LogicalOk, Has, Lv;
    assert StillHas(v, h, v', h, i, w.node[i]);
    if lev < i {
      assert w.node[i] != w.node[lev] by {
        if w.node[i] == w.node[lev] { LevelsApart(v, h, lev, i, w.node[i]); }
      }
      assert w.node[i] != below by {
        if w.node[i] == below { LevelsApart(v, h, lev - 1, i, below); }
      }
    }
  }

  lemma {:induction false} PathFrom1(v: Logical, h: nat, w: Path, a: nat, b: nat)
    requires PathOk(v, h, w, a) && a <= b
    ensures PathOk(v, h, w, b)
  {
    forall i | b <= i <= w.top ensures PlaceOk(v, h, w, i) { }
    forall i | b < i <= w.top ensures LinkOk(v, w, i) { }
  }

  lemma {:induction false} PathStep(v: Logical, h: nat, w: Path, a: nat, i: nat)
    requires PathOk(v, h, w, a) && a <= i < w.top
    ensures i + 1 < |w.node| && i + 1 < |w.pos| && Has(Lv(v, h, i), w.node[i]) && Has(Lv(v, h, i + 1), w.node[i + 1])
    ensures w.node[i + 1] in v.g && w.pos[i + 1] < |v.g[w.node[i + 1]]| && v.g[w.node[i + 1]][w.pos[i + 1]].ch == w.node[i]
  {
    assert PlaceOk(v, h, w, i) && PlaceOk(v, h, w, i + 1) && LinkOk(v, w, i + 1);
  }

  lemma {:induction false} PlacesKept(s: Sys, s': Sys)
    requires s.m.h <= s'.m.h && LevelsKept(s.v, s.m.h, s'.v, s'.m.h)
    ensures forall p, i :: 0 <= i <= s.m.h ==> PlaceKept(s, s', p, i)
  {
    hide Lv, Has;
    forall p, i | 0 <= i <= s.m.h ensures PlaceKept(s, s', p, i) { assert StillHas(s.v, s.m.h, s'.v, s'.m.h, i, p); }
  }

  // ---------------------------------------------------------------- steps that do nothing but read

  lemma {:induction false} ReadLevelStep(s: Sys, t: Tid)
    requires TreeInv(s) && Enabled(s, t, ReadLevel)
    ensures var s' := Fire(s, t, ReadLevel); TreeInv(s') && Silent(s, s')
  {
    hide TreeInv, LogicalOk, PendOk, Contents, PathSet, MemOk;
    ThreadThere(s, t);
    var pc := s.th[t].pc;
    if pc.w.top > 0 { PendTop(s, pc.w, pc.n, 1, s.m.inner[pc.w.node[1]]); }
    PcStep(s, Fire(s, t, ReadLevel), t);
  }

  lemma {:induction false} DecideStep(s: Sys, t: Tid)
    requires TreeInv(s) && Enabled(s, t, Decide)
    ensures var s' := Fire(s, t, Decide); TreeInv(s') && Silent(s, s')
  {
    hide TreeInv, LogicalOk, PendOk, Contents, PathSet, MemOk, NodeOk;
    ThreadThere(s, t);
    var pc := s.th[t].pc;
    PendTop(s, pc.w, pc.n, pc.lev, s.m.inner[pc.w.node[pc.lev]]);
    NumRange(s.m.inner[pc.w.node[pc.lev]]);
    PcStep(s, Fire(s, t, Decide), t);
  }

  lemma {:induction false} NumRange(n: Inner)
    requires NodeOk(n)
    ensures n.num <= NON_LEAF_KEY_NUM
  {
  }

  lemma {:induction false} CallStep(s: Sys, t: Tid, op: Op)
    requires TreeInv(s) && Enabled(s, t, Call(op))
    ensures var s' := Fire(s, t, Call(op)); TreeInv(s') && Silent(s, s')
  {
    hide TreeInv, Contents;
    PcStep(s, Fire(s, t, Call(op)), t);
  }

  lemma {:induction false} ReturnStep(s: Sys, t: Tid)
    requires TreeInv(s) && Enabled(s, t, Return)
    ensures var s' := Fire(s, t, Return); TreeInv(s') && Silent(s, s')
  {
    hide TreeInv, Contents;
    PcStep(s, Fire(s, t, Return), t);
  }

  // ---------------------------------------------------------------- inner nodes

  /** A step that changes one inner node of the tree. */
  lemma {:induction false} OneInner(s: Sys, s': Sys, t: Tid, p: Ptr)
    requires LogicalOk(s.v, s.m.h) && MemOk(s) && Others(s, s', t) && p in s.m.inner && s'.m.leaf == s.m.leaf && s'.v == s.v
    requires p in s'.m.inner && s'.m.inner == s.m.inner[p := s'.m.inner[p]]
    requires forall q :: q != p ==> (q in s'.own <==> q in s.own) && (q in s.own ==> s'.own[q] == s.own[q])
    requires s'.m.inner[p].lock <==> p in s'.own
    requires p in s'.own ==> s'.own[p] == t
    requires Busy(s'.th, s'.own, p) || (NodeOk(s'.m.inner[p]) && p in s.v.g && Children(s'.m.inner[p]) == s.v.g[p])
    ensures (forall q :: q !in {p} ==> Outside(s, s', q)) && SpotOk(s', p)
  {
    hide LogicalOk, MemOk, NodeOk, Children, BusyAt;
    Disjoint(s, p);
    MemKeys(s);
  }

  lemma {:induction false} HeldInner(s: Sys, t: Tid)
    requires TreeInv(s) && t in s.th && (s.th[t].pc.Filling? || s.th[t].pc.Splitting?)
    ensures var pc, p := s.th[t].pc, InnerNow(s.th[t].pc);
      && BusyAt(pc) == Some(p) && p in s.v.g && p in s.m.inner && Owns(s.own, t, p) && pc.lev < |pc.w.node| && p == pc.w.node[pc.lev]
      && PendOk(s.v, s.m.h, pc.w, pc.n, pc.lev, pc.was) && TopOk(s.m, pc.w) && 1 <= pc.lev <= pc.w.top <= s.m.h && pc.w.top < |pc.w.pos|
  {
    hide LogicalOk, MemOk, RoomOk, PathSet, PlaceOk, LinkOk;
    ThreadThere(s, t);
    InvParts(s);
    MemKeys(s);
    var pc := s.th[t].pc;
    PendTop(s, pc.w, pc.n, pc.lev, pc.was);
    InPathSet(pc.w.node, pc.lev, pc.w.top, pc.lev);
    OwnsOne(s, t, InnerNow(pc));
  }

  lemma {:induction false} ScribbleInnerStep(s: Sys, t: Tid, raw: RawInner)
    requires TreeInv(s) && Enabled(s, t, ScribbleInner(raw))
    ensures var s' := Fire(s, t, ScribbleInner(raw)); TreeInv(s') && Silent(s, s')
  {
    hide TreeInv, LogicalOk, MemOk, PlaceKept, RangeKept, Holds, Contents, PcOk, HeldBy, PendOk, TopOk, NodeOk;
    var p, s' := InnerNow(s.th[t].pc), Fire(s, t, ScribbleInner(raw));
    HeldInner(s, t);
    ThreadThere(s, t);
    InvParts(s);
    MemKeys(s);
    ShapeKept(s, s');
    OneInner(s, s', t, p);
    assert s.m.root != p ==> Outside(s, s', s.m.root);
    RootStays(s, s', t);
    SameHeld(s, s', t);
    InnerPcOk(s, s', t);
    Assemble(s, s', t, {p});
  }

  lemma {:induction false} InnerPcOk(s: Sys, s': Sys, t: Tid)
    requires t in s.th && t in s'.th && s'.th[t] == s.th[t] && (s.th[t].pc.Filling? || s.th[t].pc.Splitting?) && PcOk(s.m, s.v, s.th[t])
    requires s'.v == s.v && s'.m.h == s.m.h && s'.m.root == s.m.root
    ensures PcOk(s'.m, s'.v, s'.th[t])
  {
    hide PendOk;
  }

  /** The non-full case of Part 3: memory catches up with the logical tree, and the last lock bit is cleared. */
  lemma {:induction false} FilledStep(s: Sys, t: Tid, p': Inner)
    requires TreeInv(s) && Enabled(s, t, Fill(p'))
    ensures var s' := Fire(s, t, Fill(p')); TreeInv(s') && Silent(s, s')
  {
    hide TreeInv, LogicalOk, MemOk, PlaceKept, RangeKept, Holds, Contents, TopOk, PathSet, RoomOk, PathOk, NodeOk, Children, InsertAt;
    var pc := s.th[t].pc;
    var p, s' := InnerNow(pc), Fire(s, t, Fill(p'));
    HeldInner(s, t);
    ThreadThere(s, t);
    InvParts(s);
    MemKeys(s);
    FilledTop(s, t);
    OnlyNode(pc.w.node, pc.lev);
    LessHolds(s.own, t, pc, p, Returning);
    ShapeKept(s, s');
    OneInner(s, s', t, p);
    assert s.m.root != p ==> Outside(s, s', s.m.root);
    RootStays(s, s', t);
    Assemble(s, s', t, {p});
  }

  lemma {:induction false} FilledTop(s: Sys, t: Tid)
    requires t in s.th && s.th[t].pc.Filling? && PcOk(s.m, s.v, s.th[t])
    ensures var pc := s.th[t].pc;
      pc.lev == pc.w.top && pc.w.node[pc.lev] in s.v.g && NodeOk(pc.was) && s.v.g[pc.w.node[pc.lev]] == InsertAt(Children(pc.was), pc.w.pos[pc.lev], pc.n)
  {
    hide PathOk, RoomOk;
  }
}
