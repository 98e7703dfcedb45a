/** The search step and the leaf steps: they keep the invariant, and the operation takes effect in one of them. */
module ConcurrentLeaf {
  import opened Types
  import opened LeafNode
  import opened Levels
  import opened TreeSteps
  import opened InnerNode
  import opened LeafLevel
  import opened TreeState
  import opened LbTree
  import opened Concurrent
  import opened ConcurrentInv
  import opened ConcurrentSteps

  // ---------------------------------------------------------------- effects

  /** What the operation does to the map. */
  function Applied(C: set<IdxEntry>, op: Op): set<IdxEntry> {
    match op
    case Find(_) => C
    case Put(key, rec) => Added(C, IdxEntry(key, rec))
    case Remove(key) => Without(C, key)
  }

  /** The result is right for the map `C`. */
  predicate ResOk(C: set<IdxEntry>, op: Op, res: Option<Ptr>) {
    match op
    case Find(key) => (res == None <==> !HasKey(C, key)) && (res.Some? ==> IdxEntry(key, res.value) in C)
    case _ => res == None
  }

  /** The step has no effect on the map and is not recorded. */
  predicate Silent(s: Sys, s': Sys) {
    s'.hist == s.hist && Contents(s'.v, s'.m.h) == Contents(s.v, s.m.h)
  }

  /** The step is where thread `t`'s operation takes effect. */
  predicate Effective(s: Sys, s': Sys, t: Tid) {
    && t in s.th && t in s'.th && s'.th[t].op == s.th[t].op && s'.hist == s.hist + [Event(t, s.th[t].op, s'.th[t].res)]
    && var C := Contents(s.v, s.m.h);
      ResOk(C, s.th[t].op, s'.th[t].res) && Contents(s'.v, s'.m.h) == Applied(C, s.th[t].op)
  }

  // ---------------------------------------------------------------- putting a step together

  lemma {:induction false} KeptBy(s: Sys, s': Sys, t: Tid, u: Tid, changed: set<Ptr>)
    requires u != t && (forall p :: p !in changed ==> Outside(s, s', p))
    requires forall p :: p in changed ==> (p !in s.own || s.own[p] == t) && (p !in s'.own || s'.own[p] == t)
    requires s.m.h <= s'.m.h && (forall p, i :: 0 <= i <= s.m.h ==> PlaceKept(s, s', p, i))
    requires forall p, key :: p !in changed ==> RangeKept(s, s', p, key)
    requires (s'.m.root == s.m.root && s'.m.h == s.m.h && s'.v.top == s.v.top) || Owns(s.own, t, s.m.root)
    ensures Kept(s, s', u)
  {
    hide PlaceKept, RangeKept;
    forall p | Owns(s.own, u, p) ensures NodeKept(s, s', u, p) && p !in changed {
      assert p !in changed;
      assert Outside(s, s', p);
    }
    forall p | Owns(s'.own, u, p) ensures Owns(s.own, u, p) {
      assert p !in changed;
      assert Outside(s, s', p);
    }
  }

  /** The invariant after a step of thread `t` that changes only nodes it holds, or new ones. */
  lemma {:induction false} Assemble(s: Sys, s': Sys, t: Tid, changed: set<Ptr>)
    requires TreeInv(s) && Others(s, s', t) && LogicalOk(s'.v, s'.m.h) && RootOk(s') && ThreadOk(s', t)
    requires forall p :: p !in changed ==> Outside(s, s', p)
    requires forall p :: p in changed ==> (p !in s.own || s.own[p] == t) && (p !in s'.own || s'.own[p] == t) && SpotOk(s', p)
    requires s.m.h <= s'.m.h && (forall p, i :: 0 <= i <= s.m.h ==> PlaceKept(s, s', p, i))
    requires forall p, key :: p !in changed ==> RangeKept(s, s', p, key)
    requires (s'.m.root == s.m.root && s'.m.h == s.m.h && s'.v.top == s.v.top) || Owns(s.own, t, s.m.root)
    requires BusyAt(s.th[t].pc) == None || BusyAt(s'.th[t].pc) == BusyAt(s.th[t].pc) || BusyAt(s.th[t].pc).value in changed
    ensures TreeInv(s')
  {
    hide LogicalOk, MemOk, ThreadOk, Kept, Outside, SpotOk, PlaceKept, RangeKept, BusyAt, Owns;
    MemStep(s, s', t, changed);
    forall u | u in s'.th ensures ThreadOk(s', u) {
      if u != t {
        assert ThreadOk(s, u);
        KeptBy(s, s', t, u, changed);
        ThreadKept(s, s', u);
      }
    }
  }

  /** With the logical tree's shape as it was, nothing moves. */
  lemma {:induction false} ShapeKept(s: Sys, s': Sys)
    requires s'.v.g == s.v.g && s'.v.top == s.v.top && s'.m.h == s.m.h
    ensures (forall p, i :: 0 <= i <= s.m.h ==> PlaceKept(s, s', p, i)) && (forall p, key :: RangeKept(s, s', p, key))
  {
  }

  lemma {:induction false} Disjoint(s: Sys, p: Ptr)
    requires LogicalOk(s.v, s.m.h) && MemOk(s)
    ensures !(p in s.m.inner && p in s.m.leaf)
  {
    assert s.v.g.Keys !! s.v.lv.Keys;
  }

  // ---------------------------------------------------------------- the leaf level

  lemma {:induction false} CtxAtLeaf(v: Logical, h: nat, lp: Ptr, key: Key) returns (x: Ctx)
    requires LogicalOk(v, h) && CoversAt(Lv(v, h, 0), lp, key)
    ensures x.All() == Lv(v, h, 0) && x.e.ch == lp && Covers(x, key) && NoDup(x.All()) && Ascending(x.All()) && lp in v.lv
    ensures |x.A| < |Along(v.lv, x.All())| && Along(v.lv, x.All())[|x.A|] == v.lv[lp] && LeafOk(v.lv[lp])
  {
    x := CoversCtx(Lv(v, h, 0), lp, key);
    TreeLevel(v.g, v.lv.Keys, v.top, h, 0);
    assert x.All()[|x.A|] == x.e;
  }

  /** Which keys there are in the map, seen from the leaf that covers the key. */
  lemma {:induction false} KeyInLeaf(v: Logical, h: nat, lp: Ptr, key: Key)
    requires LogicalOk(v, h) && CoversAt(Lv(v, h, 0), lp, key)
    ensures lp in v.lv && LeafOk(v.lv[lp]) && (HasKey(Contents(v, h), key) <==> HasKey(Entries(v.lv[lp]), key))
    ensures Entries(v.lv[lp]) <= Contents(v, h) && UniqueKeys(Contents(v, h))
  {
    var x := CtxAtLeaf(v, h, lp, key);
    KeyThere(x, Along(v.lv, x.All()), key);
    UnionHas(Along(v.lv, x.All()), |x.A|);
    UnionUnique(x.All(), Along(v.lv, x.All()));
  }

  lemma {:induction false} AlongPut(lv: map<Ptr, Leaf>, L: seq<IdxEntry>, j: nat, y: Leaf)
    requires NoDup(L) && j < |L| && L[j].ch in lv
    ensures Along(lv[L[j].ch := y], L) == Along(lv, L)[j := y] && lv[L[j].ch := y].Keys == lv.Keys
  {
  }

  /** A leaf of the logical tree takes in a new entry. */
  lemma {:induction false} LeafGains(v: Logical, h: nat, lp: Ptr, y: Leaf, e: IdxEntry)
    requires LogicalOk(v, h) && CoversAt(Lv(v, h, 0), lp, e.k) && lp in v.lv && v.lv[lp].Shape()
    requires NewLeaf(v.lv[lp], y, Entries(v.lv[lp]) + {e})
    ensures var v' := v.(lv := v.lv[lp := y]); LogicalOk(v', h) && Contents(v', h) == Contents(v, h) + {e}
  {
    var x := CtxAtLeaf(v, h, lp, e.k);
    AlongPut(v.lv, x.All(), |x.A|, y);
    assert x.All()[|x.A|] == x.e;
    hide Tree, Union, Fits, Linked, Ctx.All, Ascending, NoDup;
    InsertThere(x, Along(v.lv, x.All()), y, e);
  }

  /** A leaf of the logical tree gives up the entry of a key. */
  lemma {:induction false} LeafLoses(v: Logical, h: nat, lp: Ptr, y: Leaf, key: Key)
    requires LogicalOk(v, h) && CoversAt(Lv(v, h, 0), lp, key) && lp in v.lv && v.lv[lp].Shape() && HasKey(Entries(v.lv[lp]), key)
    requires NewLeaf(v.lv[lp], y, Without(Entries(v.lv[lp]), key))
    ensures var v' := v.(lv := v.lv[lp := y]); LogicalOk(v', h) && Contents(v', h) == Without(Contents(v, h), key)
  {
    var x := CtxAtLeaf(v, h, lp, key);
    AlongPut(v.lv, x.All(), |x.A|, y);
    KeyInLeaf(v, h, lp, key);
    assert x.All()[|x.A|] == x.e;
    var e :| e in Entries(v.lv[lp]) && e.k == key;
    EntriesUnique(v.lv[lp]);
    WithoutOne(Entries(v.lv[lp]), key, e);
    WithoutOne(Contents(v, h), key, e);
    hide Tree, Union, Fits, Linked, Ctx.All, Ascending, NoDup, Without;
    RemoveThere(x, Along(v.lv, x.All()), y, e);
  }

  lemma {:induction false} WithoutOne(C: set<IdxEntry>, key: Key, e: IdxEntry)
    requires UniqueKeys(C) && e in C && e.k == key
    ensures Without(C, key) == C - {e}
  {
  }

  // ---------------------------------------------------------------- the search step

  /** What a finished search knows about the leaf. */
  lemma {:induction false} ArrivedAt(s: Sys, key: Key, node: seq<Ptr>, pos: seq<nat>)
    requires TreeInv(s) && Found(s, key, node, pos, s.m.h)
    ensures node != [] && node[0] in s.m.leaf && OpenLeaf(s, node[0]) && LeafOk(s.m.leaf[node[0]]) && !s.m.leaf[node[0]].m.lock
    ensures CoversAt(Lv(s.v, s.m.h, 0), node[0], key)
    ensures var E, C := Entries(s.m.leaf[node[0]]), Contents(s.v, s.m.h); E <= C && UniqueKeys(C) && (HasKey(C, key) <==> HasKey(E, key))
  {
    hide LogicalOk, ThreadOk, CoversAt, Contents;
    KeyInLeaf(s.v, s.m.h, node[0], key);
    NotLocked(s, node[0]);
  }

  lemma {:induction false} NotLocked(s: Sys, p: Ptr)
    requires LogicalOk(s.v, s.m.h) && OpenLeaf(s, p)
    ensures !s.m.leaf[p].m.lock
  {
  }

  /** The search step when the operation can answer from what the search found. */
  lemma {:induction false} AnswerStep(s: Sys, t: Tid, res: Option<Ptr>)
    requires TreeInv(s) && t in s.th && s.th[t].pc.Called?
    requires var C, op := Contents(s.v, s.m.h), s.th[t].op; ResOk(C, op, res) && Applied(C, op) == C
    ensures var s' := Effect(s, t, Returning, res); TreeInv(s') && Effective(s, s', t)
  {
    hide TreeInv, Contents, ResOk, Applied;
    PcStep(s, Effect(s, t, Returning, res), t);
  }

  lemma {:induction false} NothingToDo(C: set<IdxEntry>, op: Op)
    ensures op.Put? && HasKey(C, op.key) ==> Applied(C, op) == C
    ensures op.Remove? && !HasKey(C, op.key) ==> Applied(C, op) == C
  {
  }

  lemma {:induction false} FoundSize(s: Sys, key: Key, node: seq<Ptr>, pos: seq<nat>)
    requires Found(s, key, node, pos, s.m.h)
    ensures |node| == |pos| == s.m.h + 1
  {
  }

  lemma {:induction false} KidCount(n: Inner)
    requires NodeOk(n)
    ensures |Children(n)| == n.num + 1
  {
  }

  lemma {:induction false} LockTopOk(s: Sys, key: Key, node: seq<Ptr>, pos: seq<nat>, i: nat)
    requires MemOk(s) && Found(s, key, node, pos, s.m.h) && 1 <= i <= s.m.h
    ensures var k := LockTop(s.m, node, i);
      && i <= k <= s.m.h && (forall j :: i <= j < k ==> KidsAre(s.v, Path(node, pos, k), j, true))
      && (k < s.m.h ==> KidsAre(s.v, Path(node, pos, k), k, false))
    decreases s.m.h - i
  {
    hide MemOk, Found, Children;
    FoundSize(s, key, node, pos);
    OpenedInner(s, key, node, pos, i);
    KidCount(s.m.inner[node[i]]);
    if i < s.m.h && s.m.inner[node[i]].num == NON_LEAF_KEY_NUM {
      LockTopOk(s, key, node, pos, i + 1);
      var k := LockTop(s.m, node, i);
      forall j | i <= j < k ensures KidsAre(s.v, Path(node, pos, k), j, true) { }
    }
  }

  /** The path an insert locks. */
  lemma {:induction false} LockedPath(s: Sys, key: Key, node: seq<Ptr>, pos: seq<nat>, top: nat)
    requires Found(s, key, node, pos, s.m.h) && node[s.m.h] == s.m.root && top <= s.m.h
    ensures PathOk(s.v, s.m.h, Path(node, pos, top), 0) && TopOk(s.m, Path(node, pos, top))
  {
    var w, w0 := Path(node, pos, top), Path(node, pos, s.m.h);
    forall i | 0 <= i <= top ensures PlaceOk(s.v, s.m.h, w, i) && (0 < i ==> LinkOk(s.v, w, i)) {
      assert PlaceOk(s.v, s.m.h, w0, i);
      if 0 < i { assert LinkOk(s.v, w0, i); }
    }
  }

  /** The search step of an insert of a new key: the leaf is locked, and if it is full the path too. */
  lemma {:induction false} LockStep(s: Sys, t: Tid, key: Key, node: seq<Ptr>, pos: seq<nat>)
    requires TreeInv(s) && t in s.th && s.th[t].pc.Called? && s.th[t].op.Put? && s.th[t].op.key == key
    requires Found(s, key, node, pos, s.m.h) && node[s.m.h] == s.m.root
    requires node != [] && node[0] in s.m.leaf && s.m.leaf[node[0]].Shape() && !HasKey(Entries(s.m.leaf[node[0]]), key)
    ensures TreeInv(Locked(s, t, node, pos)) && Silent(s, Locked(s, t, node, pos))
  {
    hide TreeInv, LogicalOk, MemOk, Found, PathOk, TopOk, RoomOk, IsFull, Holds, PlaceKept, RangeKept, Outside, SpotOk, PathSet, Contents, LockTop, LockInner, Plain, HasKey, Entries;
    var s' := Locked(s, t, node, pos);
    var w, full := s'.th[t].pc.w, s'.th[t].pc.full;
    LockTopFor(s, t, key, node, pos);
    LockSpots(s, t, key, node, pos);
    ShapeKept(s, s');
    LockPcOk(s, t, key, node, pos);
    LockHolds(s, t, key, node, pos);
    InvParts(s);
    assert Outside(s, s', s.m.root) || s.m.root in PathSet(node, 0, w.top);
    RootStays(s, s', t);
    Assemble(s, s', t, PathSet(node, 0, w.top));
  }

  /** The waiting sibling of the root, if there is one, is not affected. */
  lemma {:induction false} RootStays(s: Sys, s': Sys, t: Tid)
    requires RootOk(s) && Others(s, s', t) && s'.v.top == s.v.top && s'.m.root == s.m.root && !WaitsAtRoot(s.th[t].pc)
    requires s.m.root in s.own ==> Outside(s, s', s.m.root) || s.own[s.m.root] == t
    ensures RootOk(s')
  {
  }

  lemma {:induction false} InvParts(s: Sys)
    requires TreeInv(s)
    ensures LogicalOk(s.v, s.m.h) && RootOk(s) && MemOk(s)
  {
  }

  lemma {:induction false} LockTopFor(s: Sys, t: Tid, key: Key, node: seq<Ptr>, pos: seq<nat>)
    requires TreeInv(s) && t in s.th && Found(s, key, node, pos, s.m.h) && node != [] && node[0] in s.m.leaf
    ensures var pc := Locked(s, t, node, pos).th[t].pc;
      && pc.w.top <= s.m.h
      && (if pc.full && s.m.h > 0 then pc.w.top > 0 && RoomOk(s.v, s.m.h, pc.w, 1) else pc.w.top == 0)
  {
    hide LogicalOk, ThreadOk, MemOk, Found, KidsAre, IsFull, PathSet;
    var pc := Locked(s, t, node, pos).th[t].pc;
    if pc.full && s.m.h > 0 { LockTopOk(s, key, node, pos, 1); }
  }

  lemma {:induction false} LockPcOk(s: Sys, t: Tid, key: Key, node: seq<Ptr>, pos: seq<nat>)
    requires TreeInv(s) && t in s.th && s.th[t].pc.Called? && s.th[t].op.Put? && s.th[t].op.key == key
    requires Found(s, key, node, pos, s.m.h) && node[s.m.h] == s.m.root
    requires node != [] && node[0] in s.m.leaf && s.m.leaf[node[0]].Shape() && !HasKey(Entries(s.m.leaf[node[0]]), key)
    ensures var s' := Locked(s, t, node, pos); PcOk(s'.m, s'.v, s'.th[t])
  {
    hide TreeInv, PathOk, TopOk, RoomOk, Found, IsFull, CoversAt, PathSet, MemOk, LogicalOk;
    LockTopFor(s, t, key, node, pos);
    var s' := Locked(s, t, node, pos);
    var pc := s'.th[t].pc;
    LockedPath(s, key, node, pos, pc.w.top);
    ArrivedAt(s, key, node, pos);
    PlainFull(s.m.leaf[node[0]]);
    SameTop(s, s', pc.w);
  }

  lemma {:induction false} SameTop(s: Sys, s': Sys, w: Path)
    requires TopOk(s.m, w) && s'.m.root == s.m.root && s'.m.h == s.m.h
    ensures TopOk(s'.m, w)
  {
  }

  lemma {:induction false} PlainFull(x: Leaf)
    ensures (IsFull(Plain(x)) <==> IsFull(x)) && EntriesOf(Plain(x)) == EntriesOf(x) && (!x.m.lock ==> Plain(x) == x)
    ensures x.Shape() ==> EntriesOf(x) == Entries(x)
  {
  }

  lemma {:induction false} LockHolds(s: Sys, t: Tid, key: Key, node: seq<Ptr>, pos: seq<nat>)
    requires TreeInv(s) && t in s.th && s.th[t].pc.Called? && Found(s, key, node, pos, s.m.h) && node != [] && node[0] in s.m.leaf
    ensures var s' := Locked(s, t, node, pos); Holds(s'.own, t, s'.th[t].pc)
  {
    hide PathSet, IsFull, Found, LogicalOk, MemOk, PcOk;
    assert ThreadOk(s, t);
    var s' := Locked(s, t, node, pos);
    TakeHolds(s.own, PathSet(node, 0, s'.th[t].pc.w.top), t);
  }

  lemma {:induction false} TakeHolds(own: map<Ptr, Tid>, S: set<Ptr>, t: Tid)
    requires Holds(own, t, Called)
    ensures forall p :: Owns(Take(own, S, t), t, p) <==> p in S
  {
    forall p ensures Owns(Take(own, S, t), t, p) <==> p in S {
      assert !Owns(own, t, p);
    }
  }

  /** Memory after the lock bits are set. */
  lemma {:induction false} LockSpots(s: Sys, t: Tid, key: Key, node: seq<Ptr>, pos: seq<nat>)
    requires TreeInv(s) && t in s.th && s.th[t].pc.Called? && Found(s, key, node, pos, s.m.h) && node != [] && node[0] in s.m.leaf
    ensures var s' := Locked(s, t, node, pos);
      var S := PathSet(node, 0, s'.th[t].pc.w.top);
      && (forall p :: p !in S ==> Outside(s, s', p))
      && (forall p :: p in S ==> p !in s.own && (p !in s'.own || s'.own[p] == t) && SpotOk(s', p))
  {
    hide LogicalOk, RoomOk, ThreadOk, IsFull, MemOk, SpotOk, Found, Outside;
    LockTopFor(s, t, key, node, pos);
    var s' := Locked(s, t, node, pos);
    var top := s'.th[t].pc.w.top;
    var S := PathSet(node, 0, top);
    PathSetFirst(node, top);
    forall p | p !in S ensures Outside(s, s', p) { LockedElse(s, t, node, pos, p); }
    forall p | p in S ensures p !in s.own && (p !in s'.own || s'.own[p] == t) && SpotOk(s', p) {
      var i :| 0 <= i <= top && i < |node| && node[i] == p;
      LockedSpot(s, t, key, node, pos, i);
    }
  }

  lemma {:induction false} LockedElse(s: Sys, t: Tid, node: seq<Ptr>, pos: seq<nat>, p: Ptr)
    requires t in s.th && node != [] && node[0] in s.m.leaf && p !in PathSet(node, 0, Locked(s, t, node, pos).th[t].pc.w.top)
    ensures Outside(s, Locked(s, t, node, pos), p)
  {
    hide IsFull, PathSet, LockTop;
    PathSetFirst(node, Locked(s, t, node, pos).th[t].pc.w.top);
  }

  lemma {:induction false} LockedSpot(s: Sys, t: Tid, key: Key, node: seq<Ptr>, pos: seq<nat>, i: nat)
    requires LogicalOk(s.v, s.m.h) && MemOk(s) && t in s.th && Found(s, key, node, pos, s.m.h) && node != [] && node[0] in s.m.leaf
    requires i <= Locked(s, t, node, pos).th[t].pc.w.top && i < |node|
    ensures var s', p := Locked(s, t, node, pos), node[i];
      p !in s.own && p in s'.own && s'.own[p] == t && SpotOk(s', p)
  {
    hide IsFull, PathSet, LockTop, LogicalOk, MemOk, Found, Children, Plain, CoversAt;
    var s', p := Locked(s, t, node, pos), node[i];
    var top := s'.th[t].pc.w.top;
    PathSetFirst(node, top);
    InPathSet(node, 0, top, i);
    Disjoint(s, p);
    MemKeys(s);
    if i == 0 {
      OpenedLeaf(s, key, node, pos);
    } else {
      InPathSet(node, 1, top, i);
      OpenedInner(s, key, node, pos, i);
      ChildrenLocked(s.m.inner[p]);
    }
  }

  lemma {:induction false} ChildrenLocked(n: Inner)
    requires NodeOk(n)
    ensures NodeOk(n.(lock := true)) && Children(n.(lock := true)) == Children(n)
  {
  }

  lemma {:induction false} InPathSet(node: seq<Ptr>, a: nat, b: nat, i: nat)
    requires a <= i <= b && i < |node|
    ensures node[i] in PathSet(node, a, b)
  {
  }

  lemma {:induction false} OpenedInner(s: Sys, key: Key, node: seq<Ptr>, pos: seq<nat>, i: nat)
    requires Found(s, key, node, pos, s.m.h) && 0 < i < |node|
    ensures OpenInner(s, node[i])
  {
    assert LinkOk(s.v, Path(node, pos, s.m.h), i);
  }

  lemma {:induction false} MemKeys(s: Sys)
    requires MemOk(s)
    ensures forall p :: (p in s.m.inner <==> p in s.v.g) && (p in s.m.leaf <==> p in s.v.lv)
  {
    assert forall p :: p in s.m.inner.Keys <==> p in s.v.g.Keys;
    assert forall p :: p in s.m.leaf.Keys <==> p in s.v.lv.Keys;
  }

  lemma {:induction false} OpenedLeaf(s: Sys, key: Key, node: seq<Ptr>, pos: seq<nat>)
    requires Found(s, key, node, pos, s.m.h)
    ensures OpenLeaf(s, node[0])
  {
  }

  lemma {:induction false} PathSetFirst(node: seq<Ptr>, top: nat)
    requires node != []
    ensures node[0] in PathSet(node, 0, top) && PathSet(node, 1, top) <= PathSet(node, 0, top)
    ensures forall p :: p in PathSet(node, 0, top) && p != node[0] ==> p in PathSet(node, 1, top)
  {
  }

  /** The search step of a delete that stays within the leaf. */
  lemma {:induction false} EraseLockStep(s: Sys, t: Tid, key: Key, lp: Ptr)
    requires TreeInv(s) && t in s.th && s.th[t].pc.Called? && s.th[t].op.Remove? && s.th[t].op.key == key
    requires CoversAt(Lv(s.v, s.m.h, 0), lp, key) && OpenLeaf(s, lp) && HasKey(EntriesOf(s.m.leaf[lp]), key)
    ensures var s' := SetPc(s.(m := s.m.(leaf := SetLeafLock(s.m.leaf, lp, true)), own := Take(s.own, {lp}, t)), t, Erasing(lp, Plain(s.m.leaf[lp])));
      TreeInv(s') && Silent(s, s')
  {
    hide TreeInv, LogicalOk, MemOk, Contents, CoversAt, HasKey, PlaceKept, RangeKept, Holds, Plain;
    var s' := SetPc(s.(m := s.m.(leaf := SetLeafLock(s.m.leaf, lp, true)), own := Take(s.own, {lp}, t)), t, Erasing(lp, Plain(s.m.leaf[lp])));
    InvParts(s);
    PlainFull(s.m.leaf[lp]);
    NotLocked(s, lp);
    ThreadThere(s, t);
    TakeHolds(s.own, {lp}, t);
    OneHolds(s'.own, t, s'.th[t].pc, {lp});
    ShapeKept(s, s');
    OneLeaf(s, s', t, lp);
    assert s.m.root != lp ==> Outside(s, s', s.m.root);
    RootStays(s, s', t);
    Assemble(s, s', t, {lp});
  }

  lemma {:induction false} ThreadThere(s: Sys, t: Tid)
    requires TreeInv(s) && t in s.th
    ensures PcOk(s.m, s.v, s.th[t]) && Holds(s.own, t, s.th[t].pc) && (s.th[t].pc.Called? ==> Holds(s.own, t, Called))
  {
    assert ThreadOk(s, t);
  }

  lemma {:induction false} OneHolds(own: map<Ptr, Tid>, t: Tid, pc: Pc, S: set<Ptr>)
    requires HeldBy(pc) == S && forall p :: Owns(own, t, p) <==> p in S
    ensures Holds(own, t, pc)
  {
  }

  /** A step that changes one leaf. */
  lemma {:induction false} OneLeaf(s: Sys, s': Sys, t: Tid, lp: Ptr)
    requires LogicalOk(s.v, s.m.h) && MemOk(s) && Others(s, s', t) && lp in s.m.leaf && s'.m.inner == s.m.inner && s'.v.g == s.v.g
    requires lp in s'.m.leaf && s'.m.leaf == s.m.leaf[lp := s'.m.leaf[lp]] && lp in s'.v.lv && s'.v.lv == s.v.lv[lp := s'.v.lv[lp]]
    requires forall p :: p != lp ==> (p in s'.own <==> p in s.own) && (p in s.own ==> s'.own[p] == s.own[p])
    requires s'.m.leaf[lp].m.lock <==> lp in s'.own
    requires if lp in s'.own then s'.own[lp] == t && BusyAt(s'.th[t].pc) == Some(lp) else Plain(s'.m.leaf[lp]) == s'.v.lv[lp]
    ensures (forall p :: p !in {lp} ==> Outside(s, s', p)) && SpotOk(s', lp)
  {
    hide LogicalOk, MemOk, Plain, BusyAt;
    Disjoint(s, lp);
    MemKeys(s);
  }

  /** The search step as a whole. */
  lemma {:induction false} SearchStep(s: Sys, t: Tid)
    requires TreeInv(s) && t in s.th && s.th[t].pc.Called?
    ensures var s' := Searched(s, t); TreeInv(s') && (Silent(s, s') || Effective(s, s', t))
  {
    hide TreeInv, Found, Contents, SearchFrom, Locked, Applied, ResOk;
    var key, op := s.th[t].op.key, s.th[t].op;
    SearchRight(s, key);
    match SearchFrom(s.m, key, s.m.root, s.m.h)
    case Ended(node, pos) =>
      ArrivedAt(s, key, node, pos);
      var lp := node[0];
      var x, C := s.m.leaf[lp], Contents(s.v, s.m.h);
      NothingToDo(C, op);
      match op {
        case Find(_) =>
          FindAnswer(C, Entries(x), key);
          AnswerStep(s, t, RecOf(Entries(x), key));
        case Put(_, _) =>
          if HasKey(Entries(x), key) {
            PlainAnswer(C, op);
            AnswerStep(s, t, None);
          } else {
            LockStep(s, t, key, node, pos);
          }
        case Remove(_) =>
          if !HasKey(Entries(x), key) {
            PlainAnswer(C, op);
            AnswerStep(s, t, None);
          } else if !(CountBits(x.m.bitmap) <= 1 && s.m.h > 0) {
            EraseLockStep(s, t, key, lp);
          }
      }
    case _ =>
  }

  lemma {:induction false} PlainAnswer(C: set<IdxEntry>, op: Op)
    requires !op.Find?
    ensures ResOk(C, op, None)
  {
  }

  lemma {:induction false} FindAnswer(C: set<IdxEntry>, E: set<IdxEntry>, key: Key)
    requires E <= C && (HasKey(C, key) <==> HasKey(E, key))
    ensures ResOk(C, Find(key), RecOf(E, key)) && Applied(C, Find(key)) == C
  {
  }
}
