/** The invariant of the concurrent tree: the logical tree is always whole, and memory differs from it only at locked nodes. */
module ConcurrentInv {
  import opened Types
  import opened LeafNode
  import opened LeafOps
  import opened Levels
  import opened TreeSteps
  import opened InnerNode
  import opened Pending
  import opened LeafLevel
  import opened TreeState
  import opened Concurrent

  function Lv(v: Logical, h: nat, i: nat): seq<IdxEntry>
    requires i <= h
  {
    Level(v.g, v.top, h, i)
  }

  function LeafIn(lv: map<Ptr, Leaf>, p: Ptr): Leaf {
    if p in lv then lv[p] else Leaf(Meta([], false, 0, []), [], [])
  }

  function Along(lv: map<Ptr, Leaf>, L: seq<IdxEntry>): seq<Leaf> {
    seq(|L|, i requires 0 <= i < |L| => LeafIn(lv, L[i].ch))
  }

  /** The logical tree is a whole tree, its leaves in order and in range, its chain complete. */
  predicate LogicalOk(v: Logical, h: nat) {
    && Tree(v.g, v.lv.Keys, v.top, h) && Fits(Lv(v, h, 0), Along(v.lv, Lv(v, h, 0))) && Linked(Lv(v, h, 0), Along(v.lv, Lv(v, h, 0)))
    && forall p :: p in v.lv ==> !v.lv[p].m.lock
  }

  /** The entries of the logical tree: the abstract map. */
  function Contents(v: Logical, h: nat): set<IdxEntry> { Union(Along(v.lv, Lv(v, h, 0))) }

  predicate Owns(own: map<Ptr, Tid>, t: Tid, p: Ptr) { p in own && own[p] == t }

  // ---------------------------------------------------------------- what a thread knows

  /** The leaf `p` of the level covers the key. */
  predicate CoversAt(L: seq<IdxEntry>, p: Ptr, key: Key) {
    exists i :: 0 <= i < |L| && RangeAt(L, i, p, key)
  }

  predicate RangeAt(L: seq<IdxEntry>, i: nat, p: Ptr, key: Key)
    requires i < |L|
  {
    L[i].ch == p && L[i].k <= key && (i + 1 < |L| ==> key < L[i + 1].k)
  }

  /** Node `i` of the path is still on level `i`, and its position still exists. */
  predicate PlaceOk(v: Logical, h: nat, w: Path, i: nat) {
    && i <= h && i < |w.node| && i < |w.pos| && Has(Lv(v, h, i), w.node[i])
    && (i > 0 ==> w.node[i] in v.g && w.pos[i] < |v.g[w.node[i]]|)
  }

  /** The recorded position still leads to the path's next node. */
  predicate LinkOk(v: Logical, w: Path, i: nat) {
    && 0 < i < |w.node| && i < |w.pos| && w.node[i] in v.g && w.pos[i] < |v.g[w.node[i]]|
    && v.g[w.node[i]][w.pos[i]].ch == w.node[i - 1]
  }

  predicate KidsAre(v: Logical, w: Path, i: nat, full: bool) {
    i < |w.node| && w.node[i] in v.g && if full then |v.g[w.node[i]]| == NON_LEAF_KEY_NUM + 1 else |v.g[w.node[i]]| <= NON_LEAF_KEY_NUM
  }

  predicate PathOk(v: Logical, h: nat, w: Path, a: nat) {
    && w.top <= h && w.top < |w.node| && w.top < |w.pos|
    && (forall i :: a <= i <= w.top ==> PlaceOk(v, h, w, i)) && (forall i :: a < i <= w.top ==> LinkOk(v, w, i))
  }

  /** Full below `top`, and not full at `top` unless that is the root. */
  predicate RoomOk(v: Logical, h: nat, w: Path, a: nat) {
    (forall i :: a <= i < w.top ==> KidsAre(v, w, i, true)) && (a <= w.top < h ==> KidsAre(v, w, w.top, false))
  }

  /** A path locked up to the root's level ends at the root. */
  predicate TopOk(m: Mem, w: Path) {
    w.top < |w.node| && (w.top == m.h ==> w.node[w.top] == m.root)
  }

  predicate TotalOk(m: Mem, w: Path, total: nat) { w.top < total <= m.h || w.top == total == m.h }

  /** The pair `n` belongs into node `lev` of the path, which held `was`. */
  predicate PendOk(v: Logical, h: nat, w: Path, n: IdxEntry, lev: nat, was: Inner) {
    && NodeOk(was) && 1 <= lev <= w.top && PathOk(v, h, w, lev) && RoomOk(v, h, w, lev + 1)
    && w.pos[lev] <= was.num && w.node[lev] in v.g && v.g[w.node[lev]] == InsertAt(Children(was), w.pos[lev], n)
    && (lev < w.top ==> was.num == NON_LEAF_KEY_NUM) && (lev == w.top < h ==> was.num < NON_LEAF_KEY_NUM)
  }

  predicate PendNow(m: Mem, v: Logical, w: Path, n: IdxEntry, lev: nat) {
    lev < |w.node| && w.node[lev] in m.inner && PendOk(v, m.h, w, n, lev, m.inner[w.node[lev]])
  }

  /** The pair `n` waits beside the root. */
  predicate RootPend(m: Mem, v: Logical, w: Path, n: IdxEntry) { w.top == m.h && v.top == TopWith(m.root, n) }

  predicate LeafHeld(v: Logical, h: nat, lp: Ptr, key: Key, orig: Leaf) {
    CoversAt(Lv(v, h, 0), lp, key) && lp in v.lv && v.lv[lp] == orig
  }

  /** What a thread may rely on, whatever the others do. */
  predicate PcOk(m: Mem, v: Logical, th: Thread) {
    match th.pc
    case Idle => true
    case Called => true
    case Storing(w, full, orig) =>
      && th.op.Put? && PathOk(v, m.h, w, 0) && TopOk(m, w) && LeafHeld(v, m.h, w.node[0], th.op.key, orig) && !HasKey(EntriesOf(orig), th.op.key)
      && (full <==> IsFull(orig)) && (if full && m.h > 0 then w.top > 0 && RoomOk(v, m.h, w, 1) else w.top == 0)
    case Erasing(lp, orig) => th.op.Remove? && LeafHeld(v, m.h, lp, th.op.key, orig) && HasKey(EntriesOf(orig), th.op.key)
    case LeafDone(w, n) => TopOk(m, w) && if w.top == 0 then RootPend(m, v, w, n) else PendNow(m, v, w, n, 1)
    case Rising(w, n, lev, total) =>
      && TopOk(m, w) && TotalOk(m, w, total) && lev >= 1
      && if lev <= total then PendNow(m, v, w, n, lev) else lev == total + 1 && RootPend(m, v, w, n)
    case Filling(w, n, lev, was) => TopOk(m, w) && PendOk(v, m.h, w, n, lev, was) && was.num < NON_LEAF_KEY_NUM
    case Splitting(w, n, lev, total, was) =>
      TopOk(m, w) && TotalOk(m, w, total) && PendOk(v, m.h, w, n, lev, was) && was.num == NON_LEAF_KEY_NUM
    case Grown(old_, wasLeaf, r) => m.root == r && r in m.inner && old_ != r && (if wasLeaf then old_ in m.leaf else old_ in m.inner)
    case Unlocking(r) => m.root == r && r in m.inner
    case Returning => true
    case Crashed => false
  }

  function Lowest(w: Path, lev: nat): nat { if lev <= w.top then lev else w.top }

  /** The nodes whose lock bits the thread has set. */
  function HeldBy(pc: Pc): set<Ptr> {
    match pc
    case Storing(w, _, _) => PathSet(w.node, 0, w.top)
    case Erasing(lp, _) => {lp}
    case LeafDone(w, _) => PathSet(w.node, Lowest(w, 1), w.top)
    case Rising(w, _, lev, _) => PathSet(w.node, Lowest(w, lev), w.top)
    case Filling(w, _, lev, _) => PathSet(w.node, lev, w.top)
    case Splitting(w, _, lev, _, _) => PathSet(w.node, lev, w.top)
    case Grown(o, _, r) => {o, r}
    case Unlocking(r) => {r}
    case _ => {}
  }

  function NodeAt(w: Path, i: nat): Option<Ptr> { if i < |w.node| then Some(w.node[i]) else None }

  /** The node, if any, at which memory need not agree with the logical tree. */
  function BusyAt(pc: Pc): Option<Ptr> {
    match pc
    case Storing(w, _, _) => NodeAt(w, 0)
    case Erasing(lp, _) => Some(lp)
    case LeafDone(w, _) => if w.top == 0 then None else NodeAt(w, 1)
    case Rising(w, _, lev, total) => if lev <= total then NodeAt(w, lev) else None
    case Filling(w, _, lev, _) => NodeAt(w, lev)
    case Splitting(w, _, lev, _, _) => NodeAt(w, lev)
    case _ => None
  }

  ghost predicate Holds(own: map<Ptr, Tid>, t: Tid, pc: Pc) {
    forall p :: Owns(own, t, p) <==> p in HeldBy(pc)
  }

  ghost predicate ThreadOk(s: Sys, t: Tid)
    requires t in s.th
  {
    PcOk(s.m, s.v, s.th[t]) && Holds(s.own, t, s.th[t].pc)
  }

  // ---------------------------------------------------------------- memory

  predicate Busy(th: map<Tid, Thread>, own: map<Ptr, Tid>, p: Ptr) {
    p in own && own[p] in th && BusyAt(th[own[p]].pc) == Some(p)
  }

  predicate InnerAt(s: Sys, p: Ptr)
    requires p in s.m.inner
  {
    var x := s.m.inner[p];
    (x.lock <==> p in s.own) && (Busy(s.th, s.own, p) || (NodeOk(x) && p in s.v.g && Children(x) == s.v.g[p]))
  }

  predicate LeafAt(s: Sys, p: Ptr)
    requires p in s.m.leaf
  {
    var x := s.m.leaf[p];
    && (x.m.lock <==> p in s.own) && (Busy(s.th, s.own, p) || (p in s.v.lv && Plain(x) == s.v.lv[p]))
  }

  predicate MemOk(s: Sys) {
    && s.m.inner.Keys == s.v.g.Keys && s.m.leaf.Keys == s.v.lv.Keys
    && (forall p :: p in s.m.inner ==> InnerAt(s, p)) && (forall p :: p in s.m.leaf ==> LeafAt(s, p))
    && forall p :: p in s.own ==> s.own[p] in s.th
  }

  /** The thread has a sibling of the root waiting for a new root. */
  predicate WaitsAtRoot(pc: Pc) { (pc.LeafDone? && pc.w.top == 0) || (pc.Rising? && pc.lev > pc.total) }

  /** The root's place in the logical tree: alone, or with a sibling waiting while it is locked. */
  predicate RootOk(s: Sys) {
    || s.v.top == Top(s.m.root)
    || (s.m.root in s.own && s.own[s.m.root] in s.th && WaitsAtRoot(s.th[s.own[s.m.root]].pc) && |s.v.top| == 2 && s.v.top[0] == IdxEntry(0, s.m.root))
  }

  ghost predicate TreeInv(s: Sys) {
    LogicalOk(s.v, s.m.h) && RootOk(s) && MemOk(s) && forall t :: t in s.th ==> ThreadOk(s, t)
  }

  // ---------------------------------------------------------------- searching

  /** What a search that ended has found. */
  predicate Found(s: Sys, key: Key, node: seq<Ptr>, pos: seq<nat>, i: nat) {
    && |node| == |pos| == i + 1 <= s.m.h + 1
    && (forall j :: 0 <= j <= i ==> PlaceOk(s.v, s.m.h, Path(node, pos, i), j))
    && (forall j :: 0 < j <= i ==> LinkOk(s.v, Path(node, pos, i), j) && OpenInner(s, node[j]))
    && OpenLeaf(s, node[0]) && CoversAt(Lv(s.v, s.m.h, 0), node[0], key)
  }

  predicate OpenInner(s: Sys, p: Ptr) {
    p in s.m.inner && p in s.v.g && p !in s.own && NodeOk(s.m.inner[p]) && Children(s.m.inner[p]) == s.v.g[p]
  }

  predicate OpenLeaf(s: Sys, p: Ptr) {
    p in s.m.leaf && p in s.v.lv && p !in s.own && s.m.leaf[p] == s.v.lv[p]
  }

  lemma {:induction false} Opened(s: Sys, p: Ptr)
    requires MemOk(s)
    ensures p in s.m.inner && !s.m.inner[p].lock ==> OpenInner(s, p)
    ensures p in s.m.leaf && !s.m.leaf[p].m.lock ==> OpenLeaf(s, p)
  {
    if p in s.m.inner { assert InnerAt(s, p); }
    if p in s.m.leaf { assert LeafAt(s, p); }
  }

  /** A search that meets no locked node follows the logical tree; it never leaves the tree, whatever the others are doing. */
  lemma {:induction false} WalkRight(s: Sys, key: Key, x: Ctx, i: nat)
    requires LogicalOk(s.v, s.m.h) && MemOk(s) && i <= s.m.h && x.All() == Lv(s.v, s.m.h, i) && Covers(x, key)
    ensures var r := SearchFrom(s.m, key, x.e.ch, i);
      !r.Lost? && (r.Ended? ==> Found(s, key, r.node, r.pos, i) && r.node[i] == x.e.ch)
    decreases i
  {
    hide LogicalOk, MemOk, Fits, Linked, Covers, NodeOk, Tree, PlaceOk, LinkOk, OpenInner, OpenLeaf, CoversAt, Position, Lv, Ctx.All, Kids, Down;
    var p, r := x.e.ch, SearchFrom(s.m, key, x.e.ch, i);
    Opened(s, p);
    InTree(s, x, i);
    if i == 0 {
      if r.Ended? { LeafFound(s, key, x); }
    } else if !s.m.inner[p].lock {
      OpenKids(s, x, i);
      var c := PosIn(Children(s.m.inner[p]), key);
      WalkDown(s, key, x, i, c);
      WalkRight(s, key, Down(s.v.g, x, c), i - 1);
      var r' := SearchFrom(s.m, key, Children(s.m.inner[p])[c].ch, i - 1);
      if r'.Ended? { FoundMore(s, key, r'.node, r'.pos, i, x, c); }
    }
  }

  lemma {:induction false} InTree(s: Sys, x: Ctx, i: nat)
    requires LogicalOk(s.v, s.m.h) && MemOk(s) && i <= s.m.h && x.All() == Lv(s.v, s.m.h, i)
    ensures if i == 0 then x.e.ch in s.m.leaf else x.e.ch in s.m.inner
  {
    TreeLevel(s.v.g, s.v.lv.Keys, s.v.top, s.m.h, i);
    assert x.All()[|x.A|] == x.e;
  }

  lemma {:induction false} OpenKids(s: Sys, x: Ctx, i: nat)
    requires LogicalOk(s.v, s.m.h) && 0 < i <= s.m.h && x.All() == Lv(s.v, s.m.h, i) && OpenInner(s, x.e.ch)
    ensures var n := s.m.inner[x.e.ch]; NodeOk(n) && Children(n) == s.v.g[x.e.ch] && KeysAscend(Children(n)) && Children(n) != []
  {
    TreeLevel(s.v.g, s.v.lv.Keys, s.v.top, s.m.h, i);
    NodeAscending(s.v.g, s.v.lv.Keys, x, i);
  }

  lemma {:induction false} WalkDown(s: Sys, key: Key, x: Ctx, i: nat, c: nat)
    requires LogicalOk(s.v, s.m.h) && 0 < i <= s.m.h && x.All() == Lv(s.v, s.m.h, i) && Covers(x, key)
    requires x.e.ch in s.v.g && Position(s.v.g[x.e.ch], key, c)
    ensures c < |Kids(s.v.g, x.e)|
    ensures var x' := Down(s.v.g, x, c); x'.All() == Lv(s.v, s.m.h, i - 1) && Covers(x', key) && x'.e.ch == s.v.g[x.e.ch][c].ch
  {
    TreeLevel(s.v.g, s.v.lv.Keys, s.v.top, s.m.h, i);
    KidsAt(s.v.g, x.e);
    LevelDown(s.v.g, s.v.top, s.m.h, i - 1);
    Descend(s.v.g, x, key, c);
  }

  lemma {:induction false} CtxCovers(x: Ctx, key: Key)
    requires Covers(x, key)
    ensures CoversAt(x.All(), x.e.ch, key) && Has(x.All(), x.e.ch)
  {
    assert x.All()[|x.A|] == x.e && (x.B != [] ==> x.All()[|x.A| + 1] == x.B[0]);
    assert RangeAt(x.All(), |x.A|, x.e.ch, key);
  }

  lemma {:induction false} CoversCtx(L: seq<IdxEntry>, p: Ptr, key: Key) returns (x: Ctx)
    requires CoversAt(L, p, key)
    ensures x.All() == L && x.e.ch == p && Covers(x, key)
  {
    var i :| 0 <= i < |L| && RangeAt(L, i, p, key);
    x := Ctx(L[..i], L[i], L[i + 1..]);
  }

  lemma {:induction false} LeafFound(s: Sys, key: Key, x: Ctx)
    requires x.All() == Lv(s.v, s.m.h, 0) && Covers(x, key) && OpenLeaf(s, x.e.ch)
    ensures Found(s, key, [x.e.ch], [0], 0)
  {
    CtxCovers(x, key);
  }

  lemma {:induction false} FoundMore(s: Sys, key: Key, node: seq<Ptr>, pos: seq<nat>, i: nat, x: Ctx, c: nat)
    requires 0 < i <= s.m.h && Found(s, key, node, pos, i - 1) && OpenInner(s, x.e.ch) && x.All() == Lv(s.v, s.m.h, i)
    requires c < |s.v.g[x.e.ch]| && s.v.g[x.e.ch][c].ch == node[i - 1]
    ensures Found(s, key, node + [x.e.ch], pos + [c], i)
  {
    hide Lv, Has, OpenLeaf, CoversAt, Ctx.All, NodeOk, Children;
    HasItself(x);
    var node', pos' := node + [x.e.ch], pos + [c];
    forall j | 0 <= j <= i ensures PlaceOk(s.v, s.m.h, Path(node', pos', i), j) {
      if j < i { assert PlaceOk(s.v, s.m.h, Path(node, pos, i - 1), j); }
    }
    forall j | 0 < j <= i ensures LinkOk(s.v, Path(node', pos', i), j) && OpenInner(s, node'[j]) {
      if j < i { assert LinkOk(s.v, Path(node, pos, i - 1), j) && OpenInner(s, node[j]); }
    }
  }

  /** A search from the root. */
  lemma {:induction false} SearchRight(s: Sys, key: Key)
    requires TreeInv(s)
    ensures var r := SearchFrom(s.m, key, s.m.root, s.m.h);
      && !r.Lost?
      && (r.Ended? ==> Found(s, key, r.node, r.pos, s.m.h) && r.node[s.m.h] == s.m.root && s.m.root !in s.own && s.v.top == Top(s.m.root))
  {
    var r := SearchFrom(s.m, key, s.m.root, s.m.h);
    hide LogicalOk, MemOk, ThreadOk, Found;
    if s.v.top == Top(s.m.root) {
      var x := Ctx([], IdxEntry(0, s.m.root), []);
      assert x.All() == Top(s.m.root);
      WalkRight(s, key, x, s.m.h);
      if r.Ended? { RootOpen(s, key, r.node, r.pos); }
    } else {
      RootLocked(s, key);
    }
  }

  lemma {:induction false} RootOpen(s: Sys, key: Key, node: seq<Ptr>, pos: seq<nat>)
    requires Found(s, key, node, pos, s.m.h)
    ensures node[s.m.h] !in s.own
  {
    if s.m.h > 0 { assert OpenInner(s, node[s.m.h]); }
  }

  lemma {:induction false} RootLocked(s: Sys, key: Key)
    requires MemOk(s) && LogicalOk(s.v, s.m.h) && s.m.root in s.own && |s.v.top| == 2 && s.v.top[0] == IdxEntry(0, s.m.root)
    ensures SearchFrom(s.m, key, s.m.root, s.m.h) == Blocked
  {
    var x := Ctx([], s.v.top[0], [s.v.top[1]]);
    assert x.All() == s.v.top;
    InTree(s, x, s.m.h);
    Opened(s, s.m.root);
  }
}
