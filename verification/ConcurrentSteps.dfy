/** Every step of every thread keeps the invariant of the concurrent tree. */
module ConcurrentSteps {
  import opened Types
  import opened LeafNode
  import opened LeafOps
  import opened Levels
  import opened InnerNode
  import opened TreeState
  import opened Concurrent
  import opened ConcurrentInv

  // ---------------------------------------------------------------- what other threads keep

  predicate NodeKept(s: Sys, s': Sys, u: Tid, p: Ptr) {
    && Owns(s'.own, u, p) && (p in s.v.g ==> p in s'.v.g && s'.v.g[p] == s.v.g[p]) && (p in s.v.lv ==> p in s'.v.lv && s'.v.lv[p] == s.v.lv[p])
    && (p in s.m.inner ==> p in s'.m.inner && s'.m.inner[p] == s.m.inner[p]) && (p in s.m.leaf ==> p in s'.m.leaf)
  }

  predicate PlaceKept(s: Sys, s': Sys, p: Ptr, i: nat) {
    i <= s.m.h <= s'.m.h && (Has(Lv(s.v, s.m.h, i), p) ==> Has(Lv(s'.v, s'.m.h, i), p))
  }

  predicate RangeKept(s: Sys, s': Sys, p: Ptr, key: Key) {
    CoversAt(Lv(s.v, s.m.h, 0), p, key) ==> CoversAt(Lv(s'.v, s'.m.h, 0), p, key)
  }

  /** A step of another thread changes nothing that thread `u` has locked. */
  ghost predicate Kept(s: Sys, s': Sys, u: Tid) {
    && (forall p :: Owns(s.own, u, p) ==> NodeKept(s, s', u, p)) && (forall p :: Owns(s'.own, u, p) ==> Owns(s.own, u, p))
    && s.m.h <= s'.m.h && (forall p, i :: 0 <= i <= s.m.h && Owns(s.own, u, p) ==> PlaceKept(s, s', p, i))
    && (forall p, key :: Owns(s.own, u, p) ==> RangeKept(s, s', p, key))
    && (Owns(s.own, u, s.m.root) ==> s'.m.root == s.m.root && s'.m.h == s.m.h && s'.v.top == s.v.top)
  }

  predicate OwnsPath(own: map<Ptr, Tid>, u: Tid, w: Path, a: nat) {
    w.top < |w.node| && forall i :: a <= i <= w.top ==> Owns(own, u, w.node[i])
  }

  lemma {:induction false} PathHeld(s: Sys, u: Tid, w: Path, a: nat)
    requires u in s.th && Holds(s.own, u, s.th[u].pc) && w.top < |w.node| && HeldBy(s.th[u].pc) == PathSet(w.node, a, w.top)
    ensures OwnsPath(s.own, u, w, a)
  {
    forall i | a <= i <= w.top ensures Owns(s.own, u, w.node[i]) {
      assert w.node[i] in PathSet(w.node, a, w.top);
    }
  }

  lemma {:induction false} PathKept(s: Sys, s': Sys, u: Tid, w: Path, a: nat)
    requires PathOk(s.v, s.m.h, w, a) && OwnsPath(s.own, u, w, a) && Kept(s, s', u)
    ensures PathOk(s'.v, s'.m.h, w, a)
  {
    forall i | a <= i <= w.top ensures PlaceOk(s'.v, s'.m.h, w, i) && (a < i ==> LinkOk(s'.v, w, i)) {
      var p := w.node[i];
      assert PlaceOk(s.v, s.m.h, w, i) && Owns(s.own, u, p) && NodeKept(s, s', u, p) && PlaceKept(s, s', p, i);
      if a < i { assert LinkOk(s.v, w, i); }
    }
  }

  lemma {:induction false} TopKept(s: Sys, s': Sys, u: Tid, w: Path, a: nat)
    requires a <= w.top <= s.m.h && TopOk(s.m, w) && OwnsPath(s.own, u, w, a) && Kept(s, s', u)
    ensures TopOk(s'.m, w) && (w.top == s.m.h ==> s'.m.h == s.m.h && s'.m.root == s.m.root && s'.v.top == s.v.top)
  {
    assert Owns(s.own, u, w.node[w.top]);
  }

  lemma {:induction false} RoomKept(s: Sys, s': Sys, u: Tid, w: Path, a: nat, b: nat)
    requires a <= b && a <= w.top <= s.m.h && RoomOk(s.v, s.m.h, w, b) && TopOk(s.m, w) && OwnsPath(s.own, u, w, a) && Kept(s, s', u)
    ensures RoomOk(s'.v, s'.m.h, w, b)
  {
    TopKept(s, s', u, w, a);
    forall i | b <= i < w.top ensures KidsAre(s'.v, w, i, true) {
      var p := w.node[i];
      assert KidsAre(s.v, w, i, true) && Owns(s.own, u, p) && NodeKept(s, s', u, p);
    }
    if b <= w.top < s'.m.h {
      var p := w.node[w.top];
      assert KidsAre(s.v, w, w.top, false) && Owns(s.own, u, p) && NodeKept(s, s', u, p);
    }
  }

  lemma {:induction false} PendKept(s: Sys, s': Sys, u: Tid, w: Path, n: IdxEntry, lev: nat, was: Inner)
    requires PendOk(s.v, s.m.h, w, n, lev, was) && TopOk(s.m, w) && OwnsPath(s.own, u, w, lev) && Kept(s, s', u)
    ensures PendOk(s'.v, s'.m.h, w, n, lev, was)
  {
    hide PathOk, RoomOk, PlaceOk, LinkOk, Kept, TopOk;
    PathTop(s, w, lev);
    PathKept(s, s', u, w, lev);
    RoomKept(s, s', u, w, lev, lev + 1);
    TopKept(s, s', u, w, lev);
    OwnKept(s, s', u, w.node[lev]);
  }

  lemma {:induction false} PathTop(s: Sys, w: Path, a: nat)
    requires PathOk(s.v, s.m.h, w, a)
    ensures w.top <= s.m.h && w.top < |w.node| && w.top < |w.pos|
  {
  }

  lemma {:induction false} OwnKept(s: Sys, s': Sys, u: Tid, p: Ptr)
    requires Owns(s.own, u, p) && Kept(s, s', u)
    ensures NodeKept(s, s', u, p) && s.m.h <= s'.m.h
  {
  }

  lemma {:induction false} NowKept(s: Sys, s': Sys, u: Tid, w: Path, n: IdxEntry, lev: nat)
    requires PendNow(s.m, s.v, w, n, lev) && TopOk(s.m, w) && OwnsPath(s.own, u, w, lev) && Kept(s, s', u)
    ensures PendNow(s'.m, s'.v, w, n, lev)
  {
    hide PendOk, Kept, TopOk;
    PendTop(s, w, n, lev, s.m.inner[w.node[lev]]);
    PendKept(s, s', u, w, n, lev, s.m.inner[w.node[lev]]);
    OwnKept(s, s', u, w.node[lev]);
  }

  lemma {:induction false} PendTop(s: Sys, w: Path, n: IdxEntry, lev: nat, was: Inner)
    requires PendOk(s.v, s.m.h, w, n, lev, was)
    ensures 1 <= lev <= w.top <= s.m.h && w.top < |w.node| && w.top < |w.pos| && NodeOk(was)
  {
  }

  lemma {:induction false} HeldKept(s: Sys, s': Sys, u: Tid, lp: Ptr, key: Key, orig: Leaf)
    requires LeafHeld(s.v, s.m.h, lp, key, orig) && Owns(s.own, u, lp) && Kept(s, s', u)
    ensures LeafHeld(s'.v, s'.m.h, lp, key, orig)
  {
    assert NodeKept(s, s', u, lp) && RangeKept(s, s', lp, key);
  }

  lemma {:induction false} HoldsKept(s: Sys, s': Sys, u: Tid)
    requires u in s.th && Holds(s.own, u, s.th[u].pc) && Kept(s, s', u)
    ensures Holds(s'.own, u, s.th[u].pc)
  {
    forall p ensures Owns(s'.own, u, p) <==> Owns(s.own, u, p) {
      if Owns(s.own, u, p) { assert NodeKept(s, s', u, p); }
    }
  }

  /** No step of another thread invalidates a recorded path, a position, or a fullness mark. */
  lemma {:induction false} ThreadKept(s: Sys, s': Sys, u: Tid)
    requires u in s.th && u in s'.th && s'.th[u] == s.th[u] && ThreadOk(s, u) && Kept(s, s', u)
    ensures ThreadOk(s', u)
  {
    hide PathOk, RoomOk, Kept, TopOk, PendOk, Holds, PathSet, LeafHeld, HasKey, IsFull, PendNow;
    HoldsKept(s, s', u);
    var pc := s.th[u].pc;
    match pc
    case Storing(w, full, orig) => StoringKept(s, s', u, w, full, orig);
    case Erasing(lp, orig) =>
      OwnsOne(s, u, lp);
      HeldKept(s, s', u, lp, s.th[u].op.key, orig);
    case LeafDone(w, n) => LeafDoneKept(s, s', u, w, n);
    case Rising(w, n, lev, total) => RisingKept(s, s', u, w, n, lev, total);
    case Filling(w, n, lev, was) => PendingKept(s, s', u, w, n, lev, was);
    case Splitting(w, n, lev, total, was) =>
      PendingKept(s, s', u, w, n, lev, was);
      TotalKept(s, s', u, w, lev, total);
    case Grown(o, _, r) =>
      OwnsOne(s, u, o);
      OwnsOne(s, u, r);
      OwnKept(s, s', u, o);
      OwnKept(s, s', u, r);
      RootKept(s, s', u);
    case Unlocking(r) =>
      OwnsOne(s, u, r);
      OwnKept(s, s', u, r);
      RootKept(s, s', u);
    case _ =>
  }

  lemma {:induction false} OwnsOne(s: Sys, u: Tid, p: Ptr)
    requires u in s.th && Holds(s.own, u, s.th[u].pc) && p in HeldBy(s.th[u].pc)
    ensures Owns(s.own, u, p)
  {
  }

  lemma {:induction false} RootKept(s: Sys, s': Sys, u: Tid)
    requires Owns(s.own, u, s.m.root) && Kept(s, s', u)
    ensures s'.m.root == s.m.root && s'.m.h == s.m.h && s'.v.top == s.v.top
  {
  }

  lemma {:induction false} TotalKept(s: Sys, s': Sys, u: Tid, w: Path, a: nat, total: nat)
    requires TotalOk(s.m, w, total) && a <= w.top <= s.m.h && TopOk(s.m, w) && OwnsPath(s.own, u, w, a) && Kept(s, s', u)
    ensures TotalOk(s'.m, w, total)
  {
    TopKept(s, s', u, w, a);
  }

  lemma {:induction false} PendingKept(s: Sys, s': Sys, u: Tid, w: Path, n: IdxEntry, lev: nat, was: Inner)
    requires u in s.th && (s.th[u].pc.Filling? || s.th[u].pc.Splitting?) && HeldBy(s.th[u].pc) == PathSet(w.node, lev, w.top)
    requires Holds(s.own, u, s.th[u].pc) && TopOk(s.m, w) && PendOk(s.v, s.m.h, w, n, lev, was) && Kept(s, s', u)
    ensures TopOk(s'.m, w) && PendOk(s'.v, s'.m.h, w, n, lev, was) && OwnsPath(s.own, u, w, lev) && lev <= w.top <= s.m.h
  {
    hide PendOk, Holds, Kept, TopOk, PathSet;
    PendTop(s, w, n, lev, was);
    PathHeld(s, u, w, lev);
    PendKept(s, s', u, w, n, lev, was);
    TopKept(s, s', u, w, lev);
  }

  lemma {:induction false} StoringKept(s: Sys, s': Sys, u: Tid, w: Path, full: bool, orig: Leaf)
    requires u in s.th && u in s'.th && s'.th[u] == s.th[u] && s.th[u].pc == Storing(w, full, orig)
    requires PcOk(s.m, s.v, s.th[u]) && Holds(s.own, u, s.th[u].pc) && Kept(s, s', u)
    ensures PcOk(s'.m, s'.v, s'.th[u])
  {
    hide PathOk, RoomOk, Kept, TopOk, Holds, PathSet, LeafHeld, HasKey, IsFull;
    PathTop(s, w, 0);
    PathHeld(s, u, w, 0);
    PathKept(s, s', u, w, 0);
    TopKept(s, s', u, w, 0);
    HeldKept(s, s', u, w.node[0], s.th[u].op.key, orig);
    if full && s.m.h > 0 { RoomKept(s, s', u, w, 0, 1); }
  }

  lemma {:induction false} LeafDoneKept(s: Sys, s': Sys, u: Tid, w: Path, n: IdxEntry)
    requires u in s.th && u in s'.th && s'.th[u] == s.th[u] && s.th[u].pc == LeafDone(w, n)
    requires PcOk(s.m, s.v, s.th[u]) && Holds(s.own, u, s.th[u].pc) && Kept(s, s', u)
    ensures PcOk(s'.m, s'.v, s'.th[u])
  {
    hide PathOk, RoomOk, Kept, Holds, PathSet, PendOk;
    PathHeld(s, u, w, Lowest(w, 1));
    if w.top == 0 {
      TopKept(s, s', u, w, 0);
    } else {
      PendTop(s, w, n, 1, s.m.inner[w.node[1]]);
      NowKept(s, s', u, w, n, 1);
      TopKept(s, s', u, w, 1);
    }
  }

  lemma {:induction false} RisingKept(s: Sys, s': Sys, u: Tid, w: Path, n: IdxEntry, lev: nat, total: nat)
    requires u in s.th && u in s'.th && s'.th[u] == s.th[u] && s.th[u].pc == Rising(w, n, lev, total)
    requires PcOk(s.m, s.v, s.th[u]) && Holds(s.own, u, s.th[u].pc) && Kept(s, s', u)
    ensures PcOk(s'.m, s'.v, s'.th[u])
  {
    hide PathOk, RoomOk, Kept, Holds, PathSet, PendOk;
    PathHeld(s, u, w, Lowest(w, lev));
    if lev <= total {
      PendTop(s, w, n, lev, s.m.inner[w.node[lev]]);
      NowKept(s, s', u, w, n, lev);
      TopKept(s, s', u, w, lev);
      TotalKept(s, s', u, w, lev, total);
    } else {
      TopKept(s, s', u, w, w.top);
      TotalKept(s, s', u, w, w.top, total);
    }
  }

  // ---------------------------------------------------------------- memory

  predicate Others(s: Sys, s': Sys, t: Tid) {
    t in s.th && s'.th.Keys == s.th.Keys && forall u :: u in s.th && u != t ==> s'.th[u] == s.th[u]
  }

  /** Nothing outside `changed` differs. */
  predicate Outside(s: Sys, s': Sys, p: Ptr) {
    && (p in s.m.inner <==> p in s'.m.inner) && (p in s.m.inner ==> s'.m.inner[p] == s.m.inner[p])
    && (p in s.m.leaf <==> p in s'.m.leaf) && (p in s.m.leaf ==> s'.m.leaf[p] == s.m.leaf[p])
    && (p in s.v.g <==> p in s'.v.g) && (p in s.v.g ==> s'.v.g[p] == s.v.g[p])
    && (p in s.v.lv <==> p in s'.v.lv) && (p in s.v.lv ==> s'.v.lv[p] == s.v.lv[p])
    && (p in s.own <==> p in s'.own) && (p in s.own ==> s'.own[p] == s.own[p])
  }

  predicate SpotOk(s: Sys, p: Ptr) {
    && (p in s.m.inner <==> p in s.v.g) && (p in s.m.leaf <==> p in s.v.lv) && (p in s.m.inner ==> InnerAt(s, p)) && (p in s.m.leaf ==> LeafAt(s, p))
    && (p in s.own ==> s.own[p] in s.th)
  }

  ghost predicate AllSpots(s: Sys) { forall p :: SpotOk(s, p) }

  lemma {:induction false} MemSpots(s: Sys)
    ensures MemOk(s) <==> AllSpots(s)
  {
    if AllSpots(s) {
      forall p ensures p in s.m.inner <==> p in s.v.g { assert SpotOk(s, p); }
      forall p ensures p in s.m.leaf <==> p in s.v.lv { assert SpotOk(s, p); }
      assert s.m.inner.Keys == s.v.g.Keys && s.m.leaf.Keys == s.v.lv.Keys;
      forall p | p in s.m.inner ensures InnerAt(s, p) { assert SpotOk(s, p); }
      forall p | p in s.m.leaf ensures LeafAt(s, p) { assert SpotOk(s, p); }
      forall p | p in s.own ensures s.own[p] in s.th { assert SpotOk(s, p); }
    }
    if MemOk(s) {
      forall p ensures SpotOk(s, p) {
        assert p in s.m.inner.Keys <==> p in s.v.g.Keys;
        assert p in s.m.leaf.Keys <==> p in s.v.lv.Keys;
      }
    }
  }

  lemma {:induction false} SpotKept(s: Sys, s': Sys, t: Tid, p: Ptr)
    requires SpotOk(s, p) && Others(s, s', t) && Outside(s, s', p)
    requires Owns(s.own, t, p) && BusyAt(s.th[t].pc) == Some(p) ==> BusyAt(s'.th[t].pc) == Some(p)
    ensures SpotOk(s', p)
  {
  }

  /** Memory agrees with the logical tree after a step that changes only `changed`. */
  lemma {:induction false} MemStep(s: Sys, s': Sys, t: Tid, changed: set<Ptr>)
    requires MemOk(s) && Others(s, s', t)
    requires forall p :: p !in changed ==> Outside(s, s', p)
    requires forall p :: p in changed ==> SpotOk(s', p)
    requires forall p :: p !in changed && Owns(s.own, t, p) && BusyAt(s.th[t].pc) == Some(p) ==> BusyAt(s'.th[t].pc) == Some(p)
    ensures MemOk(s')
  {
    hide MemOk, SpotOk, Outside, BusyAt, Others;
    MemSpots(s);
    MemSpots(s');
    forall p ensures SpotOk(s', p) {
      if p !in changed {
        assert SpotOk(s, p) && Outside(s, s', p);
        SpotKept(s, s', t, p);
      }
    }
  }

  // ---------------------------------------------------------------- steps that only move a program counter

  lemma {:induction false} SameKept(s: Sys, s': Sys, u: Tid)
    requires s'.m == s.m && s'.v == s.v && s'.own == s.own
    ensures Kept(s, s', u)
  {
  }

  lemma {:induction false} PcStep(s: Sys, s': Sys, t: Tid)
    requires TreeInv(s) && Others(s, s', t) && s'.m == s.m && s'.v == s.v && s'.own == s.own
    requires PcOk(s.m, s.v, s'.th[t]) && HeldBy(s'.th[t].pc) == HeldBy(s.th[t].pc)
    requires BusyAt(s.th[t].pc) == None || BusyAt(s'.th[t].pc) == BusyAt(s.th[t].pc)
    requires WaitsAtRoot(s.th[t].pc) ==> WaitsAtRoot(s'.th[t].pc)
    ensures TreeInv(s')
  {
    hide LogicalOk, MemOk, PcOk, Kept, Holds, HeldBy, BusyAt, WaitsAtRoot;
    assert forall p :: Outside(s, s', p);
    MemStep(s, s', t, {});
    forall u | u in s'.th ensures ThreadOk(s', u) {
      assert ThreadOk(s, u);
      if u == t {
        SameHeld(s, s', t);
      } else {
        SameKept(s, s', u);
        ThreadKept(s, s', u);
      }
    }
  }

  lemma {:induction false} SameHeld(s: Sys, s': Sys, t: Tid)
    requires t in s.th && t in s'.th && s'.own == s.own && Holds(s.own, t, s.th[t].pc) && HeldBy(s'.th[t].pc) == HeldBy(s.th[t].pc)
    ensures Holds(s'.own, t, s'.th[t].pc)
  {
  }
}
