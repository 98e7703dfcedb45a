/** Whole runs: every operation takes effect once between its call and its return, in an order that explains all results. */
module ConcurrentRuns {
  import opened Types
  import opened LeafNode
  import opened Levels
  import opened TreeSteps
  import opened InnerNode
  import opened Pending
  import opened Nvm
  import opened LeafLevel
  import opened TreeView
  import opened TreeState
  import opened LbTree
  import opened Concurrent
  import opened ConcurrentInv
  import opened ConcurrentSteps
  import opened ConcurrentLeaf
  import opened ConcurrentGrow

  // ---------------------------------------------------------------- histories

  /** The map after the effects, one after the other. */
  function Replay(C: set<IdxEntry>, hist: seq<Event>): set<IdxEntry> {
    if hist == [] then C else Applied(Replay(C, hist[..|hist| - 1]), hist[|hist| - 1].op)
  }

  /** Every result is right at its place in the order. */
  predicate Legal(C: set<IdxEntry>, hist: seq<Event>) {
    forall i :: 0 <= i < |hist| ==> ResOk(Replay(C, hist[..i]), hist[i].op, hist[i].res)
  }

  function CountOf(hist: seq<Event>, t: Tid): nat {
    if hist == [] then 0 else CountOf(hist[..|hist| - 1], t) + if hist[|hist| - 1].t == t then 1 else 0
  }

  /** The thread's last effect. */
  predicate LastIs(hist: seq<Event>, e: Event) {
    hist != [] && if hist[|hist| - 1].t == e.t then hist[|hist| - 1] == e else LastIs(hist[..|hist| - 1], e)
  }

  /** The thread's operation has taken effect but has not returned. */
  predicate Past(pc: Pc) {
    pc.LeafDone? || pc.Rising? || pc.Filling? || pc.Splitting? || pc.Grown? || pc.Unlocking? || pc.Returning?
  }

  predicate Counted(s: Sys, t: Tid)
    requires t in s.th
  {
    var th := s.th[t];
    && CountOf(s.hist, t) == th.done + (if Past(th.pc) then 1 else 0)
    && (Past(th.pc) ==> LastIs(s.hist, Event(t, th.op, th.res)))
  }

  predicate HistInv(s: Sys, C0: set<IdxEntry>) {
    Legal(C0, s.hist) && Contents(s.v, s.m.h) == Replay(C0, s.hist) && forall t :: t in s.th ==> Counted(s, t)
  }

  /** How the step moves its thread: an effect is recorded exactly when the program counter goes past it. */
  predicate Moved(s: Sys, s': Sys, t: Tid) {
    && t in s.th && t in s'.th
    && var a, b := s.th[t], s'.th[t];
      if s'.hist == s.hist then
        || (b.done == a.done && (Past(b.pc) <==> Past(a.pc)) && (Past(a.pc) ==> b.op == a.op && b.res == a.res))
        || (a.pc.Returning? && !Past(b.pc) && b.done == a.done + 1)
      else !Past(a.pc) && Past(b.pc) && b.done == a.done && b.op == a.op
  }

  lemma {:induction false} StepMoves(s: Sys, t: Tid, a: Action)
    requires Enabled(s, t, a) && (t in Fire(s, t, a).th ==> !Fire(s, t, a).th[t].pc.Crashed?)
    ensures Moved(s, Fire(s, t, a), t) && Others(s, Fire(s, t, a), t)
    ensures !a.Call? ==> Fire(s, t, a).th[t].op == s.th[t].op
    ensures !a.Return? ==> Fire(s, t, a).th[t].done == s.th[t].done
    ensures a.Call? ==> Fire(s, t, a).th[t].op == a.op && s.th[t].pc.Idle?
  {
    hide SearchFrom, NodeOk, LockInner, LockTop, PathSet, Take, SetLeafLock, RecOf, Less, Pend, UnlockNode, Plain, KidsOf, HasKey, IsFull, Entries, CountBits, NewLeaf,
      Searched, InsertAt, Fresh, LeafNow, InnerNow;
    if a.Search? { SearchMoves(s, t); }
  }

  lemma {:induction false} SearchMoves(s: Sys, t: Tid)
    requires t in s.th && s.th[t].pc.Called? && (t in Searched(s, t).th ==> !Searched(s, t).th[t].pc.Crashed?)
    ensures var s' := Searched(s, t); Moved(s, s', t) && Others(s, s', t) && s'.th[t].op == s.th[t].op && s'.th[t].done == s.th[t].done
  {
    hide SearchFrom, LockInner, LockTop, PathSet, Take, SetLeafLock, RecOf, Plain, HasKey, IsFull, Entries, CountBits;
  }

  lemma {:induction false} CountMore(hist: seq<Event>, e: Event, t: Tid)
    ensures CountOf(hist + [e], t) == CountOf(hist, t) + if e.t == t then 1 else 0
    ensures LastIs(hist + [e], e)
    ensures forall f: Event :: f.t != e.t && LastIs(hist, f) ==> LastIs(hist + [e], f)
  {
    assert (hist + [e])[..|hist|] == hist;
  }

  lemma {:induction false} LegalMore(C: set<IdxEntry>, hist: seq<Event>, e: Event)
    requires Legal(C, hist) && ResOk(Replay(C, hist), e.op, e.res)
    ensures Legal(C, hist + [e]) && Replay(C, hist + [e]) == Applied(Replay(C, hist), e.op)
  {
    var all := hist + [e];
    assert all[..|hist|] == hist;
    hide ResOk, Replay;
    forall i | 0 <= i < |all| ensures ResOk(Replay(C, all[..i]), all[i].op, all[i].res) {
      if i < |hist| { assert all[..i] == hist[..i]; }
    }
  }

  lemma {:induction false} HistStep(s: Sys, s': Sys, t: Tid, C0: set<IdxEntry>)
    requires HistInv(s, C0) && Others(s, s', t) && Moved(s, s', t) && (Silent(s, s') || Effective(s, s', t))
    ensures HistInv(s', C0)
  {
    hide Legal, Replay, ResOk, Contents, CountOf, LastIs, Applied;
    if Effective(s, s', t) {
      var e := Event(t, s.th[t].op, s'.th[t].res);
      LegalMore(C0, s.hist, e);
      forall u | u in s'.th ensures Counted(s', u) {
        assert Counted(s, u);
        CountMore(s.hist, e, u);
      }
    } else {
      forall u | u in s'.th ensures Counted(s', u) { assert Counted(s, u); }
    }
  }

  // ---------------------------------------------------------------- runs

  /** A run: which thread takes which step, and the states between. */
  ghost predicate RunOk(states: seq<Sys>, sched: seq<(Tid, Action)>) {
    |states| == |sched| + 1 && forall i :: 0 <= i < |sched| ==> StepAtRun(states, sched, i)
  }

  ghost predicate StepAtRun(states: seq<Sys>, sched: seq<(Tid, Action)>, i: nat)
    requires i < |sched| && |states| == |sched| + 1
  {
    Enabled(states[i], sched[i].0, sched[i].1) && states[i + 1] == Fire(states[i], sched[i].0, sched[i].1)
  }

  /** A whole tree, no operation under way, nothing recorded. */
  ghost predicate Start(s: Sys, C0: set<IdxEntry>) {
    TreeInv(s) && Contents(s.v, s.m.h) == C0 && s.hist == [] && forall t :: t in s.th ==> s.th[t].pc.Idle? && s.th[t].done == 0
  }

  /** In every state of every run the logical tree is whole, every result so far is explained by the order of effects, and no search has gone astray. */
  lemma {:induction false} RunSafe(states: seq<Sys>, sched: seq<(Tid, Action)>, C0: set<IdxEntry>, i: nat)
    requires RunOk(states, sched) && Start(states[0], C0) && i < |states|
    ensures TreeInv(states[i]) && HistInv(states[i], C0)
    ensures forall t :: t in states[i].th ==> !states[i].th[t].pc.Crashed?
    decreases i
  {
    hide TreeInv, HistInv, Silent, Effective, Moved, Others, Fire, Enabled;
    if i == 0 {
      StartHist(states[0], C0);
    } else {
      RunSafe(states, sched, C0, i - 1);
      assert StepAtRun(states, sched, i - 1);
      var s, t, a := states[i - 1], sched[i - 1].0, sched[i - 1].1;
      AnyStep(s, t, a);
      NoCrash(states[i]);
      StepMoves(s, t, a);
      HistStep(s, states[i], t, C0);
    }
    NoCrash(states[i]);
  }

  lemma {:induction false} StartHist(s: Sys, C0: set<IdxEntry>)
    requires Start(s, C0)
    ensures TreeInv(s) && HistInv(s, C0)
  {
    hide TreeInv, Contents;
  }

  lemma {:induction false} NoCrash(s: Sys)
    requires TreeInv(s)
    ensures forall t :: t in s.th ==> !s.th[t].pc.Crashed?
  {
    hide LogicalOk, MemOk;
    forall t | t in s.th ensures !s.th[t].pc.Crashed? { assert ThreadOk(s, t); }
  }

  /** Thread `t` neither calls nor returns in steps `i` to `j - 1`. */
  predicate Within(sched: seq<(Tid, Action)>, t: Tid, i: nat, j: nat) {
    j <= |sched| && forall k :: i <= k < j && sched[k].0 == t ==> !sched[k].1.Call? && !sched[k].1.Return?
  }

  lemma {:induction false} OpStays(states: seq<Sys>, sched: seq<(Tid, Action)>, C0: set<IdxEntry>, t: Tid, i: nat, j: nat)
    requires RunOk(states, sched) && Start(states[0], C0) && i <= j && Within(sched, t, i, j) && t in states[i].th
    ensures t in states[j].th && states[j].th[t].op == states[i].th[t].op && states[j].th[t].done == states[i].th[t].done
    decreases j
  {
    hide Fire, Enabled, Moved, TreeInv, HistInv, Start;
    if i < j {
      OpStays(states, sched, C0, t, i, j - 1);
      assert StepAtRun(states, sched, j - 1);
      RunSafe(states, sched, C0, j);
      StepMoves(states[j - 1], sched[j - 1].0, sched[j - 1].1);
    }
  }

  /** The number of effects of thread `t` recorded between two states. */
  function Effects(s: Sys, s': Sys, t: Tid): int { CountOf(s'.hist, t) - CountOf(s.hist, t) }

  /**
   * Linearizability: between the call in step `i` and the return in step `j` the thread has exactly one effect in the history, that of
   * the operation called with the result returned; by `RunSafe` the history explains every result.
   */
  lemma {:induction false} OneEffect(states: seq<Sys>, sched: seq<(Tid, Action)>, C0: set<IdxEntry>, t: Tid, op: Op, i: nat, j: nat)
    requires RunOk(states, sched) && Start(states[0], C0) && i < j < |sched|
    requires sched[i] == (t, Call(op)) && sched[j] == (t, Return) && Within(sched, t, i + 1, j)
    ensures t in states[j].th && Effects(states[i], states[j], t) == 1 && LastIs(states[j].hist, Event(t, op, states[j].th[t].res))
    ensures Legal(C0, states[j].hist)
  {
    hide TreeInv, Fire, Enabled, CountOf, LastIs, Legal, Replay;
    assert StepAtRun(states, sched, i) && StepAtRun(states, sched, j);
    CallHere(states[i], t, op);
    ReturnHere(states[j], t);
    OpStays(states, sched, C0, t, i + 1, j);
    RunSafe(states, sched, C0, i);
    RunSafe(states, sched, C0, j);
    assert Counted(states[i], t) && Counted(states[j], t);
  }

  lemma {:induction false} CallHere(s: Sys, t: Tid, op: Op)
    requires Enabled(s, t, Call(op))
    ensures t in s.th && !Past(s.th[t].pc) && var s' := Fire(s, t, Call(op)); t in s'.th && s'.th[t].op == op && s'.th[t].done == s.th[t].done
  {
  }

  lemma {:induction false} ReturnHere(s: Sys, t: Tid)
    requires Enabled(s, t, Return)
    ensures t in s.th && Past(s.th[t].pc)
  {
  }

  // ---------------------------------------------------------------- locks

  /** No node is locked by two threads, and who holds a node has its lock bit set. */
  lemma {:induction false} HeldApart(s: Sys, t: Tid, u: Tid)
    requires TreeInv(s) && t in s.th && u in s.th && t != u
    ensures HeldBy(s.th[t].pc) !! HeldBy(s.th[u].pc)
    ensures forall p :: p in HeldBy(s.th[t].pc) ==> (p in s.m.inner && s.m.inner[p].lock) || (p in s.m.leaf && s.m.leaf[p].m.lock)
  {
    hide LogicalOk, HeldBy, PcOk;
    assert ThreadOk(s, t) && ThreadOk(s, u);
    forall p | p in HeldBy(s.th[t].pc)
      ensures p !in HeldBy(s.th[u].pc) && ((p in s.m.inner && s.m.inner[p].lock) || (p in s.m.leaf && s.m.leaf[p].m.lock))
    {
      assert Owns(s.own, t, p) && (Owns(s.own, u, p) <==> p in HeldBy(s.th[u].pc));
      OwnedNode(s, p);
      if p in s.m.inner { assert InnerAt(s, p); }
      if p in s.m.leaf { assert LeafAt(s, p); }
    }
  }

  /** While a split's pair is on its way up, the topmost node it has locked stays locked. */
  lemma {:induction false} TopmostHeld(s: Sys, t: Tid)
    requires TreeInv(s) && t in s.th
    ensures var pc := s.th[t].pc;
      (pc.LeafDone? || pc.Rising? || pc.Filling? || pc.Splitting?) && pc.w.top > 0 ==>
        pc.w.top < |pc.w.node| && pc.w.node[pc.w.top] in s.m.inner && s.m.inner[pc.w.node[pc.w.top]].lock && pc.w.node[pc.w.top] in HeldBy(pc)
  {
    var pc := s.th[t].pc;
    if (pc.LeafDone? || pc.Rising? || pc.Filling? || pc.Splitting?) && pc.w.top > 0 {
      hide LogicalOk, MemOk, PathSet, RoomOk;
      InvParts(s);
      ThreadThere(s, t);
      MemKeys(s);
      var a := Lowest(pc.w, if pc.LeafDone? then 1 else pc.lev);
      var p := pc.w.node[pc.w.top];
      InPathSet(pc.w.node, a, pc.w.top, pc.w.top);
      OwnsOne(s, t, p);
      TopInner(s, t);
      LockBit(s, p);
    }
  }

  lemma {:induction false} LockBit(s: Sys, p: Ptr)
    requires MemOk(s) && p in s.own && p in s.m.inner
    ensures s.m.inner[p].lock
  {
    assert InnerAt(s, p);
  }

  lemma {:induction false} TopInner(s: Sys, t: Tid)
    requires TreeInv(s) && t in s.th
    requires var pc := s.th[t].pc; (pc.LeafDone? || pc.Rising? || pc.Filling? || pc.Splitting?) && pc.w.top > 0
    ensures var w := s.th[t].pc.w; w.top < |w.node| && w.node[w.top] in s.m.inner
  {
    hide LogicalOk, MemOk, RoomOk, LinkOk, Has;
    InvParts(s);
    ThreadThere(s, t);
    MemKeys(s);
    var pc := s.th[t].pc;
    if WaitsAtRoot(pc) {
      TopHas(s.v, s.m.h, s.m.root);
      PlaceIn(s.v, s.m.h, s.m.h, s.m.root);
    } else {
      assert PlaceOk(s.v, s.m.h, pc.w, pc.w.top);
    }
  }

  // ---------------------------------------------------------------- before and after

  /** A whole tree in memory with no lock bit set. */
  ghost predicate WholeMem(m: Mem) {
    && NodesOk(m.inner) && Tree(GraphOf(m.inner), m.leaf.Keys, Top(m.root), m.h)
    && (forall p :: p in m.inner ==> !m.inner[p].lock) && (forall p :: p in m.leaf ==> !m.leaf[p].m.lock)
    && var L := LeafList(m.inner, m.root, m.h); Fits(L, Along(m.leaf, L)) && Linked(L, Along(m.leaf, L))
  }

  /** The entries of the tree in memory. */
  function MemContents(m: Mem): set<IdxEntry> { Union(Along(m.leaf, LeafList(m.inner, m.root, m.h))) }

  /** A tree at rest is a start, whatever threads then run on it. */
  lemma {:induction false} StartOf(m: Mem, th: map<Tid, Thread>)
    requires WholeMem(m) && forall t :: t in th ==> th[t].pc.Idle? && th[t].done == 0
    ensures Start(Sys(m, th, Logical(GraphOf(m.inner), Top(m.root), m.leaf), map[], []), MemContents(m))
  {
    var s := Sys(m, th, Logical(GraphOf(m.inner), Top(m.root), m.leaf), map[], []);
    hide Tree, Fits, Linked;
    forall p | p in m.inner ensures InnerAt(s, p) { }
    forall p | p in m.leaf ensures LeafAt(s, p) { }
    forall t | t in th ensures ThreadOk(s, t) { }
  }

  lemma {:induction false} NoOwner(s: Sys, p: Ptr)
    requires TreeInv(s) && forall t :: t in s.th ==> s.th[t].pc.Idle?
    ensures p !in s.own
  {
    hide LogicalOk, PcOk;
    var t := if p in s.own then s.own[p] else 0;
    assert p in s.own ==> t in s.th;
    assert t in s.th ==> ThreadOk(s, t);
    assert t in s.th ==> (Owns(s.own, t, p) <==> p in HeldBy(s.th[t].pc));
  }

  /** When every operation has returned, memory is a whole tree again, no lock bit is set, and it holds the contents of the logical tree. */
  lemma {:induction false} WholeAtRest(s: Sys)
    requires TreeInv(s) && forall t :: t in s.th ==> s.th[t].pc.Idle?
    ensures WholeMem(s.m) && MemContents(s.m) == Contents(s.v, s.m.h)
  {
    hide Tree, Fits, Linked, Union;
    forall p ensures p !in s.own { NoOwner(s, p); }
    forall p | p in s.m.inner ensures !s.m.inner[p].lock && NodeOk(s.m.inner[p]) && p in s.v.g && GraphOf(s.m.inner)[p] == s.v.g[p] { assert InnerAt(s, p); }
    forall p | p in s.m.leaf ensures !s.m.leaf[p].m.lock && p in s.v.lv && s.m.leaf[p] == s.v.lv[p] {
      assert LeafAt(s, p);
      PlainFull(s.m.leaf[p]);
    }
    assert GraphOf(s.m.inner) == s.v.g;
    assert s.m.leaf == s.v.lv;
  }

  /** Its entries are those the history gives. */
  lemma {:induction false} AtRest(s: Sys, C0: set<IdxEntry>)
    requires TreeInv(s) && HistInv(s, C0) && forall t :: t in s.th ==> s.th[t].pc.Idle?
    ensures WholeMem(s.m) && MemContents(s.m) == Replay(C0, s.hist)
  {
    hide TreeInv, WholeMem, MemContents, Legal, Contents, Replay;
    WholeAtRest(s);
  }

  /** A tree between sequential operations can be taken over by any number of threads. */
  lemma {:induction false} FromSequential(h: nat, root: Ptr, inner: map<Ptr, Inner>, nvm: State, leaves: set<Ptr>)
    requires Struct(h, root, inner, nvm, leaves) && LocksAre(inner, {}) && Unlocked(View(nvm.cells, LeafList(inner, root, h)))
    ensures var m := Mem(root, h, inner, LeavesNow(nvm, LeafList(inner, root, h)));
      WholeMem(m) && MemContents(m) == Union(View(nvm.cells, LeafList(inner, root, h)))
  {
    var L := LeafList(inner, root, h);
    var leaf := LeavesNow(nvm, L);
    assert forall i :: 0 <= i < |L| ==> Along(leaf, L)[i] == View(nvm.cells, L)[i];
    assert Along(leaf, L) == View(nvm.cells, L);
    forall p | p in leaf ensures !leaf[p].m.lock && p in leaves { LeafNowOpen(nvm, L, h, p, inner, root, leaves); }
    hide Fits, Linked, Union, View;
    TreeRestrict(GraphOf(inner), leaves, leaf.Keys, Top(root), h);
  }

  /** The leaves of the list, as they are in memory. */
  function LeavesNow(nvm: State, L: seq<IdxEntry>): map<Ptr, Leaf> {
    map i | 0 <= i < |L| :: L[i].ch := NowAt(nvm.cells, L[i].ch)
  }

  lemma {:induction false} LeafNowOpen(nvm: State, L: seq<IdxEntry>, h: nat, p: Ptr, inner: map<Ptr, Inner>, root: Ptr, leaves: set<Ptr>)
    requires Struct(h, root, inner, nvm, leaves) && L == LeafList(inner, root, h) && p in LeavesNow(nvm, L) && Unlocked(View(nvm.cells, L))
    ensures !LeavesNow(nvm, L)[p].m.lock && p in leaves
  {
    var i :| 0 <= i < |L| && L[i].ch == p;
    TreeLevel(GraphOf(inner), leaves, Top(root), h, 0);
    assert View(nvm.cells, L)[i] == NowAt(nvm.cells, p);
  }

  /** Only the leaves of the list matter. */
  lemma {:induction false} TreeRestrict(g: Graph, leaves: set<Ptr>, S: set<Ptr>, top: seq<IdxEntry>, h: nat)
    requires Tree(g, leaves, top, h) && S <= leaves && forall i :: 0 <= i < |Level(g, top, h, 0)| ==> Level(g, top, h, 0)[i].ch in S
    ensures Tree(g, S, top, h)
    decreases h
  {
    if h > 0 {
      assert Level(g, top, h, 0) == Level(g, ExpandAll(g, top), h - 1, 0);
      TreeRestrict(g, leaves, S, ExpandAll(g, top), h - 1);
    } else {
      assert Level(g, top, h, 0) == top;
    }
  }
}
