/**
 * Concurrent inserts, lookups and in-place deletes as a state machine.
 *
 * A search, with the lock bits it sets, is one atomic step: it runs under `tree_lock`. Everything
 * after it runs outside that lock. What a thread does to a node between locking and unlocking it is not taken to be
 * atomic: the node may meanwhile hold anything (`Scribble`), and only its contents when it is unlocked are those the
 * sequential operation computes. `root_level` and `tree_root` change in one step.
 */
module Concurrent {
  import opened Types
  import opened LeafNode
  import opened LeafOps
  import opened LeafSplit
  import opened Levels
  import opened TreeSteps
  import opened InnerNode
  import opened Pending
  import opened TreeState
  import opened LbTree

  type Tid = nat

  datatype Op = Find(key: Key) | Put(key: Key, rec: Ptr) | Remove(key: Key)

  /** What a thread keeps of its search: `node[i]` is on level `i`, and child `pos[i]` of it is `node[i-1]`; the path is locked up to level `top`. */
  datatype Path = Path(node: seq<Ptr>, pos: seq<nat>, top: nat)

  /** Where a thread is in its operation. `orig` or `was` is what the node held when the thread began to change it. */
  datatype Pc =
    | Idle
    | Called
    | Storing(w: Path, full: bool, orig: Leaf)
    | Erasing(lp: Ptr, orig: Leaf)
    | LeafDone(w: Path, n: IdxEntry)
    | Rising(w: Path, n: IdxEntry, lev: nat, total: nat)
    | Filling(w: Path, n: IdxEntry, lev: nat, was: Inner)
    | Splitting(w: Path, n: IdxEntry, lev: nat, total: nat, was: Inner)
    | Grown(oldRoot: Ptr, wasLeaf: bool, newRoot: Ptr)
    | Unlocking(newRoot: Ptr)
    | Returning
    /** a search met an address that is no node of its level */
    | Crashed

  /** `done` counts the operations the thread has returned from; `res` is the result of the one about to return. */
  datatype Thread = Thread(op: Op, pc: Pc, done: nat, res: Option<Ptr>)

  datatype Mem = Mem(root: Ptr, h: nat, inner: map<Ptr, Inner>, leaf: map<Ptr, Leaf>)

  /** The tree as it would be with every change under way finished. It is not part of the program's state. */
  datatype Logical = Logical(g: Graph, top: seq<IdxEntry>, lv: map<Ptr, Leaf>)

  /** An operation taking effect. */
  datatype Event = Event(t: Tid, op: Op, res: Option<Ptr>)

  /** Memory and threads; and, for the proof only, the logical tree, who holds which lock bit, and the effects so far. */
  datatype Sys = Sys(m: Mem, th: map<Tid, Thread>, v: Logical, own: map<Ptr, Tid>, hist: seq<Event>)

  // ---------------------------------------------------------------- searching

  /** The leaf apart from its lock bit. */
  function Plain(x: Leaf): Leaf { Relocked(x, false) }

  datatype Walked = Blocked | Lost | Ended(node: seq<Ptr>, pos: seq<nat>)

  /** The search below node `p` of level `i`, as memory is: it gives up at the first locked node. */
  function SearchFrom(m: Mem, key: Key, p: Ptr, i: nat): Walked
    decreases i
  {
    if i == 0 then
      if p !in m.leaf then Lost else if m.leaf[p].m.lock then Blocked else Ended([p], [0])
    else if p !in m.inner then Lost
    else if m.inner[p].lock then Blocked
    else if !NodeOk(m.inner[p]) then Lost
    else
      var c := PosIn(Children(m.inner[p]), key);
      match SearchFrom(m, key, Children(m.inner[p])[c].ch, i - 1)
      case Ended(node, pos) => Ended(node + [p], pos + [c])
      case other => other
  }

  /** The level up to which an insert into a full leaf locks: the first node from level `i` on that is not full, or the root. */
  function LockTop(m: Mem, node: seq<Ptr>, i: nat): nat
    decreases m.h - i
  {
    if i >= m.h || i >= |node| then m.h
    else if node[i] in m.inner && m.inner[node[i]].num == NON_LEAF_KEY_NUM then LockTop(m, node, i + 1)
    else i
  }

  function LockInner(inner: map<Ptr, Inner>, S: set<Ptr>): map<Ptr, Inner> {
    map p | p in inner :: if p in S then inner[p].(lock := true) else inner[p]
  }

  function SetLeafLock(leaf: map<Ptr, Leaf>, p: Ptr, b: bool): map<Ptr, Leaf>
    requires p in leaf
  {
    leaf[p := Relocked(leaf[p], b)]
  }

  function Take(own: map<Ptr, Tid>, S: set<Ptr>, t: Tid): map<Ptr, Tid> {
    map p | p in own.Keys + S :: if p in S then t else own[p]
  }

  /** The record pointer stored with the key. */
  ghost function RecOf(C: set<IdxEntry>, key: Key): (r: Option<Ptr>)
    ensures r == None <==> !HasKey(C, key)
    ensures r.Some? ==> IdxEntry(key, r.value) in C
  {
    if HasKey(C, key) then var e :| e in C && e.k == key; Some(e.ch) else None
  }

  // ---------------------------------------------------------------- steps

  datatype Action =
    | Call(op: Op)
    | Search
    | ScribbleLeaf(x: RawLeaf)
    | Store(y: Leaf)
    | Erase(y: Leaf)
    | SplitLeaf(y: Leaf, z: Leaf, n: IdxEntry)
    | ReadLevel
    | Decide
    | ScribbleInner(raw: RawInner)
    | Fill(p': Inner)
    | SplitInner(p': Inner, q': Inner, n': IdxEntry)
    | Grow(r: Ptr, r': Inner)
    | UnlockOld
    | UnlockNew
    | Return

  predicate Fresh(m: Mem, p: Ptr) { p != NULL && p !in m.inner && p !in m.leaf }

  /** The leaf `y` is `x` with other entries `C`. */
  predicate NewLeaf(x: Leaf, y: Leaf, C: set<IdxEntry>) {
    LeafOk(x) && LeafOk(y) && Entries(y) == C && y.NextSibling() == x.NextSibling() && !y.m.lock
  }

  /** When a step can be taken: what the program counter and the results of the node operations allow. */
  ghost predicate Enabled(s: Sys, t: Tid, a: Action) {
    && t in s.th
    && var pc, op, m := s.th[t].pc, s.th[t].op, s.m;
      match a
      case Call(_) => pc.Idle?
      case Search => pc.Called?
      case ScribbleLeaf(_) => pc.Storing? || pc.Erasing?
      case Store(y) => pc.Storing? && !pc.full && op.Put? && pc.orig.Shape() && NewLeaf(pc.orig, y, Entries(pc.orig) + {IdxEntry(op.key, op.rec)})
      case Erase(y) => pc.Erasing? && pc.orig.Shape() && NewLeaf(pc.orig, y, Without(Entries(pc.orig), op.key))
      case SplitLeaf(y, z, n) =>
        && pc.Storing? && pc.full && op.Put? && Fresh(m, n.ch) && SplitDone(pc.orig, IdxEntry(op.key, op.rec), n.k, y, z)
        && y.NextSibling() == n.ch && (y.m.lock <==> m.h == 0)
      case ReadLevel => pc.LeafDone?
      case Decide => pc.Rising? && pc.lev <= pc.total
      case ScribbleInner(_) => pc.Filling? || pc.Splitting?
      case Fill(p') =>
        && pc.Filling? && NodeOk(pc.was) && pc.lev < |pc.w.pos| && pc.w.pos[pc.lev] <= pc.was.num
        && NodeOk(p') && !p'.lock && Children(p') == InsertAt(Children(pc.was), pc.w.pos[pc.lev], pc.n)
      case SplitInner(p', q', n') =>
        && pc.Splitting? && NodeOk(pc.was) && pc.lev < |pc.w.pos| && pc.w.pos[pc.lev] <= pc.was.num && Fresh(m, n'.ch)
        && NodeOk(p') && NodeOk(q') && (p'.lock <==> pc.lev >= pc.total) && !q'.lock
        && var ks := InsertAt(Children(pc.was), pc.w.pos[pc.lev], pc.n);
          LEFT_KEY_NUM + 1 < |ks| && Children(p') == ks[..LEFT_KEY_NUM + 1] && Children(q') == ks[LEFT_KEY_NUM + 1..] && n'.k == ks[LEFT_KEY_NUM + 1].k
      case Grow(r, r') =>
        && pc.Rising? && pc.lev > pc.total && Fresh(m, r) && NodeOk(r') && r'.num == 1 && r'.lock
        && r'.ent[0].ch == m.root && r'.ent[1] == pc.n
      case UnlockOld => pc.Grown?
      case UnlockNew => pc.Unlocking?
      case Return => pc.Returning?
  }

  function SetPc(s: Sys, t: Tid, pc: Pc): Sys
    requires t in s.th
  {
    s.(th := s.th[t := s.th[t].(pc := pc)])
  }

  /** The thread's operation takes effect. */
  function Effect(s: Sys, t: Tid, pc: Pc, res: Option<Ptr>): Sys
    requires t in s.th
  {
    s.(th := s.th[t := s.th[t].(pc := pc, res := res)], hist := s.hist + [Event(t, s.th[t].op, res)])
  }

  /** The logical tree with the pair `n` put in at level `lev` of the path, or beside the root. */
  function Pend(v: Logical, m: Mem, w: Path, lev: nat, n: IdxEntry): Logical {
    if lev > m.h then v.(top := TopWith(m.root, n))
    else if lev < |w.node| && lev < |w.pos| && w.node[lev] in v.g && w.pos[lev] < |v.g[w.node[lev]]| then
      v.(g := WithPending(v.g, w.node[lev], w.pos[lev], n))
    else v
  }

  /** The atomic step under `tree_lock`. A blocked search has no effect and is started again. */
  ghost function Searched(s: Sys, t: Tid): Sys
    requires t in s.th
  {
    var key := s.th[t].op.key;
    match SearchFrom(s.m, key, s.m.root, s.m.h)
    case Blocked => s
    case Lost => SetPc(s, t, Crashed)
    case Ended(node, pos) =>
      if node == [] || node[0] !in s.m.leaf || !s.m.leaf[node[0]].Shape() then SetPc(s, t, Crashed) else Arrived(s, t, key, node, pos)
  }

  ghost function Arrived(s: Sys, t: Tid, key: Key, node: seq<Ptr>, pos: seq<nat>): Sys
    requires t in s.th && node != [] && node[0] in s.m.leaf && s.m.leaf[node[0]].Shape()
  {
    var lp := node[0];
    var x := s.m.leaf[lp];
    match s.th[t].op
    case Find(_) => Effect(s, t, Returning, RecOf(Entries(x), key))
    case Put(_, _) => if HasKey(Entries(x), key) then Effect(s, t, Returning, None) else Locked(s, t, node, pos)
    case Remove(_) =>
      if !HasKey(Entries(x), key) then Effect(s, t, Returning, None)
      else if CountBits(x.m.bitmap) <= 1 && s.m.h > 0 then s  // the structural delete is not part of this model
      else
        SetPc(s.(m := s.m.(leaf := SetLeafLock(s.m.leaf, lp, true)), own := Take(s.own, {lp}, t)), t, Erasing(lp, Plain(x)))
  }

  /** The lock bits an insert sets: the leaf, and if it is full the path up to the first node with room. */
  ghost function Locked(s: Sys, t: Tid, node: seq<Ptr>, pos: seq<nat>): Sys
    requires t in s.th && node != [] && node[0] in s.m.leaf
  {
    var lp := node[0];
    var full := IsFull(s.m.leaf[lp]);
    var top := if full && s.m.h > 0 then LockTop(s.m, node, 1) else 0;
    var S := PathSet(node, 1, top);
    SetPc(s.(m := s.m.(leaf := SetLeafLock(s.m.leaf, lp, true), inner := LockInner(s.m.inner, S)), own := Take(s.own, PathSet(node, 0, top), t)),
      t, Storing(Path(node, pos, top), full, Plain(s.m.leaf[lp])))
  }

  function Less(own: map<Ptr, Tid>, p: Ptr): map<Ptr, Tid> { map q | q in own && q != p :: own[q] }

  /** `p->num() < NON_LEAF_KEY_NUM` decides between putting the pair in and splitting. */
  function Decided(s: Sys, t: Tid): Sys
    requires t in s.th && s.th[t].pc.Rising?
  {
    var pc := s.th[t].pc;
    if pc.lev >= |pc.w.node| || pc.w.node[pc.lev] !in s.m.inner || !NodeOk(s.m.inner[pc.w.node[pc.lev]]) then SetPc(s, t, Crashed)
    else
      var x := s.m.inner[pc.w.node[pc.lev]];
      SetPc(s, t, if x.num < NON_LEAF_KEY_NUM then Filling(pc.w, pc.n, pc.lev, x) else Splitting(pc.w, pc.n, pc.lev, pc.total, x))
  }

  function LeafNow(pc: Pc): Ptr
    requires pc.Storing? || pc.Erasing?
  {
    if pc.Erasing? then pc.lp else if pc.w.node != [] then pc.w.node[0] else NULL
  }

  function InnerNow(pc: Pc): Ptr
    requires pc.Filling? || pc.Splitting?
  {
    if pc.lev < |pc.w.node| then pc.w.node[pc.lev] else NULL
  }

  /** A leaf step that also is the operation's effect: the leaf becomes `y`, unlocked. */
  function LeafEffect(s: Sys, t: Tid, lp: Ptr, y: Leaf): Sys
    requires t in s.th
  {
    Effect(s.(m := s.m.(leaf := s.m.leaf[lp := y]), v := s.v.(lv := s.v.lv[lp := Plain(y)]), own := Less(s.own, lp)), t, Returning, None)
  }

  /** Step 2 of `insert`: the leaf is split; under a parent it is unlocked by now. */
  function LeafSplitEffect(s: Sys, t: Tid, y: Leaf, z: Leaf, n: IdxEntry): Sys
    requires t in s.th && s.th[t].pc.Storing?
  {
    var w := s.th[t].pc.w;
    var lp := LeafNow(s.th[t].pc);
    Effect(s.(m := s.m.(leaf := s.m.leaf[lp := y][n.ch := z]),
              v := Pend(s.v.(lv := s.v.lv[lp := Plain(y)][n.ch := Plain(z)]), s.m, w, 1, n),
              own := if s.m.h == 0 then s.own else Less(s.own, lp)), t, LeafDone(w, n), None)
  }

  /** The non-full case of Part 3. */
  function Filled(s: Sys, t: Tid, p': Inner): Sys
    requires t in s.th && s.th[t].pc.Filling?
  {
    var p := InnerNow(s.th[t].pc);
    SetPc(s.(m := s.m.(inner := s.m.inner[p := p']), own := Less(s.own, p)), t, Returning)
  }

  /** The full case of Part 3. */
  function InnerSplit(s: Sys, t: Tid, p': Inner, q': Inner, n': IdxEntry): Sys
    requires t in s.th && s.th[t].pc.Splitting?
  {
    var pc := s.th[t].pc;
    var p := InnerNow(pc);
    SetPc(s.(m := s.m.(inner := s.m.inner[p := p'][n'.ch := q']),
             v := Pend(s.v.(g := s.v.g[p := KidsOf(p')][n'.ch := KidsOf(q')]), s.m, pc.w, pc.lev + 1, n'),
             own := if pc.lev < pc.total then Less(s.own, p) else s.own), t, Rising(pc.w, n', pc.lev + 1, pc.total))
  }

  /** Root growth: `root_level` and `tree_root` change; both roots are locked. */
  function RootGrown(s: Sys, t: Tid, r: Ptr, r': Inner): Sys
    requires t in s.th && s.th[t].pc.Rising?
  {
    var pc := s.th[t].pc;
    SetPc(s.(m := s.m.(root := r, h := pc.lev, inner := s.m.inner[r := r']),
             v := s.v.(g := s.v.g[r := KidsOf(r')], top := Top(r)), own := s.own[r := t]), t, Grown(s.m.root, pc.total == 0, r))
  }

  function UnlockNode(m: Mem, p: Ptr, isLeaf: bool): Mem {
    if isLeaf then if p in m.leaf then m.(leaf := SetLeafLock(m.leaf, p, false)) else m
    else if p in m.inner then m.(inner := m.inner[p := m.inner[p].(lock := false)]) else m
  }

  /** The state after a step. */
  ghost function Fire(s: Sys, t: Tid, a: Action): Sys
    requires Enabled(s, t, a)
  {
    var pc, m := s.th[t].pc, s.m;
    match a
    case Call(op) => s.(th := s.th[t := s.th[t].(op := op, pc := Called)])
    case Search => Searched(s, t)
    case ScribbleLeaf(x) => s.(m := m.(leaf := m.leaf[LeafNow(pc) := Relocked(x, true)]))
    case Store(y) => LeafEffect(s, t, LeafNow(pc), y)
    case Erase(y) => LeafEffect(s, t, pc.lp, y)
    case SplitLeaf(y, z, n) => LeafSplitEffect(s, t, y, z, n)
    case ReadLevel => SetPc(s, t, Rising(pc.w, pc.n, 1, m.h))
    case Decide => Decided(s, t)
    case ScribbleInner(raw) => s.(m := m.(inner := m.inner[InnerNow(pc) := raw.(lock := true)]))
    case Fill(p') => Filled(s, t, p')
    case SplitInner(p', q', n') => InnerSplit(s, t, p', q', n')
    case Grow(r, r') => RootGrown(s, t, r, r')
    case UnlockOld => SetPc(s.(m := UnlockNode(m, pc.oldRoot, pc.wasLeaf), own := Less(s.own, pc.oldRoot)), t, Unlocking(pc.newRoot))
    case UnlockNew => SetPc(s.(m := UnlockNode(m, pc.newRoot, false), own := Less(s.own, pc.newRoot)), t, Returning)
    case Return => s.(th := s.th[t := s.th[t].(pc := Idle, done := s.th[t].done + 1)])
  }
}
