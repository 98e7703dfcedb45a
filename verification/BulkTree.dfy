/** Levels built one on top of the other make a tree; leaves filled from sorted keys make its leaf level. */
module BulkTree {
  import opened Types
  import opened LeafNode
  import opened Levels
  import opened TreeSteps
  import opened InnerNode
  import opened Pending
  import opened LeafLevel
  import opened MemPool
  import opened Grouping
  import opened BulkRows

  // ---------------------------------------------------------------- stacks of levels

  /** `W[l]` is the list of level `l`. */
  ghost predicate Stacked(g: Graph, W: seq<seq<IdxEntry>>) {
    forall l :: 0 < l < |W| ==> OnTop(g, W, l)
  }

  predicate OnTop(g: Graph, W: seq<seq<IdxEntry>>, l: nat)
    requires 0 < l < |W|
  {
    Closed(g, W[l]) && ExpandAll(g, W[l]) == W[l - 1]
  }

  lemma {:induction false} StackTree(g: Graph, leaves: set<Ptr>, W: seq<seq<IdxEntry>>, l: nat)
    requires Stacked(g, W) && l < |W| && Tree(g, leaves, W[0], 0)
    ensures Tree(g, leaves, W[l], l) && Level(g, W[l], l, 0) == W[0]
    decreases l
  {
    if l > 0 {
      assert OnTop(g, W, l);
      StackTree(g, leaves, W, l - 1);
    }
  }

  lemma {:induction false} StackLevel(g: Graph, W: seq<seq<IdxEntry>>, l: nat, k: nat)
    requires Stacked(g, W) && k <= l < |W|
    ensures Level(g, W[l], l, k) == W[k]
    decreases l
  {
    if k < l {
      assert OnTop(g, W, l);
      StackLevel(g, W, l - 1, k);
    }
  }

  /** Every node of level `l` but the last has `F` children. */
  predicate EvenAt(g: Graph, W: seq<seq<IdxEntry>>, l: nat, F: Size)
    requires l < |W|
  {
    forall j :: 0 <= j < |W[l]| - 1 ==> W[l][j].ch in g && |g[W[l][j].ch]| == F
  }

  ghost predicate EvenStack(g: Graph, W: seq<seq<IdxEntry>>, F: Size) {
    forall l :: 0 < l < |W| ==> EvenAt(g, W, l, F)
  }

  /** The low key of the leftmost branch can be lowered on all levels. */
  function Lowered(W: seq<seq<IdxEntry>>, k: Key): seq<seq<IdxEntry>> {
    seq(|W|, l requires 0 <= l < |W| => Lower(W[l], k))
  }

  lemma {:induction false} StackLower(g: Graph, W: seq<seq<IdxEntry>>, k: Key)
    requires Stacked(g, W)
    ensures Stacked(g, Lowered(W, k))
  {
    hide Closed, ExpandAll, Lower;
    var V := Lowered(W, k);
    forall l | 0 < l < |W| ensures OnTop(g, V, l) {
      assert OnTop(g, W, l);
      LowerOn(g, W[l], W[l - 1], k);
      assert V[l] == Lower(W[l], k) && V[l - 1] == Lower(W[l - 1], k);
    }
  }

  lemma {:induction false} LowerOn(g: Graph, A: seq<IdxEntry>, B: seq<IdxEntry>, k: Key)
    requires Closed(g, A) && ExpandAll(g, A) == B
    ensures Closed(g, Lower(A, k)) && ExpandAll(g, Lower(A, k)) == Lower(B, k)
  {
    ExpandLower(g, A, k);
    hide ExpandAll;
    assert forall i :: 0 <= i < |A| ==> Lower(A, k)[i].ch == A[i].ch;
  }

  lemma {:induction false} StackFrame(g: Graph, g': Graph, W: seq<seq<IdxEntry>>)
    requires Stacked(g, W) && forall p :: p in g ==> p in g' && g'[p] == g[p]
    ensures Stacked(g', W)
  {
    forall l | 0 < l < |W| ensures OnTop(g', W, l) {
      assert OnTop(g, W, l);
      ExpandFrame(g, g', W[l]);
    }
  }

  // ---------------------------------------------------------------- one level of nodes

  lemma {:induction false} FilledKids(g: Graph, inner: map<Ptr, Inner>, e: IdxEntry, ks: seq<IdxEntry>)
    requires e.ch in inner && e.ch in g && g[e.ch] == KidsOf(inner[e.ch]) && Filled(inner[e.ch], ks) && e.k == ks[0].k
    ensures Kids(g, e) == ks && NodeOk(inner[e.ch]) && g[e.ch] != []
  {
    var n := inner[e.ch];
    assert |Children(n)| == |ks|;
    forall c | 0 <= c < |ks| ensures Kids(g, e)[c] == ks[c] { }
  }

  /** The nodes of a finished row, in memory, lie on top of the level below. */
  lemma {:induction false} RowOnTop(inner: map<Ptr, Inner>, row: Row, cur: nat, A: seq<IdxEntry>, F: Size, n: nat, base: Ptr, size: nat)
    requires RowHolds(row, cur, Grouped(A, F), F, n) && forall j :: 0 <= j < |row| ==> NodeAt(base, j, size) in inner && inner[NodeAt(base, j, size)] == row[j]
    ensures var g := GraphOf(inner); Closed(g, Above(A, F, base, size)) && ExpandAll(g, Above(A, F, base, size)) == A
    ensures forall i :: 0 <= i < |Above(A, F, base, size)| ==> NodeOk(inner[Above(A, F, base, size)[i].ch])
    ensures forall i :: 0 <= i < |Above(A, F, base, size)| - 1 ==> Above(A, F, base, size)[i].ch in GraphOf(inner) && |GraphOf(inner)[Above(A, F, base, size)[i].ch]| == F
  {
    var g, G, W := GraphOf(inner), Grouped(A, F), Above(A, F, base, size);
    GroupedEven(A, F);
    hide Filled, Kids, Grouped, NodeAt;
    forall j | 0 <= j < |G| ensures Kids(g, W[j]) == G[j] && W[j].ch in g && g[W[j].ch] != [] && |g[W[j].ch]| == |G[j]| && NodeOk(inner[W[j].ch]) {
      FilledKids(g, inner, W[j], G[j]);
      KidsAt(g, W[j]);
    }
    AboveExpands(g, A, F, base, size);
  }

  // ---------------------------------------------------------------- leaves from sorted keys

  predicate Sorted(ks: seq<Key>) { forall i, j :: 0 <= i < j < |ks| ==> ks[i] < ks[j] }

  /** The keys, each with itself as record pointer, as bulkload stores them. */
  function EntrySet(ks: seq<Key>): set<IdxEntry> { set i | 0 <= i < |ks| :: IdxEntry(ks[i], ks[i]) }

  /** The leaf holds exactly these keys. */
  predicate LeafIs(x: Leaf, ks: seq<Key>) { LeafOk(x) && Entries(x) == EntrySet(ks) && !x.m.lock }

  /** The leaf level: leaf `j` at `P[j]` holds group `j`. */
  function LeafRow(G: seq<seq<Key>>, P: seq<Ptr>): seq<IdxEntry>
    requires |G| == |P|
  {
    seq(|G|, j requires 0 <= j < |G| => IdxEntry(if G[j] == [] then 0 else G[j][0], P[j]))
  }

  function Offset(G: seq<seq<Key>>, j: nat): nat
    requires j <= |G|
  {
    if j == 0 then 0 else Offset(G, j - 1) + |G[j - 1]|
  }

  lemma {:induction false} FlatAt(G: seq<seq<Key>>, j: nat, i: nat)
    requires j < |G| && i < |G[j]|
    ensures Offset(G, j) + |G[j]| <= |Flat(G)| && Flat(G)[Offset(G, j) + i] == G[j][i]
    decreases |G|
  {
    if j == 0 {
      assert Flat(G) == G[0] + Flat(G[1..]);
    } else {
      FlatAt(G[1..], j - 1, i);
      OffsetTail(G, j);
    }
  }

  lemma {:induction false} OffsetTail(G: seq<seq<Key>>, j: nat)
    requires 0 < j <= |G|
    ensures Offset(G, j) == |G[0]| + Offset(G[1..], j - 1)
    decreases j
  {
    if j > 1 { OffsetTail(G, j - 1); }
  }

  lemma {:induction false} OffsetGrows(G: seq<seq<Key>>, i: nat, j: nat)
    requires i < j <= |G|
    ensures Offset(G, i) + |G[i]| <= Offset(G, j)
    decreases j
  {
    if i < j - 1 { OffsetGrows(G, i, j - 1); }
  }

  /** The keys of an earlier group are below those of a later one. */
  lemma {:induction false} GroupsApart(G: seq<seq<Key>>, i: nat, j: nat, a: nat, b: nat)
    requires Sorted(Flat(G)) && i < j < |G| && a < |G[i]| && b < |G[j]|
    ensures G[i][a] < G[j][b]
  {
    FlatAt(G, i, a);
    FlatAt(G, j, b);
    OffsetGrows(G, i, j);
  }

  lemma {:induction false} WithinGroup(G: seq<seq<Key>>, j: nat, a: nat, b: nat)
    requires Sorted(Flat(G)) && j < |G| && a < b < |G[j]|
    ensures G[j][a] < G[j][b]
  {
    FlatAt(G, j, a);
    FlatAt(G, j, b);
  }

  predicate NoneEmpty(G: seq<seq<Key>>) { forall j :: 0 <= j < |G| ==> G[j] != [] }

  predicate DistinctPtrs(P: seq<Ptr>) { forall i, j :: 0 <= i < j < |P| ==> P[i] != P[j] }

  /** The leaf level holds the keys: every leaf in its range, in order. */
  lemma {:induction false} LeavesFit(G: seq<seq<Key>>, P: seq<Ptr>, Y: seq<Leaf>)
    requires Sorted(Flat(G)) && NoneEmpty(G) && |Y| == |G| == |P| && DistinctPtrs(P)
    requires forall j :: 0 <= j < |G| ==> LeafIs(Y[j], G[j])
    ensures Fits(LeafRow(G, P), Y) && Ascending(LeafRow(G, P)) && NoDup(LeafRow(G, P)) && Union(Y) == EntrySet(Flat(G))
  {
    var L := LeafRow(G, P);
    forall i, j | 0 <= i < j < |L| ensures L[i].k < L[j].k && L[i].ch != L[j].ch { GroupsApart(G, i, j, 0, 0); }
    forall i, e | 0 <= i < |L| && e in EntriesOf(Y[i]) ensures L[i].k <= e.k && (i + 1 < |L| ==> e.k < L[i + 1].k) {
      assert LeafIs(Y[i], G[i]);
      var a :| 0 <= a < |G[i]| && e == IdxEntry(G[i][a], G[i][a]);
      if a > 0 { WithinGroup(G, i, 0, a); }
      if i + 1 < |L| { GroupsApart(G, i, i + 1, a, 0); }
    }
    UnionEntries(G, Y);
  }

  lemma {:induction false} UnionEntries(G: seq<seq<Key>>, Y: seq<Leaf>)
    requires |Y| == |G| && forall j :: 0 <= j < |G| ==> LeafIs(Y[j], G[j])
    ensures Union(Y) == EntrySet(Flat(G))
    decreases |G|
  {
    hide LeafOk;
    if G == [] {
      assert EntrySet([]) == {};
    } else {
      LeafShape(Y[0], G[0]);
      forall j | 0 <= j < |G| - 1 ensures LeafIs(Y[1..][j], G[1..][j]) { assert LeafIs(Y[j + 1], G[j + 1]); }
      UnionEntries(G[1..], Y[1..]);
      EntrySetJoin(G[0], Flat(G[1..]));
    }
  }

  lemma {:induction false} LeafShape(x: Leaf, ks: seq<Key>)
    requires LeafIs(x, ks)
    ensures EntriesOf(x) == EntrySet(ks)
  {
  }

  lemma {:induction false} EntrySetJoin(a: seq<Key>, b: seq<Key>)
    ensures EntrySet(a + b) == EntrySet(a) + EntrySet(b)
  {
    var c := a + b;
    forall e | e in EntrySet(a) ensures e in EntrySet(c) {
      var i :| 0 <= i < |a| && e == IdxEntry(a[i], a[i]);
      assert c[i] == a[i];
    }
    forall e | e in EntrySet(b) ensures e in EntrySet(c) {
      var i :| 0 <= i < |b| && e == IdxEntry(b[i], b[i]);
      assert c[|a| + i] == b[i];
    }
  }

  /** Lowering the first key keeps the leaf level right. */
  lemma {:induction false} LowerFits(L: seq<IdxEntry>, Y: seq<Leaf>, k: Key)
    requires Fits(L, Y) && Ascending(L) && NoDup(L) && (L != [] ==> k <= L[0].k)
    ensures Fits(Lower(L, k), Y) && Ascending(Lower(L, k)) && NoDup(Lower(L, k)) && (Linked(L, Y) ==> Linked(Lower(L, k), Y))
  {
    var M := Lower(L, k);
    assert |M| == |L| && forall i :: 0 <= i < |L| ==> M[i].ch == L[i].ch && M[i].k <= L[i].k && (i > 0 ==> M[i].k == L[i].k);
    hide Lower, LeafOk;
    if Linked(L, Y) { assert forall i: nat :: PtrAt(M, i) == PtrAt(L, i); }
  }
}
