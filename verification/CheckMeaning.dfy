/** What acceptance by `check` says about the tree, and which trees it accepts. */
module CheckMeaning {
  import opened Types
  import opened LeafNode
  import opened Nvm
  import opened Levels
  import opened InnerNode
  import opened Pending
  import opened LeafLevel
  import opened Recovery
  import opened TreeView
  import opened TreeState
  import opened DeleteSteps
  import opened TreeCheck

  function Ptrs(L: seq<IdxEntry>): seq<Ptr> {
    seq(|L|, i requires 0 <= i < |L| => L[i].ch)
  }

  predicate NodesGood(inner: map<Ptr, Inner>, L: seq<IdxEntry>) {
    forall i :: 0 <= i < |L| ==> InnerGood(inner, L[i].ch)
  }

  lemma {:induction false} KidsAgree(inner: map<Ptr, Inner>, e: IdxEntry)
    requires InnerGood(inner, e.ch)
    ensures Kids(GraphOf(inner), e) == KidsIn(inner, e) != [] && KidsIn(inner, e)[0].k == e.k
    ensures e.ch in GraphOf(inner) && GraphOf(inner)[e.ch] != []
  {
  }

  lemma {:induction false} GoodClosed(inner: map<Ptr, Inner>, L: seq<IdxEntry>)
    requires NodesGood(inner, L)
    ensures Closed(GraphOf(inner), L)
  {
    forall i | 0 <= i < |L| ensures L[i].ch in GraphOf(inner) && GraphOf(inner)[L[i].ch] != [] { KidsAgree(inner, L[i]); }
  }

  lemma {:induction false} NodesSplit(inner: map<Ptr, Inner>, L: seq<IdxEntry>)
    requires L != []
    ensures NodesGood(inner, L) <==> InnerGood(inner, L[0].ch) && NodesGood(inner, L[1..])
  {
    hide InnerGood;
    if InnerGood(inner, L[0].ch) && NodesGood(inner, L[1..]) {
      forall i | 0 < i < |L| ensures InnerGood(inner, L[i].ch) { assert L[1..][i - 1] == L[i]; }
    }
  }

  /** A list of inner nodes passes exactly if its nodes do and the list of their children passes. */
  lemma {:induction false} GoodExpand(inner: map<Ptr, Inner>, leaf: map<Ptr, Leaf>, L: seq<IdxEntry>, l: nat, hi: int)
    requires l > 0
    ensures AllGood(inner, leaf, L, l, hi) <==> NodesGood(inner, L) && AllGood(inner, leaf, ExpandAll(GraphOf(inner), L), l - 1, hi)
    decreases |L|
  {
    var g := GraphOf(inner);
    hide GraphOf, InnerGood, Kids, KidsIn, NodesGood;
    if L != [] {
      var R := L[1..];
      GoodExpand(inner, leaf, R, l, hi);
      NodesSplit(inner, L);
      if InnerGood(inner, L[0].ch) && NodesGood(inner, R) {
        KidsAgree(inner, L[0]);
        GoodClosed(inner, R);
        if R != [] { FirstKey(g, R); }
        GoodConcat(inner, leaf, Kids(g, L[0]), ExpandAll(g, R), l - 1, hi);
      }
    } else {
      NoNodes(inner);
    }
  }

  lemma {:induction false} NoNodes(inner: map<Ptr, Inner>)
    ensures NodesGood(inner, [])
  {
  }

  /** Leaf `i` of the list passes, its keys in its range. */
  predicate LeafFits(leaf: map<Ptr, Leaf>, L: seq<IdxEntry>, i: nat, hi: int)
    requires i < |L|
  {
    LeafGood(leaf, L[i].ch) && InRange(leaf[L[i].ch], L[i].k, if i + 1 < |L| then L[i + 1].k else hi)
  }

  lemma {:induction false} GoodLeaves(inner: map<Ptr, Inner>, leaf: map<Ptr, Leaf>, L: seq<IdxEntry>, hi: int)
    ensures AllGood(inner, leaf, L, 0, hi) <==> forall i :: 0 <= i < |L| ==> LeafFits(leaf, L, i, hi)
    decreases |L|
  {
    hide LeafGood, InRange;
    if L != [] {
      var R := L[1..];
      GoodLeaves(inner, leaf, R, hi);
      assert Good(inner, leaf, L[0], 0, NextKey(R, hi)) <==> LeafFits(leaf, L, 0, hi);
      forall i | 0 <= i < |R| ensures LeafFits(leaf, R, i, hi) <==> LeafFits(leaf, L, i + 1, hi) { }
      if forall i :: 0 <= i < |R| ==> LeafFits(leaf, R, i, hi) {
        forall i | 0 < i < |L| ensures LeafFits(leaf, L, i, hi) { assert LeafFits(leaf, R, i - 1, hi); }
      }
      if forall i :: 0 <= i < |L| ==> LeafFits(leaf, L, i, hi) {
        forall i | 0 <= i < |R| ensures LeafFits(leaf, R, i, hi) { assert LeafFits(leaf, L, i + 1, hi); }
      }
    }
  }

  /** Leaves that pass, each with at least one key in its range, are in order and all different. */
  lemma {:induction false} GoodOrdered(leaf: map<Ptr, Leaf>, L: seq<IdxEntry>, hi: int)
    requires forall i :: 0 <= i < |L| ==> LeafFits(leaf, L, i, hi)
    ensures Ascending(L) && NoDup(L) && forall i :: 0 <= i < |L| ==> L[i].ch in leaf
  {
    forall i, j | 0 <= i < j < |L| ensures L[i].k < L[j].k && L[i].ch != L[j].ch { Ordered(leaf, L, hi, i, j); }
    forall i | 0 <= i < |L| ensures L[i].ch in leaf { assert LeafFits(leaf, L, i, hi); }
  }

  lemma {:induction false} Ordered(leaf: map<Ptr, Leaf>, L: seq<IdxEntry>, hi: int, i: nat, j: nat)
    requires (forall i :: 0 <= i < |L| ==> LeafFits(leaf, L, i, hi)) && i < j < |L|
    ensures L[i].k < L[i + 1].k <= L[j].k && L[i].ch != L[j].ch
    decreases j - i
  {
    assert LeafFits(leaf, L, i, hi) && LeafFits(leaf, L, j, hi);
    var e :| e in Entries(leaf[L[i].ch]);
    assert e in EntriesOf(leaf[L[i].ch]);
    if i + 1 < j { Ordered(leaf, L, hi, i + 1, j); }
    var low := L[j].k;
    assert e.k < L[i + 1].k;
    assert L[i].ch == L[j].ch ==> low <= e.k;
  }

  /** All inner nodes of the tree pass. */
  ghost predicate LevelsGood(inner: map<Ptr, Inner>, L: seq<IdxEntry>, l: nat) {
    forall i :: 0 < i <= l ==> NodesGood(inner, Level(GraphOf(inner), L, l, i))
  }

  lemma {:induction false} LevelsSplit(inner: map<Ptr, Inner>, L: seq<IdxEntry>, l: nat)
    requires l > 0
    ensures LevelsGood(inner, L, l) <==> NodesGood(inner, L) && LevelsGood(inner, ExpandAll(GraphOf(inner), L), l - 1)
    ensures Level(GraphOf(inner), L, l, 0) == Level(GraphOf(inner), ExpandAll(GraphOf(inner), L), l - 1, 0)
  {
    var g, K, m := GraphOf(inner), ExpandAll(GraphOf(inner), L), l - 1;
    hide NodesGood, GraphOf, ExpandAll;
    assert Level(g, L, l, l) == L;
    forall i | 0 <= i <= m ensures Level(g, L, l, i) == Level(g, K, m, i) { }
    if LevelsGood(inner, L, l) {
      forall i | 0 < i <= m ensures NodesGood(inner, Level(g, K, m, i)) { assert Level(g, L, l, i) == Level(g, K, m, i); }
    }
    if NodesGood(inner, L) && LevelsGood(inner, K, m) {
      forall i | 0 < i <= l ensures NodesGood(inner, Level(g, L, l, i)) { if i <= m { assert Level(g, L, l, i) == Level(g, K, m, i); } }
    }
  }

  /** All levels at once: the tree passes exactly if every inner node does, and every leaf in the range its separators give it. */
  lemma {:induction false} GoodTree(inner: map<Ptr, Inner>, leaf: map<Ptr, Leaf>, L: seq<IdxEntry>, l: nat, hi: int)
    ensures AllGood(inner, leaf, L, l, hi) <==> LevelsGood(inner, L, l) && AllGood(inner, leaf, Level(GraphOf(inner), L, l, 0), 0, hi)
    decreases l
  {
    if l > 0 {
      hide AllGood, NodesGood, GraphOf, LevelsGood;
      GoodExpand(inner, leaf, L, l, hi);
      LevelsSplit(inner, L, l);
      GoodTree(inner, leaf, ExpandAll(GraphOf(inner), L), l - 1, hi);
    }
  }

  lemma {:induction false} ClosedTree(inner: map<Ptr, Inner>, leaves: set<Ptr>, L: seq<IdxEntry>, l: nat)
    requires inner.Keys !! leaves && LevelsGood(inner, L, l)
    requires var L0 := Level(GraphOf(inner), L, l, 0); Ascending(L0) && NoDup(L0) && forall i :: 0 <= i < |L0| ==> L0[i].ch in leaves
    ensures Tree(GraphOf(inner), leaves, L, l)
    decreases l
  {
    var g := GraphOf(inner);
    assert g.Keys == inner.Keys;
    if l > 0 {
      hide NodesGood, GraphOf, LevelsGood;
      LevelsSplit(inner, L, l);
      GoodClosed(inner, L);
      ClosedTree(inner, leaves, ExpandAll(g, L), l - 1);
    }
  }

  // ---------------------------------------------------------------- the leaves met

  lemma {:induction false} UnderConcat(inner: map<Ptr, Inner>, A: seq<IdxEntry>, B: seq<IdxEntry>, l: nat)
    ensures UnderAll(inner, A + B, l) == UnderAll(inner, A, l) + UnderAll(inner, B, l)
    decreases |B|
  {
    hide Under, UnderAll;
    if B == [] {
      assert A + B == A;
      UnderNone(inner, l);
    } else {
      var B0 := B[..|B| - 1];
      assert (A + B)[..|A + B| - 1] == A + B0;
      UnderConcat(inner, A, B0, l);
      UnderLast(inner, B, l);
      UnderLast(inner, A + B, l);
    }
  }

  lemma {:induction false} UnderNone(inner: map<Ptr, Inner>, l: nat)
    ensures UnderAll(inner, [], l) == []
  {
  }

  lemma {:induction false} UnderLast(inner: map<Ptr, Inner>, L: seq<IdxEntry>, l: nat)
    requires L != []
    ensures UnderAll(inner, L, l) == UnderAll(inner, L[..|L| - 1], l) + Under(inner, L[|L| - 1].ch, l)
  {
  }

  lemma {:induction false} UnderKids(inner: map<Ptr, Inner>, e: IdxEntry, l: nat)
    requires l > 0 && InnerGood(inner, e.ch)
    ensures Under(inner, e.ch, l) == UnderAll(inner, Kids(GraphOf(inner), e), l - 1)
  {
    KidsAgree(inner, e);
    var ks, ks' := Children(inner[e.ch]), KidsIn(inner, e);
    SamePtrs(inner, ks, ks', l - 1);
  }

  /** The keys do not matter. */
  lemma {:induction false} SamePtrs(inner: map<Ptr, Inner>, A: seq<IdxEntry>, B: seq<IdxEntry>, l: nat)
    requires |A| == |B| && forall i :: 0 <= i < |A| ==> A[i].ch == B[i].ch
    ensures UnderAll(inner, A, l) == UnderAll(inner, B, l)
    decreases |A|
  {
    hide Under;
    if A != [] { SamePtrs(inner, A[..|A| - 1], B[..|B| - 1], l); }
  }

  lemma {:induction false} UnderExpand(inner: map<Ptr, Inner>, L: seq<IdxEntry>, l: nat)
    requires l > 0 && NodesGood(inner, L)
    ensures UnderAll(inner, L, l) == UnderAll(inner, ExpandAll(GraphOf(inner), L), l - 1)
    decreases |L|
  {
    hide Under, InnerGood, GraphOf, Kids;
    if L != [] {
      var A, e, g := L[..|L| - 1], L[|L| - 1], GraphOf(inner);
      assert L == A + [e];
      UnderExpand(inner, A, l);
      ExpandConcat(g, A, [e]);
      assert ExpandAll(g, [e]) == Kids(g, e) by { assert [e][1..] == [] && ExpandAll(g, [e][1..]) == []; }
      UnderKids(inner, e, l);
      UnderConcat(inner, ExpandAll(g, A), Kids(g, e), l - 1);
    }
  }

  lemma {:induction false} UnderLeaves(inner: map<Ptr, Inner>, L: seq<IdxEntry>)
    ensures UnderAll(inner, L, 0) == Ptrs(L)
    decreases |L|
  {
    if L != [] {
      UnderLeaves(inner, L[..|L| - 1]);
      assert Ptrs(L) == Ptrs(L[..|L| - 1]) + [L[|L| - 1].ch];
    }
  }

  /** The recursion meets the leaves of the tree in the order of the leaf level. */
  lemma {:induction false} UnderLevel(inner: map<Ptr, Inner>, L: seq<IdxEntry>, l: nat)
    requires LevelsGood(inner, L, l)
    ensures UnderAll(inner, L, l) == Ptrs(Level(GraphOf(inner), L, l, 0))
    decreases l
  {
    if l > 0 {
      hide NodesGood, GraphOf, UnderAll, LevelsGood;
      LevelsSplit(inner, L, l);
      UnderExpand(inner, L, l);
      UnderLevel(inner, ExpandAll(GraphOf(inner), L), l - 1);
    } else {
      UnderLeaves(inner, L);
    }
  }

  lemma {:induction false} UnderRoot(inner: map<Ptr, Inner>, leaf: map<Ptr, Leaf>, root: Ptr, h: nat)
    ensures UnderAll(inner, Top(root), h) == Under(inner, root, h)
    ensures AllGood(inner, leaf, Top(root), h, KEY_LIMIT) <==> Good(inner, leaf, IdxEntry(0, root), h, KEY_LIMIT)
  {
    assert Top(root)[..0] == [] && Top(root)[1..] == [];
    assert UnderAll(inner, Top(root), h) == [] + Under(inner, root, h);
    hide Good, Under;
  }

  // ---------------------------------------------------------------- sound and complete

  /** Leaf `i` points to leaf `i + 1`. */
  predicate LinkedAt(leaf: map<Ptr, Leaf>, L: seq<IdxEntry>, i: nat)
    requires i + 1 < |L|
  {
    Next(leaf, L[i].ch) == L[i + 1].ch
  }

  /** What `check` inspects, said of the tree's levels. */
  ghost predicate Sound(inner: map<Ptr, Inner>, leaf: map<Ptr, Leaf>, root: Ptr, h: nat, first: Ptr) {
    var L := LeafList(inner, root, h);
    && LevelsGood(inner, Top(root), h)
    && (forall i :: 0 <= i < |L| ==> LeafFits(leaf, L, i, KEY_LIMIT))
    && (forall i :: 0 <= i < |L| - 1 ==> LinkedAt(leaf, L, i)) && L != [] && L[0].ch == first
  }

  lemma {:induction false} ChainIs(leaf: map<Ptr, Leaf>, L: seq<IdxEntry>)
    requires forall i :: 0 <= i < |L| ==> L[i].ch != NULL
    ensures ChainFrom(leaf, NULL, Ptrs(L)) <==> forall i :: 0 <= i < |L| - 1 ==> LinkedAt(leaf, L, i)
  {
    var list := Ptrs(L);
    hide Next;
    if ChainFrom(leaf, NULL, list) {
      forall i | 0 <= i < |L| - 1 ensures LinkedAt(leaf, L, i) { assert StepFrom(leaf, Before(NULL, list, i + 1), list[i + 1]); }
    }
    if forall i :: 0 <= i < |L| - 1 ==> LinkedAt(leaf, L, i) {
      forall i | 0 <= i < |list| ensures StepFrom(leaf, Before(NULL, list, i), list[i]) {
        if i > 0 { assert LinkedAt(leaf, L, i - 1); }
      }
    }
  }

  /** `check` accepts exactly the trees that are right in everything it inspects. */
  lemma {:induction false} AcceptedIs(inner: map<Ptr, Inner>, leaf: map<Ptr, Leaf>, root: Ptr, h: nat, first: Ptr)
    ensures Accepted(inner, leaf, root, h, first) <==> Sound(inner, leaf, root, h, first)
  {
    hide Good, AllGood, ChainFrom, Under, UnderAll, NodesGood, LeafGood, InRange, GraphOf, Level, Next, LevelsGood;
    var L := LeafList(inner, root, h);
    UnderRoot(inner, leaf, root, h);
    GoodTree(inner, leaf, Top(root), h, KEY_LIMIT);
    GoodLeaves(inner, leaf, L, KEY_LIMIT);
    if LevelsGood(inner, Top(root), h) && forall i :: 0 <= i < |L| ==> LeafFits(leaf, L, i, KEY_LIMIT) {
      UnderLevel(inner, Top(root), h);
      forall i | 0 <= i < |L| ensures L[i].ch != NULL { NotNull(leaf, L, i); }
      ChainIs(leaf, L);
      assert |Ptrs(L)| == |L| && (L != [] ==> Ptrs(L)[0] == L[0].ch);
    }
  }

  lemma {:induction false} NotNull(leaf: map<Ptr, Leaf>, L: seq<IdxEntry>, i: nat)
    requires i < |L| && LeafFits(leaf, L, i, KEY_LIMIT)
    ensures L[i].ch != NULL
  {
  }

  /** An inner node as `check` wants it. */
  predicate InnerPlain(inner: map<Ptr, Inner>, p: Ptr) {
    p != NULL && p % 64 == 0 && p in inner && |inner[p].ent| == 16 && 0 <= inner[p].num <= 15 && !inner[p].lock
  }

  /** Leaf `i` of the chain as `check` wants it. */
  predicate LeafPlain(leaf: map<Ptr, Leaf>, L: seq<IdxEntry>, i: nat)
    requires i < |L|
  {
    var p := L[i].ch;
    && p != NULL && p % 256 == 0 && p in leaf && leaf[p].Shape() && !leaf[p].m.lock && (exists j :: 0 <= j < 14 && leaf[p].m.bitmap[j])
    && (forall j :: 0 <= j < 14 && leaf[p].m.bitmap[j] ==> leaf[p].m.fgpt[j] == hashcode1B(leaf[p].ent[j].k))
    && (forall j :: 0 <= j < 14 && leaf[p].m.bitmap[j] ==> L[i].k <= leaf[p].ent[j].k && (i + 1 < |L| ==> leaf[p].ent[j].k < L[i + 1].k))
    && (i + 1 < |L| ==> leaf[p].next[leaf[p].m.alt] == L[i + 1].ch)
  }

  /** What `check` has made sure of, node by node. */
  lemma {:induction false} AcceptedNodes(inner: map<Ptr, Inner>, leaf: map<Ptr, Leaf>, root: Ptr, h: nat, first: Ptr)
    requires Accepted(inner, leaf, root, h, first)
    ensures forall l, i :: 0 < l <= h && 0 <= i < |Level(GraphOf(inner), Top(root), h, l)| ==> InnerPlain(inner, Level(GraphOf(inner), Top(root), h, l)[i].ch)
    ensures var L := LeafList(inner, root, h); L != [] && L[0].ch == first && forall i :: 0 <= i < |L| ==> LeafPlain(leaf, L, i)
  {
    hide Accepted, GraphOf, Level, LeafGood, InRange, NodesGood, LeafFits, LinkedAt, InnerPlain, LeafPlain;
    AcceptedIs(inner, leaf, root, h, first);
    var L := LeafList(inner, root, h);
    forall l, i | 0 < l <= h && 0 <= i < |Level(GraphOf(inner), Top(root), h, l)| ensures InnerPlain(inner, Level(GraphOf(inner), Top(root), h, l)[i].ch) {
      GoodNode(inner, Level(GraphOf(inner), Top(root), h, l), i);
    }
    forall i | 0 <= i < |L| ensures LeafPlain(leaf, L, i) { GoodLeaf(leaf, L, i, KEY_LIMIT); }
  }

  lemma {:induction false} GoodNode(inner: map<Ptr, Inner>, L: seq<IdxEntry>, i: nat)
    requires NodesGood(inner, L) && i < |L|
    ensures InnerPlain(inner, L[i].ch)
  {
  }

  lemma {:induction false} GoodLeaf(leaf: map<Ptr, Leaf>, L: seq<IdxEntry>, i: nat, hi: int)
    requires i < |L| && LeafFits(leaf, L, i, hi) && (i + 1 < |L| ==> LinkedAt(leaf, L, i))
    ensures LeafPlain(leaf, L, i)
  {
    var x := leaf[L[i].ch];
    assert forall j :: 0 <= j < LEAF_KEY_NUM && x.m.bitmap[j] ==> x.ent[j] in Entries(x);
    assert forall e :: e in Entries(x) ==> e in EntriesOf(x);
  }

  /** What is accepted is a tree: of one depth, nothing shared, separators in order, leaves in order and in their ranges. */
  lemma {:induction false} AcceptedTree(inner: map<Ptr, Inner>, leaf: map<Ptr, Leaf>, root: Ptr, h: nat, first: Ptr)
    requires Accepted(inner, leaf, root, h, first) && inner.Keys !! leaf.Keys
    ensures Tree(GraphOf(inner), leaf.Keys, Top(root), h) && Sound(inner, leaf, root, h, first)
    ensures Ascending(LeafList(inner, root, h)) && NoDup(LeafList(inner, root, h))
  {
    hide Accepted, NodesGood, LeafFits, GraphOf, Level, Tree, LevelsGood;
    AcceptedIs(inner, leaf, root, h, first);
    GoodOrdered(leaf, LeafList(inner, root, h), KEY_LIMIT);
    ClosedTree(inner, leaf.Keys, Top(root), h);
  }

  // ---------------------------------------------------------------- the tree between operations

  /** The leaves in memory. */
  function LeafMap(cells: map<Ptr, Cell>): map<Ptr, Leaf> { map p | p in cells && |cells[p].h| > 0 :: cells[p].Now() }

  /** Nodes as the pools hand them out when their start is aligned. */
  predicate Aligned(inner: map<Ptr, Inner>, leaves: set<Ptr>) {
    (forall p :: p in inner ==> p % 64 == 0 && p != NULL) && forall p :: p in leaves ==> p % 256 == 0
  }

  /** Every tree the operations can produce passes, unless its only leaf is empty. */
  lemma {:induction false} StructAccepted(h: nat, root: Ptr, inner: map<Ptr, Inner>, s: State, leaves: set<Ptr>)
    requires Struct(h, root, inner, s, leaves) && LocksAre(inner, {}) && Unlocked(View(s.cells, LeafList(inner, root, h))) && Aligned(inner, leaves)
    ensures Accepted(inner, LeafMap(s.cells), root, h, s.first[|s.first| - 1]) <==> Union(View(s.cells, LeafList(inner, root, h))) != {}
  {
    var L, leaf := LeafList(inner, root, h), LeafMap(s.cells);
    hide Accepted, GraphOf, LeafFits, Level, Tree, Fits, Linked;
    AcceptedIs(inner, leaf, root, h, s.first[|s.first| - 1]);
    forall i | 0 < i <= h ensures NodesGood(inner, Level(GraphOf(inner), Top(root), h, i)) { LevelGood(h, root, inner, s, leaves, i); }
    ListThere(h, root, inner, s, leaves);
    forall i | 0 <= i < |L| ensures LeafFits(leaf, L, i, KEY_LIMIT) <==> EntriesOf(View(s.cells, L)[i]) != {} { LeafRight(h, root, inner, s, leaves, i); }
    forall i | 0 <= i < |L| - 1 ensures LinkedAt(leaf, L, i) { LinkRight(h, root, inner, s, leaves, i); }
    EmptyUnion(View(s.cells, L), h);
  }

  lemma {:induction false} EmptyUnion(Y: seq<Leaf>, h: nat)
    requires h > 0 ==> NonEmpty(Y)
    requires h == 0 ==> |Y| == 1
    requires Y != []
    ensures Union(Y) != {} <==> forall i :: 0 <= i < |Y| ==> EntriesOf(Y[i]) != {}
  {
    hide EntriesOf;
    UnionHas(Y, 0);
    if h == 0 { assert Union(Y) == EntriesOf(Y[0]) + Union(Y[1..]) && Y[1..] == []; }
  }

  lemma {:induction false} LevelGood(h: nat, root: Ptr, inner: map<Ptr, Inner>, s: State, leaves: set<Ptr>, i: nat)
    requires Struct(h, root, inner, s, leaves) && LocksAre(inner, {}) && Aligned(inner, leaves) && 0 < i <= h
    ensures NodesGood(inner, Level(GraphOf(inner), Top(root), h, i))
  {
    TreeLevel(GraphOf(inner), leaves, Top(root), h, i);
    var M := Level(GraphOf(inner), Top(root), h, i);
    forall j | 0 <= j < |M| ensures InnerGood(inner, M[j].ch) { assert M[j].ch in GraphOf(inner); }
  }

  lemma {:induction false} ListThere(h: nat, root: Ptr, inner: map<Ptr, Inner>, s: State, leaves: set<Ptr>)
    requires Struct(h, root, inner, s, leaves)
    ensures var L := LeafList(inner, root, h); L != [] && (h == 0 ==> |L| == 1) && |View(s.cells, L)| == |L| && s.first[|s.first| - 1] == L[0].ch
    ensures h > 0 ==> NonEmpty(View(s.cells, LeafList(inner, root, h)))
  {
    LevelThere(GraphOf(inner), leaves, Top(root), h);
  }

  lemma {:induction false} LevelThere(g: Graph, leaves: set<Ptr>, top: seq<IdxEntry>, h: nat)
    requires Tree(g, leaves, top, h) && top != []
    ensures Level(g, top, h, 0) != []
    decreases h
  {
    if h > 0 {
      FirstKey(g, top);
      LevelThere(g, leaves, ExpandAll(g, top), h - 1);
    }
  }

  lemma {:induction false} LeafRight(h: nat, root: Ptr, inner: map<Ptr, Inner>, s: State, leaves: set<Ptr>, i: nat)
    requires Struct(h, root, inner, s, leaves) && Unlocked(View(s.cells, LeafList(inner, root, h))) && Aligned(inner, leaves)
    requires i < |LeafList(inner, root, h)|
    ensures var L := LeafList(inner, root, h); LeafFits(LeafMap(s.cells), L, i, KEY_LIMIT) <==> EntriesOf(View(s.cells, L)[i]) != {}
  {
    var L := LeafList(inner, root, h);
    var Y, p := View(s.cells, L), L[i].ch;
    TreeLevel(GraphOf(inner), leaves, Top(root), h, 0);
    hide Struct, Tree, NodesOk, Linked, LeafList;
    assert Y[i] == NowAt(s.cells, p) && p in s.cells && LeafOk(Y[i]);
    assert p in LeafMap(s.cells) && LeafMap(s.cells)[p] == Y[i];
    RangeOfLeaf(L, Y, i);
  }

  lemma {:induction false} RangeOfLeaf(L: seq<IdxEntry>, Y: seq<Leaf>, i: nat)
    requires Fits(L, Y) && i < |L|
    ensures InRange(Y[i], L[i].k, if i + 1 < |L| then L[i + 1].k else KEY_LIMIT)
  {
  }

  lemma {:induction false} LinkRight(h: nat, root: Ptr, inner: map<Ptr, Inner>, s: State, leaves: set<Ptr>, i: nat)
    requires Struct(h, root, inner, s, leaves) && i + 1 < |LeafList(inner, root, h)|
    ensures LinkedAt(LeafMap(s.cells), LeafList(inner, root, h), i)
  {
    var L := LeafList(inner, root, h);
    assert View(s.cells, L)[i] == NowAt(s.cells, L[i].ch);
  }

  /** Memory that `check` can visit. */
  lemma {:induction false} StructKnown(h: nat, root: Ptr, inner: map<Ptr, Inner>, s: State, leaves: set<Ptr>, l: nat, p: Ptr)
    requires Struct(h, root, inner, s, leaves) && l <= h && Has(Level(GraphOf(inner), Top(root), h, l), p)
    ensures Known(inner, LeafMap(s.cells), p, l)
    decreases l
  {
    hide Struct, Level, GraphOf, Has, NodeOk, LeafMap;
    if l == 0 {
      StructLeaf(h, root, inner, s, leaves, p);
    } else {
      StructNode(h, root, inner, s, leaves, l, p);
      forall i | 0 <= i <= inner[p].num ensures Known(inner, LeafMap(s.cells), inner[p].ent[i].ch, l - 1) {
        StructKnown(h, root, inner, s, leaves, l - 1, inner[p].ent[i].ch);
      }
    }
  }

  lemma {:induction false} StructLeaf(h: nat, root: Ptr, inner: map<Ptr, Inner>, s: State, leaves: set<Ptr>, p: Ptr)
    requires Struct(h, root, inner, s, leaves) && Has(Level(GraphOf(inner), Top(root), h, 0), p)
    ensures p in LeafMap(s.cells) && LeafMap(s.cells)[p].Shape()
  {
    hide Struct, LeafMap;
    var M := Level(GraphOf(inner), Top(root), h, 0);
    var j :| 0 <= j < |M| && M[j].ch == p;
    LeafShape(h, root, inner, s, leaves, j);
  }

  lemma {:induction false} StructNode(h: nat, root: Ptr, inner: map<Ptr, Inner>, s: State, leaves: set<Ptr>, l: nat, p: Ptr)
    requires Struct(h, root, inner, s, leaves) && 0 < l <= h && Has(Level(GraphOf(inner), Top(root), h, l), p)
    ensures p in inner && |inner[p].ent| == NON_LEAF_KEY_NUM + 1 && 0 <= inner[p].num <= NON_LEAF_KEY_NUM
    ensures forall i :: 0 <= i <= inner[p].num ==> Has(Level(GraphOf(inner), Top(root), h, l - 1), inner[p].ent[i].ch)
  {
    hide Struct, Level, Tree, GraphOf, ExpandAll, Has, NodesOk;
    var g, M := GraphOf(inner), Level(GraphOf(inner), Top(root), h, l);
    StructTree(h, root, inner, s, leaves);
    TreeLevel(g, leaves, Top(root), h, l);
    LevelDown(g, Top(root), h, l - 1);
    HasInner(g, leaves, M, l, p);
    NodeAtGraph(inner, p);
    forall i | 0 <= i <= inner[p].num ensures Has(ExpandAll(g, M), inner[p].ent[i].ch) { KidHas(g, M, p, i); }
  }

  lemma {:induction false} HasInner(g: Graph, leaves: set<Ptr>, M: seq<IdxEntry>, l: nat, p: Ptr)
    requires Tree(g, leaves, M, l) && l > 0 && Has(M, p)
    ensures p in g
  {
  }

  lemma {:induction false} LeafShape(h: nat, root: Ptr, inner: map<Ptr, Inner>, s: State, leaves: set<Ptr>, i: nat)
    requires Struct(h, root, inner, s, leaves) && i < |LeafList(inner, root, h)|
    ensures var p := LeafList(inner, root, h)[i].ch; p in LeafMap(s.cells) && LeafMap(s.cells)[p].Shape()
  {
    var L := LeafList(inner, root, h);
    assert View(s.cells, L)[i] == NowAt(s.cells, L[i].ch) && LeafOk(View(s.cells, L)[i]);
  }
}
