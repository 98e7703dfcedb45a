/** What a crash after a bulkload can lose, and which cache lines have to be written back so that it loses nothing. */
module BulkDurable {
  import opened Types
  import opened LeafNode
  import opened Nvm
  import opened Levels
  import opened TreeSteps
  import opened LeafLevel
  import opened MemoryRun
  import opened Recovery
  import opened TreeView
  import opened TreeState
  import opened Grouping
  import opened BulkTree
  import opened BulkSubtree
  import opened BulkWhole

  // ---------------------------------------------------------------- one leaf

  /** A leaf in memory that has never been used: all bytes zero. */
  function ZeroLeaf(): RawLeaf {
    Leaf(Meta(seq(LEAF_KEY_NUM, _ => false), false, 0, seq(LEAF_KEY_NUM, _ => 0)), seq(LEAF_KEY_NUM, _ => IdxEntry(0, NULL)), [NULL, NULL])
  }

  /** A leaf as bulkload stores it, after the lines `S` have been written back and fenced. */
  function BackedCell(raw: RawLeaf, x: Leaf, S: set<nat>): Cell {
    var w := seq(LINES, c => if c in S then 1 else 0);
    Cell([raw, x], w, w)
  }

  /** It gets there by writing back those lines, and a fence. */
  lemma {:induction false} BackedSteps(raw: RawLeaf, x: Leaf, S: set<nat>) returns (tr: seq<Cell>)
    requires x.Shape()
    ensures Steps(Cell([raw, x], [0, 0, 0, 0], [0, 0, 0, 0]), tr, BackedCell(raw, x, S))
  {
    hide Steps, Leaf.Shape;
    var k0 := Cell([raw, x], [0, 0, 0, 0], [0, 0, 0, 0]);
    var k := k0;
    tr := [];
    NoSteps(k0);
    for c := 0 to LINES
      invariant k.Shape() && k.h == [raw, x] && k.low == [0, 0, 0, 0] && Steps(k0, tr, k)
      invariant forall d :: 0 <= d < LINES ==> k.wb[d] == if d < c && d in S then 1 else 0
    {
      if c in S {
        StepsMore(k0, tr, k, WriteBack(k, c));
        k, tr := WriteBack(k, c), tr + [WriteBack(k, c)];
      }
    }
    StepsMore(k0, tr, k, Fence(k));
    tr := tr + [Fence(k)];
    assert Fence(k) == BackedCell(raw, x, S);
  }

  /** Nothing visible is lost if every other line already looked like the leaf. */
  lemma {:induction false} BackedQuiet(raw: RawLeaf, x: Leaf, S: set<nat>)
    requires LeafOk(x) && 0 in S && forall c :: 1 <= c < LINES && c !in S ==> Like(c, raw, x)
    ensures Quiet(BackedCell(raw, x, S)) && BackedCell(raw, x, S).Now() == x
  {
    var k := BackedCell(raw, x, S);
    LikeSelf(x);
    hide LeafOk;
    forall c | 1 <= c < LINES ensures Window(k, c, x) { }
    assert forall s :: k.low[0] <= s < |k.h| ==> SeenAs(k, s, x);
  }

  /** Line `c` holds something that recovery looks at and that differs from zero. */
  predicate LineShown(x: Leaf, c: nat)
    requires x.Shape()
  {
    c == 0 || (c == 3 && x.NextSibling() != NULL) || SlotShown(x, c)
  }

  predicate SlotShown(x: Leaf, c: nat)
    requires x.Shape()
  {
    exists i :: 0 <= i < LEAF_KEY_NUM && LineOf(i) == c && x.m.bitmap[i] && x.ent[i] != IdxEntry(0, NULL)
  }

  lemma {:induction false} NotShown(x: Leaf, c: nat)
    requires x.Shape() && 1 <= c < LINES && !LineShown(x, c)
    ensures Like(c, ZeroLeaf(), x)
  {
    forall i | 0 <= i < LEAF_KEY_NUM && x.m.bitmap[i] && LineOf(i) == c ensures ZeroLeaf().ent[i] == x.ent[i] { }
  }

  /** The leaf with line `c` as it was. */
  function LineLost(x: Leaf, c: nat): Leaf
    requires x.Shape()
  {
    Leaf(if c == 0 then ZeroLeaf().m else x.m, seq(LEAF_KEY_NUM, i requires 0 <= i < LEAF_KEY_NUM => if LineOf(i) == c then IdxEntry(0, NULL) else x.ent[i]),
         if c == 3 then [NULL, NULL] else x.next)
  }

  lemma {:induction false} LostImage(x: Leaf, c: nat, S: set<nat>)
    requires x.Shape() && c < LINES && c !in S
    ensures CellImage(BackedCell(ZeroLeaf(), x, S), LineLost(x, c))
  {
    var k, y := BackedCell(ZeroLeaf(), x, S), LineLost(x, c);
    forall d | 0 <= d < LINES ensures LineImage(k, d, y) {
      var t := if d == c then 0 else 1;
      assert SameLine(d, y, k.h[t]);
    }
  }

  lemma {:induction false} NowImage(x: Leaf, S: set<nat>)
    requires x.Shape()
    ensures CellImage(BackedCell(ZeroLeaf(), x, S), x)
  {
    var k := BackedCell(ZeroLeaf(), x, S);
    forall d | 0 <= d < LINES ensures LineImage(k, d, x) { assert SameLine(d, x, k.h[1]); }
  }

  /** An entry that is gone from the leaf's image. */
  lemma {:induction false} EntryLost(x: Leaf, c: nat) returns (e: IdxEntry)
    requires LeafOk(x) && c < LINES && Entries(x) != {} && (c == 0 || SlotShown(x, c))
    ensures e in Entries(x) && e !in Entries(LineLost(x, c))
  {
    if c == 0 {
      e :| e in Entries(x);
    } else {
      var i :| 0 <= i < LEAF_KEY_NUM && LineOf(i) == c && x.m.bitmap[i] && x.ent[i] != IdxEntry(0, NULL);
      e := x.ent[i];
      var y := LineLost(x, c);
    }
  }

  // ---------------------------------------------------------------- the whole load

  /** The memory after a load, when the lines `D` of its leaves have been written back and fenced. */
  function Backed(leaf: map<Ptr, Leaf>, raw: map<Ptr, RawLeaf>, D: set<(Ptr, nat)>): map<Ptr, Cell>
    requires leaf.Keys == raw.Keys
  {
    map p | p in leaf :: BackedCell(raw[p], leaf[p], LinesOf(D, p))
  }

  function LinesOf(D: set<(Ptr, nat)>, p: Ptr): set<nat> { set d | d in D && d.0 == p :: d.1 }

  /** Bulkload itself writes back nothing. */
  lemma {:induction false} NothingBacked(leaf: map<Ptr, Leaf>, raw: map<Ptr, RawLeaf>)
    requires leaf.Keys == raw.Keys
    ensures Backed(leaf, raw, {}) == Unflushed(leaf, raw)
  {
    forall p | p in leaf ensures Backed(leaf, raw, {})[p] == Unflushed(leaf, raw)[p] { assert LinesOf({}, p) == {}; }
  }

  /** Everything visible has been written back. */
  ghost predicate ShownBacked(leaf: map<Ptr, Leaf>, raw: map<Ptr, RawLeaf>, P: seq<Ptr>, D: set<(Ptr, nat)>)
    requires leaf.Keys == raw.Keys
  {
    forall j :: 0 <= j < |P| && P[j] in leaf ==> leaf[P[j]].Shape() && (P[j], 0) in D && RestBacked(raw[P[j]], leaf[P[j]], P[j], D)
  }

  ghost predicate RestBacked(raw: RawLeaf, x: Leaf, p: Ptr, D: set<(Ptr, nat)>) {
    forall c :: 1 <= c < LINES && (p, c) !in D ==> Like(c, raw, x)
  }

  lemma {:induction false} LoadedLeafOk(leaf: map<Ptr, Leaf>, P: seq<Ptr>, G: seq<seq<Key>>, j: nat)
    requires LoadedLeaves(leaf, P, G) && j < |P|
    ensures |G| == |P| && P[j] in leaf && LeafOk(leaf[P[j]]) && Entries(leaf[P[j]]) == EntrySet(G[j]) && G[j] != [] && leaf[P[j]].NextSibling() == NextPtr(P, j)
    ensures leaf[P[j]].m.alt == 0 && leaf[P[j]].m.bitmap[LEAF_KEY_NUM - 1] && Entries(leaf[P[j]]) != {}
  {
    hide LeafOk, Entries;
    assert LeafSpot(leaf, P, G, j);
    assert IdxEntry(G[j][0], G[j][0]) in EntrySet(G[j]);
  }

  /** Then the loaded tree is durable: the premise of the crash guarantees of the tree's operations. */
  lemma {:induction false} BackedDurable(leaf: map<Ptr, Leaf>, raw: map<Ptr, RawLeaf>, P: seq<Ptr>, G: seq<seq<Key>>, s: State, D: set<(Ptr, nat)>)
    requires LoadedLeaves(leaf, P, G) && leaf.Keys == raw.Keys && s.cells == Backed(leaf, raw, D) && FirstIs(s, P[0]) && ShownBacked(leaf, raw, P, D)
    ensures forall j :: 0 <= j < |P| ==> P[j] in leaf
    ensures |G| == |P| && Durable(s, Lower(LeafRow(G, P), 0), LeafSeq(leaf, P)) && forall img :: IsImage(s, img) ==> Recovers(img, EntrySet(Flat(G)))
  {
    hide LeafOk, Quiet, BackedCell, LeafRow, Lower, Sorted, NoneEmpty, DistinctPtrs, Fits, Linked, Ascending, NoDup, Union, Recovers, IsImage, Entries, EntrySet, Flat;
    LeavesRight(leaf, P, G);
    LowerPtrs(leaf, P, G);
    hide LeavesAre;
    var L, Y := Lower(LeafRow(G, P), 0), LeafSeq(leaf, P);
    forall j | 0 <= j < |L| ensures QuietAt(s, L, Y, j) {
      LoadedLeafOk(leaf, P, G, j);
      LinesAt(D, P[j]);
      BackedQuiet(raw[P[j]], leaf[P[j]], LinesOf(D, P[j]));
    }
    hide QuietAt;
    DurableRecovers(s, L, Y);
  }

  lemma {:induction false} LinesAt(D: set<(Ptr, nat)>, p: Ptr)
    ensures forall c: nat :: c in LinesOf(D, p) <==> (p, c) in D
  {
    forall c: nat ensures c in LinesOf(D, p) <==> (p, c) in D {
      if (p, c) in D { assert (p, c).1 in LinesOf(D, p); }
    }
  }

  /** In particular after all four lines of every leaf. */
  lemma {:induction false} AllBackedDurable(leaf: map<Ptr, Leaf>, raw: map<Ptr, RawLeaf>, P: seq<Ptr>, G: seq<seq<Key>>, s: State, D: set<(Ptr, nat)>)
    requires LoadedLeaves(leaf, P, G) && leaf.Keys == raw.Keys && s.cells == Backed(leaf, raw, D) && FirstIs(s, P[0])
    requires forall p, c: nat :: p in leaf && 0 <= c < LINES ==> (p, c) in D
    ensures forall j :: 0 <= j < |P| ==> P[j] in leaf
    ensures |G| == |P| && Durable(s, Lower(LeafRow(G, P), 0), LeafSeq(leaf, P)) && forall img :: IsImage(s, img) ==> Recovers(img, EntrySet(Flat(G)))
  {
    hide LeavesAre, Sorted, NoneEmpty, DistinctPtrs, LeafOk, Entries;
    forall j | 0 <= j < |P| && P[j] in leaf ensures leaf[P[j]].Shape() && (P[j], 0) in D && RestBacked(raw[P[j]], leaf[P[j]], P[j], D) {
      LoadedLeafOk(leaf, P, G, j);
      LeafShaped(leaf[P[j]]);
      var p, c: nat := P[j], 0;
      assert p in leaf && (p, c) in D;
    }
    hide LoadedLeaves;
    BackedDurable(leaf, raw, P, G, s, D);
  }

  lemma {:induction false} LeafShaped(x: Leaf)
    requires LeafOk(x)
    ensures x.Shape()
  {
  }

  // ---------------------------------------------------------------- and exactly then

  /** Recovery collects only what the image's leaves hold. */
  lemma {:induction false} WalkOnly(img: Image, p: Ptr, L: seq<Ptr>, C: set<IdxEntry>, e: IdxEntry) returns (q: Ptr)
    requires Walk(img, p, L, C) && e in C
    ensures q in img.leaf && LeafOk(img.leaf[q]) && e in Entries(img.leaf[q])
    decreases |L|
  {
    LeafShaped(img.leaf[p]);
    hide LeafOk, Entries;
    var D :| C == Entries(img.leaf[p]) + D && Walk(img, img.leaf[p].NextSibling(), L[1..], D);
    if e in Entries(img.leaf[p]) { q := p; } else { q := WalkOnly(img, img.leaf[p].NextSibling(), L[1..], D, e); }
  }

  /** The image in which line `c` of leaf `j` has not reached memory and everything else has. */
  function LostIn(leaf: map<Ptr, Leaf>, P: seq<Ptr>, j: nat, c: nat): Image
    requires j < |P| && P[j] in leaf && leaf[P[j]].Shape()
  {
    Image(P[0], leaf[P[j] := LineLost(leaf[P[j]], c)])
  }

  lemma {:induction false} LostInImage(leaf: map<Ptr, Leaf>, P: seq<Ptr>, G: seq<seq<Key>>, s: State, D: set<(Ptr, nat)>, j: nat, c: nat)
    requires LoadedLeaves(leaf, P, G) && s.cells == Backed(leaf, Zeroed(leaf), D) && FirstIs(s, P[0]) && j < |P| && c < LINES && (P[j], c) !in D
    ensures P[j] in leaf && leaf[P[j]].Shape() && IsImage(s, LostIn(leaf, P, j, c))
  {
    hide LeavesAre, Sorted, NoneEmpty, DistinctPtrs, LeafOk, Entries, BackedCell, LineLost, CellImage;
    LoadedLeafOk(leaf, P, G, j);
    LeafShaped(leaf[P[j]]);
    var img := LostIn(leaf, P, j, c);
    assert s.first[s.firstLow..][0] == P[0];
    forall p | p in s.cells ensures CellImage(s.cells[p], img.leaf[p]) {
      var i :| 0 <= i < |P| && P[i] == p;
      LoadedLeafOk(leaf, P, G, i);
      LeafShaped(leaf[p]);
      LinesAt(D, p);
      if p == P[j] { LostImage(leaf[p], c, LinesOf(D, p)); } else { NowImage(leaf[p], LinesOf(D, p)); }
    }
  }

  function Zeroed(leaf: map<Ptr, Leaf>): map<Ptr, RawLeaf> { map p | p in leaf :: ZeroLeaf() }

  /** No other leaf holds an entry of leaf `j`. */
  lemma {:induction false} OnlyIn(leaf: map<Ptr, Leaf>, P: seq<Ptr>, G: seq<seq<Key>>, j: nat, e: IdxEntry, q: Ptr)
    requires LoadedLeaves(leaf, P, G) && j < |P| && P[j] in leaf && leaf[P[j]].Shape() && e in Entries(leaf[P[j]])
    requires q in leaf && leaf[q].Shape() && e in Entries(leaf[q])
    ensures q == P[j]
  {
    hide LeavesAre, Sorted, NoneEmpty, LeafOk, Entries, Flat;
    var i :| 0 <= i < |P| && P[i] == q;
    LoadedLeafOk(leaf, P, G, i);
    LoadedLeafOk(leaf, P, G, j);
    var a :| 0 <= a < |G[i]| && e == IdxEntry(G[i][a], G[i][a]);
    var b :| 0 <= b < |G[j]| && e == IdxEntry(G[j][b], G[j][b]);
    if i < j { GroupsApart(G, i, j, a, b); }
    if j < i { GroupsApart(G, j, i, b, a); }
  }

  lemma {:induction false} EntryOfLoad(leaf: map<Ptr, Leaf>, P: seq<Ptr>, G: seq<seq<Key>>, j: nat, e: IdxEntry)
    requires LoadedLeaves(leaf, P, G) && j < |P| && P[j] in leaf && leaf[P[j]].Shape() && e in Entries(leaf[P[j]])
    ensures e in EntrySet(Flat(G))
  {
    hide LeavesAre, Sorted, NoneEmpty, DistinctPtrs, LeafOk, Entries, Flat;
    LoadedLeafOk(leaf, P, G, j);
    var b :| 0 <= b < |G[j]| && e == IdxEntry(G[j][b], G[j][b]);
    FlatAt(G, j, b);
    assert Flat(G)[Offset(G, j) + b] == G[j][b];
  }

  /** A lost header or slot loses an entry. */
  lemma {:induction false} SlotLost(leaf: map<Ptr, Leaf>, P: seq<Ptr>, G: seq<seq<Key>>, j: nat, c: nat)
    requires LoadedLeaves(leaf, P, G) && j < |P| && c < LINES && P[j] in leaf && leaf[P[j]].Shape() && (c == 0 || SlotShown(leaf[P[j]], c))
    ensures !Recovers(LostIn(leaf, P, j, c), EntrySet(Flat(G)))
  {
    hide LeavesAre, Sorted, NoneEmpty, DistinctPtrs, LeafOk, Entries, Flat, LineLost, SlotShown, Walk;
    LoadedLeafOk(leaf, P, G, j);
    var img := LostIn(leaf, P, j, c);
    var e := EntryLost(leaf[P[j]], c);
    EntryOfLoad(leaf, P, G, j, e);
    hide LoadedLeaves;
    if L :| Walk(img, img.first, L, EntrySet(Flat(G))) {
      var q := WalkOnly(img, img.first, L, EntrySet(Flat(G)), e);
      LeafShaped(img.leaf[q]);
      if q != P[j] { OnlyIn(leaf, P, G, j, e, q); }
    }
  }

  /** A line that holds slot 13 and a sibling pointer, yet no entry but the zero one: the first leaf's. */
  lemma {:induction false} OnlyZero(leaf: map<Ptr, Leaf>, P: seq<Ptr>, G: seq<seq<Key>>, j: nat)
    requires LoadedLeaves(leaf, P, G) && j < |P| && P[j] in leaf && leaf[P[j]].Shape() && leaf[P[j]].NextSibling() != NULL && !SlotShown(leaf[P[j]], 3)
    ensures j == 0 && |P| > 1
  {
    hide LeavesAre, NoneEmpty, DistinctPtrs, LeafOk, Sorted, Flat;
    LoadedLeafOk(leaf, P, G, j);
    var x := leaf[P[j]];
    assert x.ent[LEAF_KEY_NUM - 1] == IdxEntry(0, NULL) && x.ent[LEAF_KEY_NUM - 1] in Entries(x);
    var b :| 0 <= b < |G[j]| && G[j][b] == 0;
    if j > 0 {
      LoadedLeafOk(leaf, P, G, 0);
      GroupsApart(G, 0, j, 0, b);
    }
  }

  /** Without its sibling pointer the first leaf is all that recovery finds. */
  lemma {:induction false} StopsThere(img: Image, x: Leaf, L: seq<Ptr>, C: set<IdxEntry>)
    requires x.Shape() && img.first in img.leaf && img.leaf[img.first] == LineLost(x, 3) && img.first != NULL && Walk(img, img.first, L, C) && !SlotShown(x, 3)
    ensures C <= Entries(x)
  {
    var y := LineLost(x, 3);
    hide LeafOk;
    var D :| C == Entries(y) + D && Walk(img, y.NextSibling(), L[1..], D);
    assert y.NextSibling() == NULL && D == {};
    forall e | e in Entries(y) ensures e in Entries(x) {
      var i :| 0 <= i < LEAF_KEY_NUM && y.m.bitmap[i] && y.ent[i] == e;
      assert x.m.bitmap[i] && x.ent[i] == e;
    }
  }

  /** So does a lost sibling pointer. */
  lemma {:induction false} PointerLost(leaf: map<Ptr, Leaf>, P: seq<Ptr>, G: seq<seq<Key>>, j: nat)
    requires LoadedLeaves(leaf, P, G) && j < |P| && P[j] in leaf && leaf[P[j]].Shape() && leaf[P[j]].NextSibling() != NULL && !SlotShown(leaf[P[j]], 3)
    ensures !Recovers(LostIn(leaf, P, j, 3), EntrySet(Flat(G)))
  {
    OnlyZero(leaf, P, G, j);
    assert P[0] != P[1] && P[0] in leaf && P[0] != NULL;
    hide LeavesAre, Sorted, NoneEmpty, DistinctPtrs, LeafOk, Entries, Flat, SlotShown, Walk, LineLost;
    var img, x := LostIn(leaf, P, 0, 3), leaf[P[0]];
    LoadedLeafOk(leaf, P, G, 1);
    LeafShaped(leaf[P[1]]);
    var e :| e in Entries(leaf[P[1]]);
    EntryOfLoad(leaf, P, G, 1, e);
    if L :| Walk(img, img.first, L, EntrySet(Flat(G))) {
      StopsThere(img, x, L, EntrySet(Flat(G)));
      OnlyIn(leaf, P, G, 1, e, P[0]);
    }
  }

  /**
   * On memory that was zero before the load: whatever a crash leaves, the input is recovered, exactly if every line that holds something
   * visible has been written back. Bulkload itself writes back none of them, so until then a crash can lose the load.
   */
  lemma {:induction false} LoadedDurableIff(leaf: map<Ptr, Leaf>, P: seq<Ptr>, G: seq<seq<Key>>, s: State, D: set<(Ptr, nat)>)
    requires LoadedLeaves(leaf, P, G) && s.cells == Backed(leaf, Zeroed(leaf), D) && FirstIs(s, P[0])
    ensures forall j :: 0 <= j < |P| ==> P[j] in leaf && leaf[P[j]].Shape()
    ensures (forall img :: IsImage(s, img) ==> Recovers(img, EntrySet(Flat(G)))) <==>
      forall j, c: nat :: 0 <= j < |P| && c < LINES && LineShown(leaf[P[j]], c) ==> (P[j], c) in D
  {
    hide LeavesAre, Sorted, NoneEmpty, DistinctPtrs, LeafOk, Entries, Flat, Recovers, IsImage, Backed, LineShown;
    forall j | 0 <= j < |P| ensures P[j] in leaf && leaf[P[j]].Shape() {
      LoadedLeafOk(leaf, P, G, j);
      LeafShaped(leaf[P[j]]);
    }
    if j, c: nat :| 0 <= j < |P| && c < LINES && LineShown(leaf[P[j]], c) && (P[j], c) !in D {
      LostInImage(leaf, P, G, s, D, j, c);
      LineLostThere(leaf, P, G, j, c);
    } else {
      ShownAreBacked(leaf, P, G, D);
      hide LoadedLeaves;
      BackedDurable(leaf, Zeroed(leaf), P, G, s, D);
    }
  }

  lemma {:induction false} LineLostThere(leaf: map<Ptr, Leaf>, P: seq<Ptr>, G: seq<seq<Key>>, j: nat, c: nat)
    requires LoadedLeaves(leaf, P, G) && j < |P| && P[j] in leaf && leaf[P[j]].Shape() && c < LINES && LineShown(leaf[P[j]], c)
    ensures !Recovers(LostIn(leaf, P, j, c), EntrySet(Flat(G)))
  {
    hide LoadedLeaves, LeafOk, Entries, Flat, Recovers, SlotShown;
    if c == 0 || SlotShown(leaf[P[j]], c) { SlotLost(leaf, P, G, j, c); } else { PointerLost(leaf, P, G, j); }
  }

  lemma {:induction false} ShownAreBacked(leaf: map<Ptr, Leaf>, P: seq<Ptr>, G: seq<seq<Key>>, D: set<(Ptr, nat)>)
    requires forall j :: 0 <= j < |P| ==> P[j] in leaf && leaf[P[j]].Shape()
    requires forall j, c: nat :: 0 <= j < |P| && c < LINES && LineShown(leaf[P[j]], c) ==> (P[j], c) in D
    ensures ShownBacked(leaf, Zeroed(leaf), P, D)
  {
    forall j | 0 <= j < |P| ensures (P[j], 0) in D && RestBacked(ZeroLeaf(), leaf[P[j]], P[j], D) {
      assert LineShown(leaf[P[j]], 0);
      hide LineShown, Like;
      forall c | 1 <= c < LINES && (P[j], c) !in D ensures Like(c, ZeroLeaf(), leaf[P[j]]) { NotShown(leaf[P[j]], c); }
    }
  }

  // ---------------------------------------------------------------- the tree after a load

  /** On memory that was zero, a crash right after bulkload can lose entries. */
  lemma {:induction false} LoadNotDurable(s: State, keys: seq<Key>, mem: LoadMem)
    requires LoadIs(s, keys, mem) && mem.raw == Zeroed(mem.leaf)
    ensures exists img :: IsImage(s, img) && !Recovers(img, EntrySet(keys))
  {
    hide LoadedLeaves, LeafOk, Entries, Flat, Recovers, IsImage, Backed, Unflushed;
    NothingBacked(mem.leaf, mem.raw);
    LoadedDurableIff(mem.leaf, mem.P, mem.G, s, {});
    assert mem.P != [] by { LoadNotEmpty(mem); }
    assert LineShown(mem.leaf[mem.P[0]], 0) && (mem.P[0], 0) !in {};
  }

  lemma {:induction false} LoadNotEmpty(mem: LoadMem)
    requires LoadedLeaves(mem.leaf, mem.P, mem.G)
    ensures mem.P != []
  {
  }

  /** The leaf list of a tree on loaded memory is the load's. */
  lemma {:induction false} ChainIs(s: State, keys: seq<Key>, mem: LoadMem, L: seq<IdxEntry>, i: nat)
    requires LoadIs(s, keys, mem) && Linked(L, View(s.cells, L)) && PtrAt(L, 0) == mem.P[0] && (forall j :: 0 <= j < |L| ==> L[j].ch != NULL) && i < |L|
    ensures i < |mem.P| && L[i].ch == mem.P[i] && PtrAt(L, i + 1) == NextPtr(mem.P, i)
    decreases i
  {
    hide LoadedLeaves, LeafOk, Entries, Flat;
    LoadNotEmpty(mem);
    if i > 0 { ChainIs(s, keys, mem, L, i - 1); }
    LoadedLeafOk(mem.leaf, mem.P, mem.G, i);
    assert View(s.cells, L)[i] == mem.leaf[mem.P[i]];
  }

  lemma {:induction false} WholeChain(s: State, keys: seq<Key>, mem: LoadMem, L: seq<IdxEntry>)
    requires LoadIs(s, keys, mem) && Linked(L, View(s.cells, L)) && PtrAt(L, 0) == mem.P[0] && (forall j :: 0 <= j < |L| ==> L[j].ch != NULL)
    ensures |L| == |mem.P| && forall i :: 0 <= i < |L| ==> L[i].ch == mem.P[i]
  {
    LoadNotEmpty(mem);
    assert mem.P[0] in mem.leaf && mem.P[0] != NULL;
    hide LoadIs, Linked, View;
    forall i | 0 <= i < |L| ensures i < |mem.P| && L[i].ch == mem.P[i] { ChainIs(s, keys, mem, L, i); }
    var n := |L| - 1;
    ChainIs(s, keys, mem, L, n);
    LoadsApart(s, keys, mem);
  }

  lemma {:induction false} LoadsApart(s: State, keys: seq<Key>, mem: LoadMem)
    requires LoadIs(s, keys, mem)
    ensures forall j :: 0 <= j < |mem.P| ==> mem.P[j] != NULL
  {
    assert forall j :: 0 <= j < |mem.P| ==> mem.P[j] in mem.leaf;
  }

  /**
   * A loaded tree becomes durable when every line that holds something visible is written back and fenced, on whatever memory; then
   * the crash guarantees of `insert` and `del` apply to it.
   */
  lemma {:induction false} BackedTree(h: nat, root: Ptr, inner: map<Ptr, Inner>, leaves: set<Ptr>, s0: State, s: State, keys: seq<Key>, mem: LoadMem, D: set<(Ptr, nat)>)
    requires Struct(h, root, inner, s0, leaves) && LoadIs(s0, keys, mem) && s == s0.(cells := Backed(mem.leaf, mem.raw, D)) && ShownBacked(mem.leaf, mem.raw, mem.P, D)
    ensures var L := LeafList(inner, root, h);
      Struct(h, root, inner, s, leaves) && View(s.cells, L) == View(s0.cells, L) && Durable(s, L, View(s.cells, L))
  {
    hide Tree, LeafList, BackedCell, LoadedLeaves, Durable, ShownBacked, Fits, Linked, Quiet, LeafOk, Struct, LoadIs, Backed, LeavesOk, View, LeavesAre, Recovers, IsImage, Unflushed,
      EntrySet, Flat, LeafRow, Lower, NodesOk;
    var L := LeafList(inner, root, h);
    ChainFacts(h, root, inner, s0, leaves, keys, mem);
    WholeChain(s0, keys, mem, L);
    LoadParts(s0, keys, mem);
    BackedDurable(mem.leaf, mem.raw, mem.P, mem.G, s, D);
    LowerPtrs(mem.leaf, mem.P, mem.G);
    DurableThere(s, Lower(LeafRow(mem.G, mem.P), 0), L, LeafSeq(mem.leaf, mem.P));
    BackedView(s0, s, mem, L, D);
    LoadShapes(mem);
    StructBacked(h, root, inner, s0, s, leaves, mem, D);
  }

  lemma {:induction false} LoadShapes(mem: LoadMem)
    requires LoadedLeaves(mem.leaf, mem.P, mem.G)
    ensures forall p :: p in mem.leaf ==> mem.leaf[p].Shape()
  {
    forall p | p in mem.leaf ensures mem.leaf[p].Shape() {
      var j :| 0 <= j < |mem.P| && mem.P[j] == p;
      hide LoadedLeaves;
      LoadedLeafOk(mem.leaf, mem.P, mem.G, j);
    }
  }

  lemma {:induction false} LoadParts(s: State, keys: seq<Key>, mem: LoadMem)
    requires LoadIs(s, keys, mem)
    ensures LoadedLeaves(mem.leaf, mem.P, mem.G) && mem.leaf.Keys == mem.raw.Keys && mem.P != [] && s.cells == Unflushed(mem.leaf, mem.raw) && FirstIs(s, mem.P[0])
  {
  }

  lemma {:induction false} LowerPtrs(leaf: map<Ptr, Leaf>, P: seq<Ptr>, G: seq<seq<Key>>)
    requires LoadedLeaves(leaf, P, G)
    ensures |G| == |P| && |Lower(LeafRow(G, P), 0)| == |P| && forall j :: 0 <= j < |P| ==> Lower(LeafRow(G, P), 0)[j].ch == P[j]
  {
    LeavesRight(leaf, P, G);
  }

  /** Only the addresses of the list matter. */
  lemma {:induction false} DurableThere(s: State, M: seq<IdxEntry>, L: seq<IdxEntry>, Y: seq<Leaf>)
    requires Durable(s, M, Y) && |L| == |M| && forall i :: 0 <= i < |L| ==> L[i].ch == M[i].ch
    ensures Durable(s, L, Y)
  {
    hide Quiet;
    forall i | 0 <= i < |L| ensures QuietAt(s, L, Y, i) { assert QuietAt(s, M, Y, i); }
  }

  lemma {:induction false} ChainFacts(h: nat, root: Ptr, inner: map<Ptr, Inner>, s: State, leaves: set<Ptr>, keys: seq<Key>, mem: LoadMem)
    requires Struct(h, root, inner, s, leaves) && LoadIs(s, keys, mem)
    ensures var L := LeafList(inner, root, h); Linked(L, View(s.cells, L)) && mem.P != [] && PtrAt(L, 0) == mem.P[0] && forall j :: 0 <= j < |L| ==> L[j].ch != NULL
  {
    ChainOrdered(h, root, inner, s, leaves);
    LeavesParts(s, LeafList(inner, root, h), h);
    hide LoadedLeaves, LeavesOk, Linked, Fits, View, LeafList;
    LoadNotEmpty(mem);
  }

  lemma {:induction false} BackedView(s0: State, s: State, mem: LoadMem, L: seq<IdxEntry>, D: set<(Ptr, nat)>)
    requires mem.leaf.Keys == mem.raw.Keys && s0.cells == Unflushed(mem.leaf, mem.raw) && s.cells == Backed(mem.leaf, mem.raw, D)
    requires |L| == |mem.P| && (forall i :: 0 <= i < |L| ==> L[i].ch == mem.P[i]) && forall j :: 0 <= j < |mem.P| ==> mem.P[j] in mem.leaf
    ensures View(s.cells, L) == LeafSeq(mem.leaf, mem.P) == View(s0.cells, L)
  {
  }

  lemma {:induction false} StructBacked(h: nat, root: Ptr, inner: map<Ptr, Inner>, s0: State, s: State, leaves: set<Ptr>, mem: LoadMem, D: set<(Ptr, nat)>)
    requires Struct(h, root, inner, s0, leaves) && mem.leaf.Keys == mem.raw.Keys && s0.cells == Unflushed(mem.leaf, mem.raw) && s == s0.(cells := Backed(mem.leaf, mem.raw, D))
    requires View(s.cells, LeafList(inner, root, h)) == View(s0.cells, LeafList(inner, root, h)) && forall p :: p in mem.leaf ==> mem.leaf[p].Shape()
    ensures Struct(h, root, inner, s, leaves)
  {
    hide Tree, View, Fits, Linked, LeafList, NonEmpty, NodesOk, Leaf.Shape;
    forall p | p in s.cells ensures s.cells[p].Shape() && s.cells[p].wb == s.cells[p].low { BackedShape(mem.raw[p], mem.leaf[p], LinesOf(D, p)); }
  }

  lemma {:induction false} BackedShape(raw: RawLeaf, x: Leaf, S: set<nat>)
    requires x.Shape()
    ensures var k := BackedCell(raw, x, S); k.Shape() && k.wb == k.low
  {
  }

  /** The first `i` leaves have been written back. */
  function BackedTo(mem: LoadMem, D: set<(Ptr, nat)>, i: nat): map<Ptr, Cell>
    requires mem.leaf.Keys == mem.raw.Keys && i <= |mem.P|
  {
    map p | p in mem.leaf :: BackedCell(mem.raw[p], mem.leaf[p], if p in mem.P[..i] then LinesOf(D, p) else {})
  }

  /** The memory gets from the load to the state `BackedTree` speaks of by write-backs and fences only. */
  lemma {:induction false} BackedRun(s0: State, keys: seq<Key>, mem: LoadMem, D: set<(Ptr, nat)>) returns (tr: seq<State>)
    requires LoadIs(s0, keys, mem)
    ensures mem.leaf.Keys == mem.raw.Keys && Run(s0, tr, s0.(cells := Backed(mem.leaf, mem.raw, D)))
  {
    hide LoadedLeaves, LoadIs, Run, BackedTo, Backed, Unflushed;
    LoadParts(s0, keys, mem);
    tr := BackedRunTo(s0, keys, mem, D, |mem.P|);
    AllBackedTo(mem, D);
  }

  lemma {:induction false} BackedRunTo(s0: State, keys: seq<Key>, mem: LoadMem, D: set<(Ptr, nat)>, i: nat) returns (tr: seq<State>)
    requires LoadIs(s0, keys, mem) && i <= |mem.P|
    ensures mem.leaf.Keys == mem.raw.Keys && Run(s0, tr, s0.(cells := BackedTo(mem, D, i)))
    decreases i
  {
    hide LoadedLeaves, LoadIs, Run, Steps, BackedCell, BackedTo, Unflushed;
    LoadParts(s0, keys, mem);
    if i == 0 {
      NoneBacked(s0, mem, D);
      tr := [];
    } else {
      var j := i - 1;
      tr := BackedRunTo(s0, keys, mem, D, j);
      var s1, p := s0.(cells := BackedTo(mem, D, j)), mem.P[j];
      LoadedLeafOk(mem.leaf, mem.P, mem.G, j);
      LeafShaped(mem.leaf[p]);
      BackedNext(mem, D, j);
      var steps := BackedSteps(mem.raw[p], mem.leaf[p], LinesOf(D, p));
      LiftRun(s1, p, steps, BackedCell(mem.raw[p], mem.leaf[p], LinesOf(D, p)));
      RunJoin(s0, tr, s1, Lift(s1, p, steps), Put(s1, p, BackedCell(mem.raw[p], mem.leaf[p], LinesOf(D, p))));
      tr := tr + Lift(s1, p, steps);
    }
  }

  lemma {:induction false} NoneBacked(s0: State, mem: LoadMem, D: set<(Ptr, nat)>)
    requires mem.leaf.Keys == mem.raw.Keys && s0.cells == Unflushed(mem.leaf, mem.raw)
    ensures Run(s0, [], s0.(cells := BackedTo(mem, D, 0)))
  {
    hide BackedCell;
    forall p | p in mem.leaf ensures BackedTo(mem, D, 0)[p] == Unflushed(mem.leaf, mem.raw)[p] { NoLines(mem.raw[p], mem.leaf[p]); }
    assert BackedTo(mem, D, 0) == Unflushed(mem.leaf, mem.raw);
  }

  lemma {:induction false} NoLines(raw: RawLeaf, x: Leaf)
    ensures BackedCell(raw, x, {}) == Cell([raw, x], [0, 0, 0, 0], [0, 0, 0, 0])
  {
  }

  lemma {:induction false} BackedNext(mem: LoadMem, D: set<(Ptr, nat)>, j: nat)
    requires mem.leaf.Keys == mem.raw.Keys && j < |mem.P| && LoadedLeaves(mem.leaf, mem.P, mem.G)
    ensures var p := mem.P[j]; p in mem.leaf && p in BackedTo(mem, D, j) && BackedTo(mem, D, j)[p] == Cell([mem.raw[p], mem.leaf[p]], [0, 0, 0, 0], [0, 0, 0, 0])
    ensures var p := mem.P[j]; BackedTo(mem, D, j + 1) == BackedTo(mem, D, j)[p := BackedCell(mem.raw[p], mem.leaf[p], LinesOf(D, p))]
  {
    var p, P := mem.P[j], mem.P;
    NextListed(P, j);
    assert p in mem.leaf;
    NoLines(mem.raw[p], mem.leaf[p]);
    hide BackedCell, LinesOf, LoadedLeaves;
    var A, B := BackedTo(mem, D, j + 1), BackedTo(mem, D, j)[p := BackedCell(mem.raw[p], mem.leaf[p], LinesOf(D, p))];
    assert A.Keys == B.Keys;
    forall q | q in A ensures A[q] == B[q] { }
  }

  lemma {:induction false} NextListed(P: seq<Ptr>, j: nat)
    requires DistinctPtrs(P) && j < |P|
    ensures P[j] !in P[..j] && forall q :: q in P[..j + 1] <==> q in P[..j] || q == P[j]
  {
    assert P[..j + 1] == P[..j] + [P[j]];
  }

  lemma {:induction false} AllBackedTo(mem: LoadMem, D: set<(Ptr, nat)>)
    requires mem.leaf.Keys == mem.raw.Keys && LoadedLeaves(mem.leaf, mem.P, mem.G)
    ensures BackedTo(mem, D, |mem.P|) == Backed(mem.leaf, mem.raw, D)
  {
    hide LeavesAre, Sorted, NoneEmpty, BackedCell, LinesOf;
    assert mem.P[..|mem.P|] == mem.P;
    forall p | p in mem.leaf ensures p in mem.P { var j :| 0 <= j < |mem.P| && mem.P[j] == p; }
  }
}
