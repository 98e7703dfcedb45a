/**
 * Leaf memory with a persistency model.
 *
 * A leaf occupies four 64-byte lines: header and slots 0-2, slots 3-6, slots 7-10, slots 11-13 and
 * the sibling pointers. Every 8-byte store appends one volatile state to the leaf's history. After a
 * crash each line independently shows the line as it was at some point of that history, no older than
 * the last fenced write-back of the line.
 */
module Nvm {
  import opened Types
  import opened LeafNode

  const LINES: nat := 4

  function LineOf(slot: nat): nat {
    if slot < 3 then 0 else if slot < 7 then 1 else if slot < 11 then 2 else 3
  }

  /** `last_slot_in_line` */
  function LastSlotInLine(slot: nat): nat {
    if slot < 3 then 2 else if slot < 7 then 6 else if slot < 11 then 10 else 13
  }

  /** After a header of 16 bytes each slot takes 16 bytes; the lines have 64. */
  lemma {:induction false} SlotLines(slot: nat)
    requires slot < LEAF_KEY_NUM
    ensures LineOf(slot) == (16 + 16 * slot) / 64
    ensures slot <= LastSlotInLine(slot) < LEAF_KEY_NUM && forall i :: 0 <= i < LEAF_KEY_NUM ==> (slot <= i <= LastSlotInLine(slot) <==> slot <= i && LineOf(i) == LineOf(slot))
  {
  }

  /**
   * A leaf in memory: all its volatile states in program order, for each line the oldest state
   * whose line may still be what a crash leaves, and the state each issued write-back covers.
   */
  datatype Cell = Cell(h: seq<Leaf>, low: seq<nat>, wb: seq<nat>) {
    predicate Shape() {
      && |h| > 0 && |low| == LINES && |wb| == LINES
      && (forall c :: 0 <= c < LINES ==> low[c] <= wb[c] < |h|)
      && (forall t :: 0 <= t < |h| ==> h[t].Shape())
    }

    function Now(): Leaf
      requires |h| > 0
    {
      h[|h| - 1]
    }
  }

  predicate SameLine(c: nat, x: Leaf, y: Leaf)
    requires x.Shape() && y.Shape()
  {
    && (c == 0 ==> x.m == y.m)
    && (c == 3 ==> x.next == y.next)
    && (forall i :: 0 <= i < LEAF_KEY_NUM && LineOf(i) == c ==> x.ent[i] == y.ent[i])
  }

  /** What a crash may leave of line `c`: the line as of some state in its window. */
  predicate LineImage(k: Cell, c: nat, x: Leaf)
    requires k.Shape() && x.Shape() && c < LINES
  {
    exists t :: k.low[c] <= t < |k.h| && SameLine(c, x, k.h[t])
  }

  ghost predicate CellImage(k: Cell, x: Leaf) {
    k.Shape() && x.Shape() && forall c :: 0 <= c < LINES ==> LineImage(k, c, x)
  }

  // ---------------------------------------------------------------- the memory

  /** The NVM content: leaves, and the history of the `first_leaf` word with its window like a line's. */
  datatype State = State(cells: map<Ptr, Cell>, first: seq<Ptr>, firstLow: nat, firstWb: nat) {
    predicate Shape() {
      (forall p :: p in cells ==> cells[p].Shape()) && firstLow <= firstWb < |first|
    }
  }

  /** What recovery finds after a crash. */
  datatype Image = Image(first: Ptr, leaf: map<Ptr, Leaf>)

  ghost predicate IsImage(s: State, img: Image) {
    && img.leaf.Keys == s.cells.Keys
    && s.firstLow <= |s.first| && img.first in s.first[s.firstLow..]
    && forall p :: p in s.cells ==> CellImage(s.cells[p], img.leaf[p])
  }

  /** Following the live sibling pointers from `p` visits `L` and collects `C`. */
  ghost predicate Walk(img: Image, p: Ptr, L: seq<Ptr>, C: set<IdxEntry>)
    decreases |L|
  {
    if L == [] then p == NULL && C == {}
    else
      && p == L[0] && p != NULL && p in img.leaf && LeafOk(img.leaf[p])
      && exists D :: C == Entries(img.leaf[p]) + D && Walk(img, img.leaf[p].NextSibling(), L[1..], D)
  }

  /** Recovery from the image finds exactly the entries `C`. */
  ghost predicate Recovers(img: Image, C: set<IdxEntry>) {
    exists L :: Walk(img, img.first, L, C)
  }

  /** Recovery is a function of the image. */
  lemma {:induction false} WalkUnique(img: Image, p: Ptr, L: seq<Ptr>, C: set<IdxEntry>, M: seq<Ptr>, D: set<IdxEntry>)
    requires Walk(img, p, L, C) && Walk(img, p, M, D)
    ensures L == M && C == D
    decreases |L|
  {
    if L != [] {
      var C' :| C == Entries(img.leaf[p]) + C' && Walk(img, img.leaf[p].NextSibling(), L[1..], C');
      var D' :| D == Entries(img.leaf[p]) + D' && Walk(img, img.leaf[p].NextSibling(), M[1..], D');
      WalkUnique(img, img.leaf[p].NextSibling(), L[1..], C', M[1..], D');
      assert L == [p] + L[1..] && M == [p] + M[1..];
    }
  }

  lemma {:induction false} RecoversUnique(img: Image, C: set<IdxEntry>, D: set<IdxEntry>)
    requires Recovers(img, C) && Recovers(img, D)
    ensures C == D
  {
    var L :| Walk(img, img.first, L, C);
    var M :| Walk(img, img.first, M, D);
    WalkUnique(img, img.first, L, C, M, D);
  }

  /** However the crash falls, recovery finds one of the two contents. */
  ghost predicate CrashSafe(s: State, C: set<IdxEntry>, D: set<IdxEntry>) {
    forall img :: IsImage(s, img) ==> Recovers(img, C) || Recovers(img, D)
  }

  // ---------------------------------------------------------------- what images of one leaf show

  /** Recovery sees `x` as it would see `y`: same entries, same live sibling. */
  predicate Obs(x: Leaf, y: Leaf) {
    LeafOk(x) && LeafOk(y) && Entries(x) == Entries(y) && x.NextSibling() == y.NextSibling()
  }

  /** Line `c` of `x` agrees with `y` wherever `y` is visible: header, valid slots, live sibling pointer. */
  predicate Like(c: nat, x: Leaf, y: Leaf) {
    && x.Shape() && y.Shape()
    && (c == 0 ==> x.m.bitmap == y.m.bitmap && x.m.alt == y.m.alt
                   && forall i :: 0 <= i < LEAF_KEY_NUM && y.m.bitmap[i] ==> x.m.fgpt[i] == y.m.fgpt[i])
    && (c == 3 ==> x.next[y.m.alt] == y.next[y.m.alt])
    && forall i :: 0 <= i < LEAF_KEY_NUM && y.m.bitmap[i] && LineOf(i) == c ==> x.ent[i] == y.ent[i]
  }

  /** So does everything that may persist of line `c`. */
  predicate Window(k: Cell, c: nat, y: Leaf)
    requires k.Shape() && c < LINES
  {
    forall t :: k.low[c] <= t < |k.h| ==> Like(c, k.h[t], y)
  }

  predicate RestLike(k: Cell, y: Leaf)
    requires k.Shape()
  {
    Window(k, 1, y) && Window(k, 2, y) && Window(k, 3, y)
  }

  /** If the header of state `s` persists, the leaf looks like `y`. */
  predicate SeenAs(k: Cell, s: nat, y: Leaf)
    requires k.Shape() && s < |k.h|
  {
    Like(0, k.h[s], y) && RestLike(k, y)
  }

  /** Whatever persists of the leaf looks like `y` or like `z`. */
  predicate CellSafe(k: Cell, y: Leaf, z: Leaf) {
    && k.Shape() && LeafOk(y) && LeafOk(z)
    && forall s :: k.low[0] <= s < |k.h| ==> SeenAs(k, s, y) || SeenAs(k, s, z)
  }

  /** Nothing visible is still on its way to memory. */
  predicate Quiet(k: Cell) {
    k.Shape() && k.wb == k.low && CellSafe(k, k.Now(), k.Now())
  }

  lemma {:induction false} ImageLike(k: Cell, x: Leaf, y: Leaf, s: nat)
    requires k.Shape() && CellImage(k, x) && LeafOk(y)
    requires k.low[0] <= s < |k.h| && SameLine(0, x, k.h[s]) && SeenAs(k, s, y)
    ensures Obs(x, y)
  {
    forall i | 0 <= i < LEAF_KEY_NUM && y.m.bitmap[i] ensures x.ent[i] == y.ent[i] {
      var c := LineOf(i);
      assert LineImage(k, c, x);
      var t :| k.low[c] <= t < |k.h| && SameLine(c, x, k.h[t]);
      assert c != 0 ==> Window(k, c, y) && Like(c, k.h[t], y);
    }
    assert LineImage(k, 3, x);
    var t :| k.low[3] <= t < |k.h| && SameLine(3, x, k.h[t]);
    assert Window(k, 3, y) && Like(3, k.h[t], y);
    assert Entries(x) == Entries(y);
  }

  /** A crash shows a safe leaf as one of its two versions. */
  lemma {:induction false} ImageObs(k: Cell, x: Leaf, y: Leaf, z: Leaf)
    requires CellSafe(k, y, z) && CellImage(k, x)
    ensures Obs(x, y) || Obs(x, z)
  {
    assert LineImage(k, 0, x);
    var s :| k.low[0] <= s < |k.h| && SameLine(0, x, k.h[s]);
    if SeenAs(k, s, y) {
      ImageLike(k, x, y, s);
    } else {
      ImageLike(k, x, z, s);
    }
  }

  /** Whatever a crash leaves of the leaf, recovery sees `y` or `z`. */
  ghost predicate Shows(k: Cell, y: Leaf, z: Leaf) {
    k.Shape() && forall x :: CellImage(k, x) ==> Obs(x, y) || Obs(x, z)
  }

  lemma {:induction false} SafeShows(k: Cell, y: Leaf, z: Leaf)
    requires CellSafe(k, y, z)
    ensures Shows(k, y, z)
  {
    forall x | CellImage(k, x) ensures Obs(x, y) || Obs(x, z) { ImageObs(k, x, y, z); }
  }

  // ---------------------------------------------------------------- how stores and write-backs act on one leaf

  function Append(k: Cell, x: Leaf): Cell { k.(h := k.h + [x]) }

  function WriteBack(k: Cell, c: nat): Cell
    requires c < |k.wb| && |k.h| > 0
  {
    k.(wb := k.wb[c := |k.h| - 1])
  }

  function Fence(k: Cell): Cell { k.(low := k.wb) }

  predicate AllLike(x: Leaf, y: Leaf) {
    Like(0, x, y) && Like(1, x, y) && Like(2, x, y) && Like(3, x, y)
  }

  lemma {:induction false} WindowAppend(k: Cell, c: nat, x: Leaf, y: Leaf)
    requires k.Shape() && c < LINES && Window(k, c, y) && Like(c, x, y)
    ensures Append(k, x).Shape() && Window(Append(k, x), c, y)
  {
    var k' := Append(k, x);
    forall t | 0 <= t < |k'.h| ensures k'.h[t].Shape() && (k'.low[c] <= t ==> Like(c, k'.h[t], y)) {
      assert t < |k.h| ==> k'.h[t] == k.h[t];
    }
  }

  lemma {:induction false} NowLike(k: Cell, y: Leaf)
    requires CellSafe(k, y, y)
    ensures AllLike(k.Now(), y) && RestLike(k, y)
  {
    var t := |k.h| - 1;
    assert k.low[1] <= t && k.low[2] <= t && k.low[3] <= t;
    assert SeenAs(k, t, y);
  }

  /** A store that nothing visible in `y` depends on. */
  lemma {:induction false} AppendLike(k: Cell, x: Leaf, y: Leaf)
    requires CellSafe(k, y, y) && AllLike(x, y)
    ensures CellSafe(Append(k, x), y, y)
  {
    NowLike(k, y);
    WindowAppend(k, 1, x, y);
    WindowAppend(k, 2, x, y);
    WindowAppend(k, 3, x, y);
    var k' := Append(k, x);
    forall s | k'.low[0] <= s < |k'.h| ensures SeenAs(k', s, y) {
      if s < |k.h| { assert SeenAs(k, s, y) && k'.h[s] == k.h[s]; }
    }
  }

  /** The store that switches recovery from `y` to `x`: an 8-byte store to the header. */
  lemma {:induction false} AppendSwitch(k: Cell, x: Leaf, y: Leaf)
    requires CellSafe(k, y, y) && LeafOk(x) && RestLike(k, x)
    requires Like(1, x, y) && Like(2, x, y) && Like(3, x, y)
    ensures CellSafe(Append(k, x), y, x) && RestLike(Append(k, x), x)
  {
    var k' := Append(k, x);
    NowLike(k, y);
    LikeSelf(x);
    WindowAppend(k, 1, x, y);
    WindowAppend(k, 2, x, y);
    WindowAppend(k, 3, x, y);
    WindowAppend(k, 1, x, x);
    WindowAppend(k, 2, x, x);
    WindowAppend(k, 3, x, x);
    forall s | k'.low[0] <= s < |k'.h| ensures SeenAs(k', s, y) || SeenAs(k', s, x) {
      if s < |k.h| { assert SeenAs(k, s, y) && k'.h[s] == k.h[s]; }
    }
  }

  lemma {:induction false} LikeSelf(x: Leaf)
    requires x.Shape()
    ensures AllLike(x, x)
  {
  }

  lemma {:induction false} WriteBackSafe(k: Cell, c: nat, y: Leaf, z: Leaf)
    requires CellSafe(k, y, z) && c < LINES
    ensures CellSafe(WriteBack(k, c), y, z)
    ensures RestLike(k, y) ==> RestLike(WriteBack(k, c), y)
    ensures RestLike(k, z) ==> RestLike(WriteBack(k, c), z)
  {
    var k' := WriteBack(k, c);
    forall s | k'.low[0] <= s < |k'.h| ensures SeenAs(k', s, y) || SeenAs(k', s, z) {
      assert SeenAs(k, s, y) || SeenAs(k, s, z);
    }
  }

  lemma {:induction false} FenceWindow(k: Cell, c: nat, y: Leaf)
    requires k.Shape() && c < LINES && Window(k, c, y)
    ensures Fence(k).Shape() && Window(Fence(k), c, y)
  {
  }

  lemma {:induction false} FenceRest(k: Cell, y: Leaf)
    requires k.Shape() && RestLike(k, y)
    ensures Fence(k).Shape() && RestLike(Fence(k), y)
  {
    FenceWindow(k, 1, y);
    FenceWindow(k, 2, y);
    FenceWindow(k, 3, y);
  }

  lemma {:induction false} FenceSafe(k: Cell, y: Leaf, z: Leaf)
    requires CellSafe(k, y, z)
    ensures CellSafe(Fence(k), y, z)
  {
    var k' := Fence(k);
    assert k'.Shape();
    if RestLike(k, y) { FenceRest(k, y); }
    if RestLike(k, z) { FenceRest(k, z); }
    forall s | k'.low[0] <= s < |k'.h| ensures SeenAs(k', s, y) || SeenAs(k', s, z) {
      assert SeenAs(k, s, y) || SeenAs(k, s, z);
    }
  }

  /** Once the header line is fenced only the current version remains. */
  lemma {:induction false} HeaderFenced(k: Cell)
    requires k.Shape() && LeafOk(k.Now()) && k.low[0] == |k.h| - 1 && RestLike(k, k.Now())
    ensures CellSafe(k, k.Now(), k.Now())
  {
    LikeSelf(k.Now());
  }

  /** With every line fenced only the current version remains. */
  lemma {:induction false} AllFenced(k: Cell)
    requires k.Shape() && LeafOk(k.Now())
    ensures var k' := Fence(WriteBack(WriteBack(WriteBack(WriteBack(k, 0), 1), 2), 3));
      k'.Shape() && k'.Now() == k.Now() && Quiet(k')
  {
    hide LeafOk, CellSafe;
    var k' := Fence(WriteBack(WriteBack(WriteBack(WriteBack(k, 0), 1), 2), 3));
    LikeSelf(k.Now());
    assert Window(k', 1, k.Now()) && Window(k', 2, k.Now()) && Window(k', 3, k.Now());
    HeaderFenced(k');
  }

  // ---------------------------------------------------------------- the three kinds of memory event

  /** At most one 8-byte word of the leaf differs: one of the two header words, a key, a record pointer, or a sibling pointer. */
  ghost predicate OneWord(x: Leaf, y: Leaf) {
    && x.Shape() && y.Shape()
    && (WordZero(x, y) || WordOne(x, y) || (exists i :: 0 <= i < LEAF_KEY_NUM && SlotWord(x, y, i)) || exists j :: 0 <= j < 2 && NextWord(x, y, j))
  }

  /** The first word holds the bitmap, the lock and `alt` bits and six fingerprints. */
  predicate WordZero(x: Leaf, y: Leaf)
    requires x.Shape() && y.Shape()
  {
    y == x.(m := y.m) && y.m.fgpt[6..] == x.m.fgpt[6..]
  }

  predicate WordOne(x: Leaf, y: Leaf)
    requires x.Shape() && y.Shape()
  {
    y == x.(m := x.m.(fgpt := y.m.fgpt)) && y.m.fgpt[..6] == x.m.fgpt[..6]
  }

  predicate SlotWord(x: Leaf, y: Leaf, i: nat)
    requires x.Shape() && y.Shape() && i < LEAF_KEY_NUM
  {
    y == x.(ent := x.ent[i := y.ent[i]]) && (y.ent[i].k == x.ent[i].k || y.ent[i].ch == x.ent[i].ch)
  }

  predicate NextWord(x: Leaf, y: Leaf, j: nat)
    requires x.Shape() && y.Shape() && j < 2
  {
    y == x.(next := x.next[j := y.next[j]])
  }

  /** What can happen to a leaf's memory: an 8-byte store, the write-back of a line, a fence. */
  ghost predicate Event(k: Cell, k': Cell) {
    && k.Shape() && k'.Shape()
    && ((k' == Append(k, k'.Now()) && OneWord(k.Now(), k'.Now())) || (exists c :: 0 <= c < LINES && k' == WriteBack(k, c)) || k' == Fence(k))
  }

  /** The memory goes from `k` through the states `tr` to `k'`, one event at a time. */
  ghost predicate Steps(k: Cell, tr: seq<Cell>, k': Cell)
    decreases |tr|
  {
    if tr == [] then k == k' else Event(k, tr[0]) && Steps(tr[0], tr[1..], k')
  }

  lemma {:induction false} StepsJoin(k: Cell, tr: seq<Cell>, k1: Cell, tr1: seq<Cell>, k2: Cell)
    requires Steps(k, tr, k1) && Steps(k1, tr1, k2)
    ensures Steps(k, tr + tr1, k2)
    decreases |tr|
  {
    hide Event;
    if tr == [] {
      assert tr + tr1 == tr1;
    } else {
      StepsJoin(tr[0], tr[1..], k1, tr1, k2);
      assert (tr + tr1)[1..] == tr[1..] + tr1;
    }
  }

  lemma {:induction false} OneStep(k: Cell, k': Cell)
    requires Event(k, k')
    ensures Steps(k, [k'], k')
  {
    hide Event;
    assert [k'][1..] == [];
  }

  lemma {:induction false} NoSteps(k: Cell)
    ensures Steps(k, [], k)
  {
  }

  lemma {:induction false} StepsMore(k: Cell, tr: seq<Cell>, k1: Cell, k2: Cell)
    requires Steps(k, tr, k1) && Event(k1, k2)
    ensures Steps(k, tr + [k2], k2)
  {
    hide Event;
    OneStep(k1, k2);
    StepsJoin(k, tr, k1, [k2], k2);
  }

  lemma {:induction false} StepsShape(k: Cell, tr: seq<Cell>, k': Cell)
    requires Steps(k, tr, k') && k.Shape()
    ensures k'.Shape() && forall i :: 0 <= i < |tr| ==> tr[i].Shape()
    decreases |tr|
  {
    if tr != [] {
      StepsShape(tr[0], tr[1..], k');
      forall i | 0 <= i < |tr| ensures tr[i].Shape() { if i > 0 { assert tr[i] == tr[1..][i - 1]; } }
    }
  }

  /** An 8-byte store to the leaf; `x` is the leaf afterwards. */
  method Store(k: Cell, x: Leaf) returns (k': Cell)
    requires k.Shape() && OneWord(k.Now(), x)
    ensures k' == Append(k, x) && k'.Shape() && k'.Now() == x && Event(k, k')
  {
    k' := Append(k, x);
    AppendShape(k, x);
  }

  lemma {:induction false} AppendShape(k: Cell, x: Leaf)
    requires k.Shape() && x.Shape()
    ensures Append(k, x).Shape() && Append(k, x).Now() == x
  {
    var k' := Append(k, x);
    assert forall t | 0 <= t < |k'.h| :: k'.h[t] == if t < |k.h| then k.h[t] else x;
  }

  /** `clwb` of line `c` */
  method Clwb(k: Cell, c: nat) returns (k': Cell)
    requires k.Shape() && c < LINES
    ensures k' == WriteBack(k, c) && k'.Shape() && k'.Now() == k.Now() && Event(k, k')
  {
    k' := WriteBack(k, c);
  }

  /** `sfence`, as it acts on one leaf */
  method Sfence(k: Cell) returns (k': Cell)
    requires k.Shape()
    ensures k' == Fence(k) && k'.Shape() && k'.Now() == k.Now() && Event(k, k')
  {
    k' := Fence(k);
  }

  predicate MetaShape(m: Meta) {
    |m.bitmap| == |m.fgpt| == LEAF_KEY_NUM && m.alt < 2
  }

  function WithWord0(x: Leaf, m: Meta): Leaf
    requires x.Shape() && |m.fgpt| == LEAF_KEY_NUM
  {
    x.(m := m.(fgpt := m.fgpt[..6] + x.m.fgpt[6..]))
  }

  function WithWord1(x: Leaf, m: Meta): Leaf
    requires x.Shape() && |m.fgpt| == LEAF_KEY_NUM
  {
    x.(m := x.m.(fgpt := x.m.fgpt[..6] + m.fgpt[6..]))
  }

  function WithKey(x: Leaf, i: nat, key: Key): Leaf
    requires i < |x.ent|
  {
    x.(ent := x.ent[i := IdxEntry(key, x.ent[i].ch)])
  }

  function WithCh(x: Leaf, i: nat, ptr: Ptr): Leaf
    requires i < |x.ent|
  {
    x.(ent := x.ent[i := IdxEntry(x.ent[i].k, ptr)])
  }

  function WithEnt(x: Leaf, i: nat, e: IdxEntry): Leaf
    requires i < |x.ent|
  {
    x.(ent := x.ent[i := e])
  }

  function WithNext(x: Leaf, j: nat, q: Ptr): Leaf
    requires j < |x.next|
  {
    x.(next := x.next[j := q])
  }

  // ---------------------------------------------------------------- each of these is one word

  lemma {:induction false} WordZeroIs(x: Leaf, m: Meta)
    requires x.Shape() && MetaShape(m)
    ensures OneWord(x, WithWord0(x, m))
  {
    var y := WithWord0(x, m);
    assert y.m.fgpt[6..] == x.m.fgpt[6..];
    assert WordZero(x, y);
  }

  lemma {:induction false} WordOneIs(x: Leaf, m: Meta)
    requires x.Shape() && MetaShape(m)
    ensures OneWord(x, WithWord1(x, m))
  {
    var y := WithWord1(x, m);
    assert y.m.fgpt[..6] == x.m.fgpt[..6];
    assert WordOne(x, y);
  }

  lemma {:induction false} KeyIs(x: Leaf, i: nat, key: Key)
    requires x.Shape() && i < LEAF_KEY_NUM
    ensures OneWord(x, WithKey(x, i, key))
  {
    assert SlotWord(x, WithKey(x, i, key), i);
  }

  lemma {:induction false} ChIs(x: Leaf, i: nat, ptr: Ptr)
    requires x.Shape() && i < LEAF_KEY_NUM
    ensures OneWord(x, WithCh(x, i, ptr))
  {
    assert SlotWord(x, WithCh(x, i, ptr), i);
  }

  lemma {:induction false} NextIs(x: Leaf, j: nat, q: Ptr)
    requires x.Shape() && j < 2
    ensures OneWord(x, WithNext(x, j, q))
  {
    assert NextWord(x, WithNext(x, j, q), j);
  }

  /** A fingerprint lies in one of the two header words. */
  lemma {:induction false} FgptIs(x: Leaf, i: nat, b: byte)
    requires x.Shape() && i < LEAF_KEY_NUM
    ensures OneWord(x, x.(m := x.m.(fgpt := x.m.fgpt[i := b])))
  {
    var y := x.(m := x.m.(fgpt := x.m.fgpt[i := b]));
    if i < 6 {
      assert y.m.fgpt[6..] == x.m.fgpt[6..];
      assert WordZero(x, y);
    } else {
      assert y.m.fgpt[..6] == x.m.fgpt[..6];
      assert WordOne(x, y);
    }
  }
}
