/** Step 2 of `insert`: splitting a full leaf. */
module LeafSplit {
  import opened Types
  import opened LeafNode
  import opened Nvm
  import opened LeafOps
  import opened QSort

  const SPLIT: nat := LEAF_KEY_NUM / 2

  predicate Permutation(pos: seq<int>) {
    && |pos| == LEAF_KEY_NUM && InRange(pos, LEAF_KEY_NUM)
    && (forall i, j :: 0 <= i < j < LEAF_KEY_NUM ==> pos[i] != pos[j])
    && (forall x :: 0 <= x < LEAF_KEY_NUM ==> x in pos)
  }

  /** The sorted positions of a full leaf. */
  predicate Ranked(y: Leaf, pos: seq<int>) {
    LeafOk(y) && IsFull(y) && Permutation(pos) && SortedBy(y.ent, pos, 0, LEAF_KEY_NUM)
  }

  /** `x` holds, in the slots from `SPLIT` up to `i`, the entries ranked `SPLIT` to `i`. */
  predicate UpperCopied(y: Leaf, pos: seq<int>, x: Leaf, i: nat)
    requires y.Shape() && |pos| == LEAF_KEY_NUM && InRange(pos, LEAF_KEY_NUM)
  {
    x.Shape() && forall j :: SPLIT <= j < i && j < LEAF_KEY_NUM ==> x.ent[j] == y.ent[pos[j]] && x.m.fgpt[j] == y.m.fgpt[pos[j]]
  }

  predicate UpperFreed(pos: seq<int>, freed: seq<bool>, i: nat)
    requires |pos| == LEAF_KEY_NUM && i <= LEAF_KEY_NUM
  {
    |freed| == LEAF_KEY_NUM && forall s :: 0 <= s < LEAF_KEY_NUM ==> (freed[s] <==> exists j :: SPLIT <= j < i && pos[j] == s)
  }

  function UpperBitmap(): seq<bool> { seq(LEAF_KEY_NUM, i => i >= SPLIT) }

  /** The upper half by rank: what the new leaf takes over. */
  function Upper(y: Leaf, pos: seq<int>): set<IdxEntry>
    requires y.Shape() && |pos| == LEAF_KEY_NUM && InRange(pos, LEAF_KEY_NUM)
  {
    set j | SPLIT <= j < LEAF_KEY_NUM :: y.ent[pos[j]]
  }

  function Lower(y: Leaf, pos: seq<int>): set<IdxEntry>
    requires y.Shape() && |pos| == LEAF_KEY_NUM && InRange(pos, LEAF_KEY_NUM)
  {
    set j | 0 <= j < SPLIT :: y.ent[pos[j]]
  }

  lemma {:induction false} RankedShape(y: Leaf, pos: seq<int>)
    requires Ranked(y, pos)
    ensures y.Shape() && |pos| == LEAF_KEY_NUM && InRange(pos, LEAF_KEY_NUM)
  {
  }

  lemma {:induction false} RankOf(pos: seq<int>, x: int) returns (j: nat)
    requires Permutation(pos) && 0 <= x < LEAF_KEY_NUM
    ensures j < LEAF_KEY_NUM && pos[j] == x
  {
    assert x in pos;
    j :| 0 <= j < |pos| && pos[j] == x;
  }

  lemma {:induction false} Inject(y: Leaf, pos: seq<int>, i: nat, j: nat)
    requires Ranked(y, pos) && i < j < LEAF_KEY_NUM
    ensures y.ent[pos[i]].k < y.ent[pos[j]].k
  {
    var a, b := pos[i], pos[j];
    assert a != b && y.m.bitmap[a] && y.m.bitmap[b];
    assert if a < b then y.ent[a].k != y.ent[b].k else y.ent[b].k != y.ent[a].k;
  }

  lemma {:induction false} HalvesApart(y: Leaf, pos: seq<int>)
    requires Ranked(y, pos)
    ensures Lower(y, pos) + Upper(y, pos) == Entries(y)
    ensures forall e | e in Lower(y, pos) :: e.k < y.ent[pos[SPLIT]].k
    ensures forall e | e in Upper(y, pos) :: e.k >= y.ent[pos[SPLIT]].k
    ensures y.ent[pos[0]] in Lower(y, pos) && y.ent[pos[SPLIT]] in Upper(y, pos)
  {
    RankedShape(y, pos);
    hide LeafOk, Permutation, SortedBy;
    forall e | e in Entries(y) ensures e in Lower(y, pos) + Upper(y, pos) {
      var i :| 0 <= i < LEAF_KEY_NUM && y.ent[i] == e;
      var j := RankOf(pos, i);
      assert j < SPLIT ==> e in Lower(y, pos);
    }
    forall e | e in Lower(y, pos) ensures e.k < y.ent[pos[SPLIT]].k {
      var j :| 0 <= j < SPLIT && y.ent[pos[j]] == e;
      Inject(y, pos, j, SPLIT);
    }
    forall e | e in Upper(y, pos) ensures e.k >= y.ent[pos[SPLIT]].k {
      var j :| SPLIT <= j < LEAF_KEY_NUM && y.ent[pos[j]] == e;
      if j > SPLIT { Inject(y, pos, SPLIT, j); }
    }
    assert y.ent[pos[0]] in Lower(y, pos);
    assert y.ent[pos[SPLIT]] in Upper(y, pos);
    HalvesWithin(y, pos);
  }

  lemma {:induction false} HalvesSize(y: Leaf, pos: seq<int>)
    requires Ranked(y, pos)
    ensures y.Shape() && |pos| == LEAF_KEY_NUM && InRange(pos, LEAF_KEY_NUM) && |Lower(y, pos)| == 7 && |Upper(y, pos)| == 7
  {
    RanksCount(y, pos, 0, SPLIT);
    RanksCount(y, pos, SPLIT, LEAF_KEY_NUM);
    hide Ranked;
    assert RankedFrom(y, pos, 0, SPLIT) == Lower(y, pos);
    assert RankedFrom(y, pos, SPLIT, LEAF_KEY_NUM) == Upper(y, pos);
  }

  /** The entries ranked `a` to `b - 1` */
  function RankedFrom(y: Leaf, pos: seq<int>, a: nat, b: nat): set<IdxEntry>
    requires y.Shape() && |pos| == LEAF_KEY_NUM && InRange(pos, LEAF_KEY_NUM) && b <= LEAF_KEY_NUM
  {
    set j | a <= j < b :: y.ent[pos[j]]
  }

  lemma {:induction false} RanksCount(y: Leaf, pos: seq<int>, a: nat, b: nat)
    requires Ranked(y, pos) && a <= b <= LEAF_KEY_NUM
    ensures y.Shape() && |pos| == LEAF_KEY_NUM && InRange(pos, LEAF_KEY_NUM) && |RankedFrom(y, pos, a, b)| == b - a
    decreases b
  {
    RankedShape(y, pos);
    if a < b {
      RanksCount(y, pos, a, b - 1);
      forall j | a <= j < b - 1 ensures y.ent[pos[j]] != y.ent[pos[b - 1]] { Inject(y, pos, j, b - 1); }
      assert RankedFrom(y, pos, a, b) == RankedFrom(y, pos, a, b - 1) + {y.ent[pos[b - 1]]};
    }
  }

  /** Ranking splits the entries in two, seven each, at the key of the middle one. */
  lemma {:induction false} HalvesByKey(y: Leaf, pos: seq<int>)
    requires Ranked(y, pos)
    ensures Lower(y, pos) + Upper(y, pos) == Entries(y)
    ensures forall e | e in Lower(y, pos) :: e.k < y.ent[pos[SPLIT]].k
    ensures forall e | e in Upper(y, pos) :: e.k >= y.ent[pos[SPLIT]].k
    ensures y.ent[pos[0]] in Lower(y, pos) && y.ent[pos[SPLIT]] in Upper(y, pos)
    ensures |Lower(y, pos)| == 7 && |Upper(y, pos)| == 7
  {
    RankedShape(y, pos);
    hide Ranked, Lower, Upper, Entries;
    HalvesApart(y, pos);
    HalvesSize(y, pos);
  }

  /** The entries with keys below the split key; of the 14 entries of a full leaf, 7 go to each side. */
  function KeysBelow(C: set<IdxEntry>, key: Key): set<IdxEntry> { set e | e in C && e.k < key }

  predicate HalfBelow(C: set<IdxEntry>, key: Key) { |KeysBelow(C, key)| == 7 && |C - KeysBelow(C, key)| == 7 }

  lemma {:induction false} MiddleKey(y: Leaf, pos: seq<int>)
    requires Ranked(y, pos)
    ensures y.Shape() && |pos| == LEAF_KEY_NUM && InRange(pos, LEAF_KEY_NUM) && HalfBelow(Entries(y), y.ent[pos[SPLIT]].k)
  {
    hide Ranked, Entries, Lower, Upper, LeafOk;
    RankedShape(y, pos);
    HalvesByKey(y, pos);
    var key := y.ent[pos[SPLIT]].k;
    assert KeysBelow(Entries(y), key) == Lower(y, pos);
    assert Entries(y) - Lower(y, pos) == Upper(y, pos);
  }

  lemma {:induction false} HalvesWithin(y: Leaf, pos: seq<int>)
    requires Ranked(y, pos)
    ensures Lower(y, pos) <= Entries(y) && Upper(y, pos) <= Entries(y)
  {
    RankedShape(y, pos);
    hide LeafOk, SortedBy;
    forall e | e in Lower(y, pos) ensures e in Entries(y) {
      var j :| 0 <= j < SPLIT && y.ent[pos[j]] == e;
      assert y.m.bitmap[pos[j]];
    }
    forall e | e in Upper(y, pos) ensures e in Entries(y) {
      var j :| SPLIT <= j < LEAF_KEY_NUM && y.ent[pos[j]] == e;
      assert y.m.bitmap[pos[j]];
    }
  }

  /** Step 2.4: copy the upper half into the new leaf. */
  method CopyUpper(kn: Cell, y: Leaf, pos: array<int>) returns (k: Cell, freed: seq<bool>, ghost tr: seq<Cell>)
    requires kn.Shape() && pos.Length == LEAF_KEY_NUM && Ranked(y, pos[..])
    ensures k.Shape() && UpperCopied(y, pos[..], k.Now(), LEAF_KEY_NUM) && UpperFreed(pos[..], freed, LEAF_KEY_NUM) && Steps(kn, tr, k)
  {
    hide Steps, UpperCopied;
    k, freed, tr := kn, seq(LEAF_KEY_NUM, _ => false), [];
    NoSteps(kn);
    NoneCopied(y, pos[..], k.Now());
    for i := SPLIT to LEAF_KEY_NUM
      invariant k.Shape() && UpperCopied(y, pos[..], k.Now(), i) && UpperFreed(pos[..], freed, i) && Steps(kn, tr, k)
    {
      ghost var was, tr1 := k, [];
      k, tr1 := CopyOne(k, y, pos, i);
      freed := freed[pos[i] := true];
      StepsJoin(kn, tr, was, tr1, k);
      tr := tr + tr1;
    }
  }

  lemma {:induction false} NoneCopied(y: Leaf, pos: seq<int>, x: Leaf)
    requires y.Shape() && |pos| == LEAF_KEY_NUM && InRange(pos, LEAF_KEY_NUM) && x.Shape()
    ensures UpperCopied(y, pos, x, SPLIT)
  {
  }

  /** The entry of rank `i` and its fingerprint go to slot `i`. */
  method CopyOne(was: Cell, y: Leaf, pos: array<int>, i: nat) returns (k: Cell, ghost tr: seq<Cell>)
    requires was.Shape() && pos.Length == LEAF_KEY_NUM && Ranked(y, pos[..]) && SPLIT <= i < LEAF_KEY_NUM && UpperCopied(y, pos[..], was.Now(), i)
    ensures k.Shape() && UpperCopied(y, pos[..], k.Now(), i + 1) && Steps(was, tr, k)
  {
    NoSteps(was);
    hide Steps, Event, OneWord;
    KeyIs(was.Now(), i, y.ent[pos[i]].k);
    var k1 := Store(was, WithKey(was.Now(), i, y.ent[pos[i]].k));
    ChIs(k1.Now(), i, y.ent[pos[i]].ch);
    var k2 := Store(k1, WithCh(k1.Now(), i, y.ent[pos[i]].ch));
    FgptIs(k2.Now(), i, y.m.fgpt[pos[i]]);
    k := Store(k2, k2.Now().(m := k2.Now().m.(fgpt := k2.Now().m.fgpt[i := y.m.fgpt[pos[i]]])));
    ThreeMore(was, [], was, k1, k2, k);
    tr := [] + [k1] + [k2] + [k];
  }

  lemma {:induction false} ThreeMore(k: Cell, tr: seq<Cell>, k0: Cell, k1: Cell, k2: Cell, k3: Cell)
    requires Steps(k, tr, k0) && Event(k0, k1) && Event(k1, k2) && Event(k2, k3)
    ensures Steps(k, tr + [k1] + [k2] + [k3], k3)
  {
    hide Steps, Event;
    StepsMore(k, tr, k0, k1);
    StepsMore(k, tr + [k1], k1, k2);
    StepsMore(k, tr + [k1] + [k2], k2, k3);
  }

  lemma {:induction false} NewLeafOk(y: Leaf, pos: seq<int>, x: Leaf)
    requires Ranked(y, pos) && UpperCopied(y, pos, x, LEAF_KEY_NUM) && x.m.bitmap == UpperBitmap() && x.m.alt < 2
    ensures LeafOk(x) && Entries(x) == Upper(y, pos)
  {
    forall i, j | 0 <= i < j < LEAF_KEY_NUM && x.m.bitmap[i] && x.m.bitmap[j] ensures x.ent[i].k != x.ent[j].k {
      Inject(y, pos, i, j);
    }
    hide SortedBy;
    forall i | SPLIT <= i < LEAF_KEY_NUM ensures x.m.fgpt[i] == hashcode1B(x.ent[i].k) {
      assert y.m.bitmap[pos[i]];
    }
    RankedShape(y, pos);
    hide LeafOk;
    forall e | e in Upper(y, pos) ensures e in Entries(x) {
      var j :| SPLIT <= j < LEAF_KEY_NUM && y.ent[pos[j]] == e;
      assert x.ent[j] == e && x.m.bitmap[j];
    }
  }

  /** The old leaf under its new header: the freed slots are those of the upper half. */
  function Remaining(y: Leaf, freed: seq<bool>): seq<bool>
    requires |freed| == LEAF_KEY_NUM && y.Shape()
  {
    seq(LEAF_KEY_NUM, i requires 0 <= i < LEAF_KEY_NUM => y.m.bitmap[i] && !freed[i])
  }

  lemma {:induction false} OldLeafOk(y: Leaf, pos: seq<int>, freed: seq<bool>, z: Leaf)
    requires Ranked(y, pos) && UpperFreed(pos, freed, LEAF_KEY_NUM)
    requires z.Shape() && z.ent == y.ent && z.m.fgpt == y.m.fgpt && z.m.bitmap == Remaining(y, freed)
    ensures LeafOk(z) && Entries(z) == Lower(y, pos) && !IsFull(z)
  {
    assert LeafOk(z);
    RankedShape(y, pos);
    hide LeafOk, SortedBy;
    forall e | e in Lower(y, pos) ensures e in Entries(z) {
      var j :| 0 <= j < SPLIT && y.ent[pos[j]] == e;
      assert !freed[pos[j]];
      assert z.m.bitmap[pos[j]];
    }
    forall e | e in Entries(z) ensures e in Lower(y, pos) {
      var i :| 0 <= i < LEAF_KEY_NUM && z.m.bitmap[i] && z.ent[i] == e;
      var j := RankOf(pos, i);
      assert !freed[i];
    }
    assert freed[pos[SPLIT]];
    assert !z.m.bitmap[pos[SPLIT]];
  }

  /** `newp->bitmap= ...; newp->lock= 0; newp->alt= 0;` */
  method NewHeader(k0: Cell) returns (k: Cell, ghost tr: seq<Cell>)
    requires k0.Shape()
    ensures k.Shape() && k.Now() == k0.Now().(m := Meta(UpperBitmap(), false, 0, k0.Now().m.fgpt)) && Steps(k0, tr, k)
  {
    var k1 := StoreHeader(k0, k0.Now().m.(bitmap := UpperBitmap()));
    var k2 := StoreHeader(k1, k1.Now().m.(lock := false));
    k := StoreHeader(k2, k2.Now().m.(alt := 0));
    tr := [] + [k1] + [k2] + [k];
    ThreeMore(k0, [], k0, k1, k2, k);
  }

  /** A store to the first header word that leaves the fingerprints as they are. */
  method StoreHeader(k: Cell, m: Meta) returns (k': Cell)
    requires k.Shape() && MetaShape(m) && m.fgpt == k.Now().m.fgpt
    ensures k'.Shape() && k'.Now() == k.Now().(m := m) && Event(k, k')
  {
    hide Event, OneWord;
    WordZeroIs(k.Now(), m);
    assert WithWord0(k.Now(), m) == k.Now().(m := m) by { assert m.fgpt[..6] + m.fgpt[6..] == m.fgpt; }
    k' := Store(k, k.Now().(m := m));
  }

  /** Step 2.4, continued: header and sibling pointer of the new leaf. */
  method BuildSibling(kn: Cell, y: Leaf, pos: array<int>) returns (k: Cell, freed: seq<bool>, ghost tr: seq<Cell>)
    requires kn.Shape() && pos.Length == LEAF_KEY_NUM && Ranked(y, pos[..])
    ensures k.Shape() && LeafOk(k.Now()) && Entries(k.Now()) == Upper(y, pos[..]) && UpperFreed(pos[..], freed, LEAF_KEY_NUM)
    ensures k.Now().m.bitmap == UpperBitmap() && !k.Now().m.lock && k.Now().NextSibling() == y.NextSibling() && Steps(kn, tr, k)
    ensures |freed| == LEAF_KEY_NUM
  {
    hide Steps, Event, OneWord;
    var k1;
    ghost var tr1;
    k1, freed, tr := CopyUpper(kn, y, pos);
    k, tr1 := NewHeader(k1);
    StepsJoin(kn, tr, k1, tr1, k);
    tr := tr + tr1;
    NextIs(k.Now(), 0, y.next[y.m.alt]);
    ghost var was := k;
    k := Store(k, WithNext(k.Now(), 0, y.next[y.m.alt]));
    StepsMore(kn, tr, was, k);
    tr := tr + [k];
    NewLeafOk(y, pos[..], k.Now());
  }

  /** Step 2.5: the new entry goes to the slot below the upper half of the new leaf. */
  method AddToSibling(kn: Cell, e: IdxEntry) returns (k: Cell, ghost tr: seq<Cell>)
    requires kn.Shape() && LeafOk(kn.Now()) && kn.Now().m.bitmap == UpperBitmap() && !HasKey(Entries(kn.Now()), e.k)
    ensures k.Shape() && LeafOk(k.Now()) && Entries(k.Now()) == Entries(kn.Now()) + {e}
    ensures k.Now().m.lock == kn.Now().m.lock && k.Now().NextSibling() == kn.Now().NextSibling() && Steps(kn, tr, k)
  {
    var slot := SPLIT - 1;
    KeyIs(kn.Now(), slot, e.k);
    var k1 := Store(kn, WithKey(kn.Now(), slot, e.k));
    ChIs(k1.Now(), slot, e.ch);
    var k2 := Store(k1, WithCh(k1.Now(), slot, e.ch));
    FgptIs(k2.Now(), slot, hashcode1B(e.k));
    var k3 := Store(k2, k2.Now().(m := k2.Now().m.(fgpt := k2.Now().m.fgpt[slot := hashcode1B(e.k)])));
    k := StoreHeader(k3, k3.Now().m.(bitmap := k3.Now().m.bitmap[slot := true]));
    ThreeMore(kn, [], kn, k1, k2, k3);
    hide Steps, Event, OneWord;
    StepsMore(kn, [] + [k1] + [k2] + [k3], k3, k);
    tr := [] + [k1] + [k2] + [k3] + [k];
    AddEntryOk(kn.Now(), slot, e);
    assert k.Now() == AddEntry(kn.Now(), slot, e);
  }

  // ---------------------------------------------------------------- the split as a whole

  /** Old and new leaf at one point of the split. */
  datatype Pair = Pair(l: Cell, n: Cell)

  /** An event of one of the two leaves, or a fence, which is one for both. */
  ghost predicate PairEvent(c: Pair, d: Pair) {
    || (Event(c.l, d.l) && d.n == c.n) || (d.l == c.l && Event(c.n, d.n))
    || (c.l.Shape() && c.n.Shape() && d.l == Fence(c.l) && d.n == Fence(c.n))
  }

  ghost predicate PairSteps(c: Pair, tr: seq<Pair>, d: Pair)
    decreases |tr|
  {
    if tr == [] then c == d else PairEvent(c, tr[0]) && PairSteps(tr[0], tr[1..], d)
  }

  lemma {:induction false} PairStepsJoin(c: Pair, tr: seq<Pair>, c1: Pair, tr1: seq<Pair>, c2: Pair)
    requires PairSteps(c, tr, c1) && PairSteps(c1, tr1, c2)
    ensures PairSteps(c, tr + tr1, c2)
    decreases |tr|
  {
    hide PairEvent;
    if tr == [] {
      assert tr + tr1 == tr1;
    } else {
      PairStepsJoin(tr[0], tr[1..], c1, tr1, c2);
      assert (tr + tr1)[1..] == tr[1..] + tr1;
    }
  }

  lemma {:induction false} PairStepsMore(c: Pair, tr: seq<Pair>, c1: Pair, c2: Pair)
    requires PairSteps(c, tr, c1) && PairEvent(c1, c2)
    ensures PairSteps(c, tr + [c2], c2)
  {
    hide PairEvent;
    assert [c2][1..] == [];
    assert PairSteps(c1, [c2], c2);
    PairStepsJoin(c, tr, c1, [c2], c2);
  }

  function OldSteps(tr: seq<Cell>, n: Cell): seq<Pair> { seq(|tr|, i requires 0 <= i < |tr| => Pair(tr[i], n)) }

  function NewSteps(l: Cell, tr: seq<Cell>): seq<Pair> { seq(|tr|, i requires 0 <= i < |tr| => Pair(l, tr[i])) }

  lemma {:induction false} OldStepsAre(k: Cell, tr: seq<Cell>, k': Cell, n: Cell)
    requires Steps(k, tr, k')
    ensures PairSteps(Pair(k, n), OldSteps(tr, n), Pair(k', n))
    decreases |tr|
  {
    hide Event;
    if tr != [] {
      OldStepsAre(tr[0], tr[1..], k', n);
      assert OldSteps(tr, n)[1..] == OldSteps(tr[1..], n);
    }
  }

  lemma {:induction false} NewStepsAre(l: Cell, k: Cell, tr: seq<Cell>, k': Cell)
    requires Steps(k, tr, k')
    ensures PairSteps(Pair(l, k), NewSteps(l, tr), Pair(l, k'))
    decreases |tr|
  {
    hide Event;
    if tr != [] {
      NewStepsAre(l, tr[0], tr[1..], k');
      assert NewSteps(l, tr)[1..] == NewSteps(l, tr[1..]);
    }
  }

  /**
   * Either recovery still finds the unsplit leaf `y`, or the new leaf is durable as `n` and recovery
   * finds the old one as `z` (just split) or as `w` (finished).
   */
  ghost predicate SplitSafe(c: Pair, y: Leaf, z: Leaf, w: Leaf, n: Leaf) {
    && c.n.Shape()
    && (Shows(c.l, y, y) || (Shows(c.n, n, n) && (Shows(c.l, y, z) || Shows(c.l, z, w))))
  }

  /** The outcome of splitting `y` for entry `e` into `w` and the new leaf `n`. */
  predicate SplitDone(y: Leaf, e: IdxEntry, splitKey: Key, w: Leaf, n: Leaf) {
    && LeafOk(y) && LeafOk(w) && LeafOk(n)
    && Entries(w) + Entries(n) == Entries(y) + {e}
    && (forall f :: f in Entries(w) ==> f.k < splitKey) && (forall f :: f in Entries(n) ==> splitKey <= f.k)
    && Entries(w) != {} && (exists f :: f in Entries(n) && f.k == splitKey && f in Entries(y))
    && n.NextSibling() == y.NextSibling() && !n.m.lock
  }

  /** What recovery finds between the two commit points: the entries before the insert, or already those after it. */
  predicate SplitMiddle(y: Leaf, e: IdxEntry, z: Leaf, n: Leaf) {
    LeafOk(z) && LeafOk(n) && LeafOk(y) && (Entries(z) + Entries(n) == Entries(y) || Entries(z) + Entries(n) == Entries(y) + {e})
  }

  /** Step 2.6: write back all of the new leaf and line 3 of the old one, with one fence. */
  method FlushBoth(kl: Cell, kn: Cell, ghost y: Leaf, ghost safe: bool) returns (kl': Cell, kn': Cell, ghost tr: seq<Pair>)
    requires kl.Shape() && kn.Shape() && LeafOk(kn.Now())
    requires safe ==> CellSafe(kl, y, y)
    ensures kl' == Fence(WriteBack(kl, 3)) && kl'.Shape() && kl'.Now() == kl.Now()
    ensures kn'.Shape() && kn'.Now() == kn.Now() && Quiet(kn')
    ensures safe ==> CellSafe(kl', y, y)
    ensures safe ==> forall i :: 0 <= i < |tr| ==> Shows(tr[i].l, y, y) && tr[i].n.Shape()
    ensures PairSteps(Pair(kl, kn), tr, Pair(kl', kn'))
  {
    hide Event, PairSteps, Shows, CellSafe, Quiet, LeafOk;
    var n1 := Clwb(kn, 0);
    var n2 := Clwb(n1, 1);
    var n3 := Clwb(n2, 2);
    var n4 := Clwb(n3, 3);
    var l1 := Clwb(kl, 3);
    kl' := Sfence(l1);
    kn' := Sfence(n4);
    AllFenced(kn);
    var tr0 := [] + [n1] + [n2] + [n3] + [n4];
    FourFlushes(kn, n1, n2, n3, n4);
    NewStepsAre(kl, kn, tr0, n4);
    PairStepsMore(Pair(kl, kn), NewSteps(kl, tr0), Pair(kl, n4), Pair(l1, n4));
    PairStepsMore(Pair(kl, kn), NewSteps(kl, tr0) + [Pair(l1, n4)], Pair(l1, n4), Pair(kl', kn'));
    tr := NewSteps(kl, tr0) + [Pair(l1, n4)] + [Pair(kl', kn')];
    if safe {
      WriteBackSafe(kl, 3, y, y);
      FenceSafe(l1, y, y);
      SafeShows(kl, y, y);
      SafeShows(l1, y, y);
      SafeShows(kl', y, y);
    }
  }

  lemma {:induction false} FourFlushes(k: Cell, k1: Cell, k2: Cell, k3: Cell, k4: Cell)
    requires Event(k, k1) && Event(k1, k2) && Event(k2, k3) && Event(k3, k4)
    ensures Steps(k, [] + [k1] + [k2] + [k3] + [k4], k4)
  {
    ThreeMore(k, [], k, k1, k2, k3);
    hide Steps, Event;
    StepsMore(k, [] + [k1] + [k2] + [k3], k3, k4);
  }

  /** Before the commit the other sibling pointer of the old leaf is set. */
  lemma {:induction false} OtherNextStore(k: Cell, y: Leaf, q: Ptr)
    requires CellSafe(k, y, y) && k.Now() == y
    ensures CellSafe(Append(k, WithNext(y, 1 - y.m.alt, q)), y, y)
  {
    NowLike(k, y);
    AppendLike(k, WithNext(y, 1 - y.m.alt, q), y);
  }

  /** After step 2.6 the header store may switch the old leaf to its lower half. */
  lemma {:induction false} SplitReady(k: Cell, y: Leaf, z: Leaf)
    requires CellSafe(k, y, y) && k.Now().(m := z.m) == z && z.Shape() && z.ent == y.ent
    requires z.m.alt == 1 - y.m.alt && z.next[y.m.alt] == y.next[y.m.alt]
    requires forall i :: 0 <= i < LEAF_KEY_NUM && z.m.bitmap[i] ==> y.m.bitmap[i]
    ensures RestLike(Fence(WriteBack(k, 3)), z) && Like(1, z, y) && Like(2, z, y) && Like(3, z, y)
  {
    NowLike(k, y);
    WindowCarry(k, 1, y, z);
    WindowCarry(k, 2, y, z);
    OtherWindow(k, 3, 1, z);
    OtherWindow(k, 3, 2, z);
    FlushedWindow(k, 3, z);
  }

  /** The two halves of `y` on either side of `splitKey`. */
  predicate SplitHalf(y: Leaf, splitKey: Key, z: Leaf, n: Leaf) {
    && LeafOk(y) && LeafOk(z) && LeafOk(n) && Entries(z) + Entries(n) == Entries(y)
    && (forall f :: f in Entries(z) ==> f.k < splitKey) && (forall f :: f in Entries(n) ==> splitKey <= f.k)
    && Entries(z) != {} && (exists f :: f in Entries(n) && f.k == splitKey && f in Entries(y))
    && n.NextSibling() == y.NextSibling() && !n.m.lock && !IsFull(z)
  }

  lemma {:induction false} HalvesDone(y: Leaf, pos: seq<int>, z: Leaf, n: Leaf)
    requires Ranked(y, pos) && LeafOk(z) && LeafOk(n) && Entries(z) == Lower(y, pos) && Entries(n) == Upper(y, pos)
    requires n.NextSibling() == y.NextSibling() && !n.m.lock && !IsFull(z)
    ensures SplitHalf(y, y.ent[pos[SPLIT]].k, z, n)
  {
    RankedShape(y, pos);
    HalvesByKey(y, pos);
    HalvesWithin(y, pos);
    hide LeafOk, Ranked, IsFull, Lower, Upper;
  }

  lemma {:induction false} AddedToNew(y: Leaf, e: IdxEntry, splitKey: Key, z: Leaf, n: Leaf, n': Leaf)
    requires SplitHalf(y, splitKey, z, n) && LeafOk(n') && Entries(n') == Entries(n) + {e} && splitKey <= e.k
    requires n'.NextSibling() == n.NextSibling() && n'.m.lock == n.m.lock
    ensures SplitDone(y, e, splitKey, z, n')
  {
    hide LeafOk, IsFull;
  }

  lemma {:induction false} AddedToOld(y: Leaf, e: IdxEntry, splitKey: Key, z: Leaf, n: Leaf, z': Leaf)
    requires SplitHalf(y, splitKey, z, n) && LeafOk(z') && Entries(z') == Entries(z) + {e} && e.k < splitKey
    ensures SplitDone(y, e, splitKey, z', n)
  {
    hide LeafOk, IsFull;
  }

  /** Steps 2.1 to 2.7: after the header store of step 2.7 the leaf is split. */
  method SplitCommit(kl: Cell, kn: Cell, newp: Ptr, e: IdxEntry, underParent: bool, ghost safe: bool)
    returns (kl': Cell, kn': Cell, splitKey: Key, inNew: bool, ghost tr: seq<Pair>)
    requires kl.Shape() && kn.Shape() && LeafOk(kl.Now()) && IsFull(kl.Now()) && !HasKey(Entries(kl.Now()), e.k)
    requires safe ==> Quiet(kl)
    ensures kl'.Shape() && kn'.Shape() && kl'.wb == kl'.low && Quiet(kn') && inNew == (e.k > splitKey)
    ensures if inNew then SplitDone(kl.Now(), e, splitKey, kl'.Now(), kn'.Now()) else SplitHalf(kl.Now(), splitKey, kl'.Now(), kn'.Now())
    ensures kl'.Now().NextSibling() == newp && kl'.Now().m.lock == (kl.Now().m.lock && !(inNew && underParent))
    ensures HalfBelow(Entries(kl.Now()), splitKey)
    ensures safe ==> Quiet(kl') && forall i :: 0 <= i < |tr| ==> SplitSafe(tr[i], kl.Now(), kl'.Now(), kl'.Now(), kn'.Now())
    ensures PairSteps(Pair(kl, kn), tr, Pair(kl', kn'))
  {
    hide HalfBelow, LeafOk, CellSafe, Ranked, Lower, Upper, UpperFreed, SplitDone, SplitHalf, SplitSafe, Like, RestLike, HasKey, Entries, IsFull, AllSafe, Steps, Event, OneWord, PairSteps;
    ghost var y := kl.Now();
    var pos := RankSlots(kl.Now());
    RankedShape(y, pos[..]);
    MiddleKey(y, pos[..]);
    splitKey := kl.Now().ent[pos[SPLIT]].k;
    var n1, freed, tr1 := BuildSibling(kn, kl.Now(), pos);
    var meta := Meta(Remaining(kl.Now(), freed), kl.Now().m.lock, 1 - kl.Now().m.alt, kl.Now().m.fgpt);
    assert MetaShape(meta);
    hide Remaining;
    NextIs(kl.Now(), 1 - kl.Now().m.alt, newp);
    var l1 := Store(kl, WithNext(kl.Now(), 1 - kl.Now().m.alt, newp));
    OldLeafOk(y, pos[..], freed, l1.Now().(m := meta));
    HalvesDone(y, pos[..], l1.Now().(m := meta), n1.Now());
    inNew := e.k > splitKey;
    ghost var tr2: seq<Cell> := [];
    var n2 := n1;
    NoSteps(n1);
    ghost var z := l1.Now().(m := meta.(lock := meta.lock && !(inNew && underParent)));
    RelockHalf(y, splitKey, l1.Now().(m := meta), z, n1.Now());
    HalfOk(y, splitKey, z, n1.Now());
    if inNew {
      NotInUpper(y, splitKey, z, n1.Now(), e);
      n2, tr2 := AddToSibling(n1, e);
      AddedToNew(y, e, splitKey, z, n1.Now(), n2.Now());
      if underParent { meta := meta.(lock := false); }
    }
    if safe {
      OtherNextStore(kl, y, newp);
      SplitReady(l1, y, z);
    }
    kl', kn', tr := CommitSplit(kl, kn, l1, n1, n2, meta, tr1, tr2, y, z, safe);
  }

  lemma {:induction false} NoSteps(k: Cell)
    ensures Steps(k, [], k)
  {
  }

  /** Steps 2.6 and 2.7 */
  method CommitSplit(ghost kl: Cell, ghost kn: Cell, l1: Cell, ghost n1: Cell, n2: Cell, meta: Meta, ghost tr1: seq<Cell>, ghost tr2: seq<Cell>,
                     ghost y: Leaf, ghost z: Leaf, ghost safe: bool)
    returns (kl': Cell, kn': Cell, ghost tr: seq<Pair>)
    requires l1.Shape() && n2.Shape() && LeafOk(n2.Now()) && z == l1.Now().(m := meta) && LeafOk(z) && MetaShape(meta)
    requires kn.Shape() && n1.Shape() && Steps(kn, tr1, n1) && Event(kl, l1) && Steps(n1, tr2, n2)
    requires safe ==> CellSafe(kl, y, y) && CellSafe(l1, y, y) && RestLike(Fence(WriteBack(l1, 3)), z)
    requires safe ==> Like(1, z, y) && Like(2, z, y) && Like(3, z, y) && z.m.fgpt == y.m.fgpt
    ensures kl'.Shape() && kl'.wb == kl'.low && kl'.Now() == z && kn'.Shape() && kn'.Now() == n2.Now() && Quiet(kn')
    ensures safe ==> Quiet(kl') && forall i :: 0 <= i < |tr| ==> SplitSafe(tr[i], y, z, z, n2.Now())
    ensures PairSteps(Pair(kl, kn), tr, Pair(kl', kn'))
  {
    hide Steps, Event, PairSteps;
    var l3, n3, tr3 := FlushBoth(l1, n2, y, safe);
    ghost var tr4;
    kl', tr4 := Commit(l3, meta, true, y, safe);
    kn' := n3;
    tr := NewSteps(kl, tr1) + [Pair(l1, n1)] + NewSteps(l1, tr2) + tr3 + OldSteps(tr4, n3);
    CommitSteps(kl, kn, l1, n1, n2, l3, n3, kl', tr1, tr2, tr3, tr4);
    if safe {
      StepsShape(kn, tr1, n1);
      StepsShape(n1, tr2, n2);
      SafeShows(kl, y, y);
      SafeShows(l1, y, y);
      SafeShows(n3, n3.Now(), n3.Now());
      forall i | 0 <= i < |tr4| ensures Shows(tr4[i], y, z) { SafeShows(tr4[i], y, z); }
      hide CellSafe, Shows, Cell.Shape, LeafOk, Quiet, Like, RestLike, AllSafe;
    }
  }

  lemma {:induction false} CommitSteps(kl: Cell, kn: Cell, l1: Cell, n1: Cell, n2: Cell, l3: Cell, n3: Cell, l4: Cell, tr1: seq<Cell>, tr2: seq<Cell>, tr3: seq<Pair>, tr4: seq<Cell>)
    requires Steps(kn, tr1, n1) && Event(kl, l1) && Steps(n1, tr2, n2) && PairSteps(Pair(l1, n2), tr3, Pair(l3, n3)) && Steps(l3, tr4, l4)
    ensures PairSteps(Pair(kl, kn), NewSteps(kl, tr1) + [Pair(l1, n1)] + NewSteps(l1, tr2) + tr3 + OldSteps(tr4, n3), Pair(l4, n3))
  {
    hide Steps, Event, PairSteps, OldSteps, NewSteps;
    var c, T1, T2 := Pair(kl, kn), NewSteps(kl, tr1), NewSteps(l1, tr2);
    NewStepsAre(kl, kn, tr1, n1);
    PairStepsMore(c, T1, Pair(kl, n1), Pair(l1, n1));
    NewStepsAre(l1, n1, tr2, n2);
    PairStepsJoin(c, T1 + [Pair(l1, n1)], Pair(l1, n1), T2, Pair(l1, n2));
    PairStepsJoin(c, T1 + [Pair(l1, n1)] + T2, Pair(l1, n2), tr3, Pair(l3, n3));
    OldStepsAre(l3, tr4, l4, n3);
    PairStepsJoin(c, T1 + [Pair(l1, n1)] + T2 + tr3, Pair(l3, n3), OldSteps(tr4, n3), Pair(l4, n3));
  }

  /** Steps 2.1 and 2.2 */
  method RankSlots(y: Leaf) returns (pos: array<int>)
    requires LeafOk(y) && IsFull(y)
    ensures fresh(pos) && pos.Length == LEAF_KEY_NUM && Ranked(y, pos[..])
  {
    hide LeafOk, IsFull, Ranked, SortedBy, Within, InRange, Iota;
    pos := new int[LEAF_KEY_NUM](i => i);
    ghost var was := pos[..];
    Counted(y, was);
    QSortBleaf(y.ent, 0, LEAF_KEY_NUM - 1, pos);
    RankedBy(y, was, pos[..]);
  }

  lemma {:induction false} Counted(y: Leaf, s: seq<int>)
    requires LeafOk(y) && |s| == LEAF_KEY_NUM && forall i :: 0 <= i < LEAF_KEY_NUM ==> s[i] == i
    ensures s == Iota(LEAF_KEY_NUM) && InRange(s, |y.ent|)
  {
  }

  lemma {:induction false} RankedBy(y: Leaf, was: seq<int>, pos: seq<int>)
    requires LeafOk(y) && IsFull(y) && |pos| == LEAF_KEY_NUM && InRange(pos, |y.ent|) && SortedBy(y.ent, pos, 0, LEAF_KEY_NUM)
    requires was == Iota(LEAF_KEY_NUM) && Within(was, pos, 0, LEAF_KEY_NUM)
    ensures Ranked(y, pos)
  {
    hide LeafOk, IsFull, SortedBy, Iota;
    PermutationFacts(pos, LEAF_KEY_NUM);
  }

  lemma {:induction false} RelockHalf(y: Leaf, splitKey: Key, z: Leaf, z': Leaf, n: Leaf)
    requires SplitHalf(y, splitKey, z, n) && z' == z.(m := z.m.(lock := z'.m.lock))
    ensures SplitHalf(y, splitKey, z', n)
  {
    assert LeafOk(z') && Entries(z') == Entries(z);
    hide LeafOk;
  }

  lemma {:induction false} HalfOk(y: Leaf, splitKey: Key, z: Leaf, n: Leaf)
    requires SplitHalf(y, splitKey, z, n)
    ensures LeafOk(z)
  {
  }

  lemma {:induction false} NotInUpper(y: Leaf, splitKey: Key, z: Leaf, n: Leaf, e: IdxEntry)
    requires SplitHalf(y, splitKey, z, n) && !HasKey(Entries(y), e.k)
    ensures !HasKey(Entries(n), e.k) && !HasKey(Entries(z), e.k) && e.k != splitKey
  {
    forall f | f in Entries(z) || f in Entries(n) ensures f.k != e.k {
      assert f in Entries(z) + Entries(n);
    }
  }

  /** Step 2 of `insert`, leaf part: split the full leaf and put the new entry on its side. */
  method SplitLeaf(kl: Cell, kn: Cell, newp: Ptr, e: IdxEntry, underParent: bool, ghost safe: bool)
    returns (kl': Cell, kn': Cell, splitKey: Key, ghost z: Leaf, ghost tr: seq<Pair>)
    requires kl.Shape() && kn.Shape() && LeafOk(kl.Now()) && IsFull(kl.Now()) && !HasKey(Entries(kl.Now()), e.k) && kl.Now().m.lock
    requires safe ==> Quiet(kl)
    ensures kl'.Shape() && kn'.Shape() && kl'.wb == kl'.low && Quiet(kn')
    ensures SplitDone(kl.Now(), e, splitKey, kl'.Now(), kn'.Now()) && SplitMiddle(kl.Now(), e, z, kn'.Now())
    ensures z.NextSibling() == newp && kl'.Now().NextSibling() == newp && kl'.Now().m.lock == !underParent
    ensures HalfBelow(Entries(kl.Now()), splitKey)
    ensures safe ==> Quiet(kl') && forall i :: 0 <= i < |tr| ==> SplitSafe(tr[i], kl.Now(), z, kl'.Now(), kn'.Now())
    ensures PairSteps(Pair(kl, kn), tr, Pair(kl', kn'))
  {
    hide Steps, PairSteps, HalfBelow;
    ghost var y := kl.Now();
    var k1, inNew;
    k1, kn', splitKey, inNew, tr := SplitCommit(kl, kn, newp, e, underParent, safe);
    z := k1.Now();
    kl' := k1;
    if !inNew {
      NotInUpper(y, splitKey, z, kn'.Now(), e);
      var meta := k1.Now().m;
      if underParent { meta := meta.(lock := false); }
      ghost var tr1;
      kl', tr1 := InsertSlot(k1, meta, e, safe);
      AddedToOld(y, e, splitKey, z, kn'.Now(), kl'.Now());
      if safe { SplitTrace(tr, tr1, kn', y, z, kl'.Now()); }
      OldStepsAre(k1, tr1, kl', kn');
      PairStepsJoin(Pair(kl, kn), tr, Pair(k1, kn'), OldSteps(tr1, kn'), Pair(kl', kn'));
      tr := tr + OldSteps(tr1, kn');
    }
    hide LeafOk;
  }

  lemma {:induction false} SplitTrace(tr: seq<Pair>, tr1: seq<Cell>, kn: Cell, y: Leaf, z: Leaf, w: Leaf)
    requires Quiet(kn) && AllSafe(tr1, z, w)
    requires forall i :: 0 <= i < |tr| ==> SplitSafe(tr[i], y, z, z, kn.Now())
    ensures var tr' := tr + OldSteps(tr1, kn); forall i :: 0 <= i < |tr'| ==> SplitSafe(tr'[i], y, z, w, kn.Now())
  {
    var tr' := tr + OldSteps(tr1, kn);
    SafeShows(kn, kn.Now(), kn.Now());
    forall i | 0 <= i < |tr1| ensures Shows(tr1[i], z, w) { SafeShows(tr1[i], z, w); }
    hide LeafOk, CellSafe, Quiet, AllSafe;
    forall i | 0 <= i < |tr| ensures SplitSafe(tr'[i], y, z, w, kn.Now()) {
      assert SplitSafe(tr[i], y, z, z, kn.Now());
      if Shows(tr[i].l, z, z) { ShowsMore(tr[i].l, z, w); }
    }
  }

  lemma {:induction false} ShowsMore(k: Cell, y: Leaf, z: Leaf)
    requires Shows(k, y, y)
    ensures Shows(k, y, z)
  {
  }
}
