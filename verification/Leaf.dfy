/** A leaf node: header, unsorted slots, sibling pointers, and the set of entries it stands for. */
module LeafNode {
  import opened Types

  /** The 16-byte header, `bleafMeta`. */
  datatype Meta = Meta(bitmap: seq<bool>, lock: bool, alt: nat, fgpt: seq<byte>)

  datatype Leaf = Leaf(m: Meta, ent: seq<IdxEntry>, next: seq<Ptr>) {
    predicate Shape() {
      && |m.bitmap| == LEAF_KEY_NUM && |m.fgpt| == LEAF_KEY_NUM && m.alt < 2
      && |ent| == LEAF_KEY_NUM && |next| == 2
    }

    predicate Used(i: int) { 0 <= i < |m.bitmap| && m.bitmap[i] }

    function NextSibling(): Ptr
      requires Shape()
    {
      next[m.alt]
    }
  }

  /** Memory just allocated for a leaf: any contents. */
  type RawLeaf = x: Leaf | x.Shape()
    witness Leaf(Meta(seq(LEAF_KEY_NUM, _ => false), false, 0, seq(LEAF_KEY_NUM, _ => 0)),
                 seq(LEAF_KEY_NUM, _ => IdxEntry(0, NULL)), [NULL, NULL])

  /** Distinct keys in the valid slots, and a right fingerprint for each of them. */
  predicate LeafOk(x: Leaf) {
    && x.Shape()
    && (forall i, j :: 0 <= i < j < LEAF_KEY_NUM && x.m.bitmap[i] && x.m.bitmap[j] ==> x.ent[i].k != x.ent[j].k)
    && (forall i :: 0 <= i < LEAF_KEY_NUM && x.m.bitmap[i] ==> x.m.fgpt[i] == hashcode1B(x.ent[i].k))
  }

  function Entries(x: Leaf): set<IdxEntry>
    requires x.Shape()
  {
    set i | 0 <= i < LEAF_KEY_NUM && x.m.bitmap[i] :: x.ent[i]
  }

  predicate HasKey(C: set<IdxEntry>, key: Key) {
    exists e :: e in C && e.k == key
  }

  predicate UniqueKeys(C: set<IdxEntry>) {
    forall e, f :: e in C && f in C && e.k == f.k ==> e == f
  }

  // ---------------------------------------------------------------- bitmap operations

  /** `countBit(bitmap)` */
  function CountBits(b: seq<bool>): (n: nat)
    ensures n <= |b|
  {
    if b == [] then 0 else (if b[0] then 1 else 0) + CountBits(b[1..])
  }

  /** `bitScan(~bitmap) - 1`, the first clear bit, or the length if there is none. */
  function FirstClear(b: seq<bool>): (n: nat)
    ensures n <= |b| && (forall i :: 0 <= i < n ==> b[i]) && (n < |b| ==> !b[n])
  {
    if b == [] || !b[0] then 0 else 1 + FirstClear(b[1..])
  }

  predicate IsFull(x: Leaf) {
    forall i :: 0 <= i < |x.m.bitmap| ==> x.m.bitmap[i]
  }

  lemma {:induction false} CountNone(b: seq<bool>)
    ensures CountBits(b) == 0 <==> forall i :: 0 <= i < |b| ==> !b[i]
  {
    if b != [] { CountNone(b[1..]); assert forall i :: 0 < i < |b| ==> b[i] == b[1..][i - 1]; }
  }

  lemma {:induction false} CountClear(b: seq<bool>, i: nat)
    requires i < |b| && b[i]
    ensures CountBits(b[i := false]) == CountBits(b) - 1
  {
    if i == 0 {
      assert b[0 := false][1..] == b[1..];
    } else {
      CountClear(b[1..], i - 1);
      assert b[i := false][1..] == b[1..][i - 1 := false];
    }
  }

  /** A leaf with a single valid slot holds exactly that entry; with more, clearing one slot leaves something. */
  lemma {:induction false} CountEntries(x: Leaf, i: nat)
    requires LeafOk(x) && x.Used(i)
    ensures CountBits(x.m.bitmap) == 1 ==> Entries(x) == {x.ent[i]}
    ensures CountBits(x.m.bitmap) > 1 ==> exists j :: 0 <= j < LEAF_KEY_NUM && j != i && x.m.bitmap[j]
    ensures CountBits(x.m.bitmap) >= 1
  {
    CountClear(x.m.bitmap, i);
    var b := x.m.bitmap[i := false];
    CountNone(b);
    if CountBits(x.m.bitmap) == 1 {
      assert forall j | 0 <= j < LEAF_KEY_NUM && j != i :: x.m.bitmap[j] == b[j];
      assert x.ent[i] in Entries(x);
    } else {
      var j :| 0 <= j < |b| && b[j];
    }
  }

  lemma {:induction false} EntriesUnique(x: Leaf)
    requires LeafOk(x)
    ensures UniqueKeys(Entries(x))
  {
  }

  // ---------------------------------------------------------------- search

  /**
   * Step 3 of `lookup`, `insert` and `del`: the fingerprint comparison gives a candidate mask, and
   * the candidates are tried from the lowest bit up.
   */
  method SearchLeaf(x: Leaf, key: Key) returns (pos: int)
    requires LeafOk(x)
    ensures -1 <= pos < LEAF_KEY_NUM
    ensures pos >= 0 ==> x.Used(pos) && x.ent[pos].k == key && x.ent[pos] in Entries(x)
    ensures pos == -1 <==> !HasKey(Entries(x), key)
  {
    var keyHash := hashcode1B(key);
    var mask := seq(LEAF_KEY_NUM, i requires 0 <= i < LEAF_KEY_NUM => x.m.fgpt[i] == keyHash && x.m.bitmap[i]);
    pos := -1;
    while CountBits(mask) != 0
      invariant |mask| == LEAF_KEY_NUM && pos == -1
      invariant forall i :: 0 <= i < LEAF_KEY_NUM && mask[i] ==> x.m.bitmap[i]
      invariant forall i :: 0 <= i < LEAF_KEY_NUM && x.m.bitmap[i] && x.ent[i].k == key ==> mask[i]
      decreases CountBits(mask)
    {
      var jj := FirstSet(mask);
      if x.ent[jj].k == key {
        pos := jj;
        break;
      }
      CountClear(mask, jj);
      mask := mask[jj := false];
    }
    if pos == -1 { CountNone(mask); }
    if pos >= 0 { assert x.ent[pos] in Entries(x); }
  }

  /** `bitScan(mask) - 1` for a nonzero mask */
  function FirstSet(b: seq<bool>): (n: nat)
    requires CountBits(b) != 0
    ensures n < |b| && b[n] && forall i :: 0 <= i < n ==> !b[i]
  {
    if b[0] then 0 else 1 + FirstSet(b[1..])
  }
}
