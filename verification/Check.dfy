/** `check` and `checkFirstLeaf`: what they accept. */
module TreeCheck {
  import opened Types
  import opened LeafNode
  import opened InnerNode
  import opened LeafLevel

  const MAX_KEY: int := KEY_LIMIT
  const MIN_KEY: int := -1

  // ---------------------------------------------------------------- what is accepted

  /** A leaf that passes: aligned, not empty, right fingerprints, not locked. */
  predicate LeafGood(leaf: map<Ptr, Leaf>, p: Ptr) {
    && p != NULL && p % 256 == 0 && p in leaf && leaf[p].Shape() && Entries(leaf[p]) != {} && !leaf[p].m.lock
    && forall i :: 0 <= i < LEAF_KEY_NUM && leaf[p].m.bitmap[i] ==> hashcode1B(leaf[p].ent[i].k) == leaf[p].m.fgpt[i]
  }

  predicate InRange(x: Leaf, lo: int, hi: int) {
    forall e :: e in EntriesOf(x) ==> lo <= e.k < hi
  }

  predicate InnerGood(inner: map<Ptr, Inner>, p: Ptr) {
    p != NULL && p % 64 == 0 && p in inner && NodeOk(inner[p]) && !inner[p].lock
  }

  function KidsIn(inner: map<Ptr, Inner>, e: IdxEntry): seq<IdxEntry>
    requires InnerGood(inner, e.ch)
  {
    [IdxEntry(e.k, Children(inner[e.ch])[0].ch)] + Children(inner[e.ch])[1..]
  }

  function NextKey(L: seq<IdxEntry>, hi: int): int { if L == [] then hi else L[0].k }

  /** The subtree of `e.ch` passes, and its keys lie from `e.k` to below `hi`. */
  predicate Good(inner: map<Ptr, Inner>, leaf: map<Ptr, Leaf>, e: IdxEntry, l: nat, hi: int)
    decreases l, 0
  {
    if l == 0 then LeafGood(leaf, e.ch) && InRange(leaf[e.ch], e.k, hi)
    else InnerGood(inner, e.ch) && AllGood(inner, leaf, KidsIn(inner, e), l - 1, hi)
  }

  /** The subtrees of a list pass, each in the range up to the next. */
  predicate AllGood(inner: map<Ptr, Inner>, leaf: map<Ptr, Leaf>, L: seq<IdxEntry>, l: nat, hi: int)
    decreases l, 1, |L|
  {
    L == [] || (Good(inner, leaf, L[0], l, NextKey(L[1..], hi)) && AllGood(inner, leaf, L[1..], l, hi))
  }

  /** The leaves below a node, in order. */
  function Under(inner: map<Ptr, Inner>, p: Ptr, l: nat): seq<Ptr>
    decreases l, 0
  {
    if l == 0 then [p] else if p in inner && NodeOk(inner[p]) then UnderAll(inner, Children(inner[p]), l - 1) else []
  }

  function UnderAll(inner: map<Ptr, Inner>, ks: seq<IdxEntry>, l: nat): seq<Ptr>
    decreases l, 1, |ks|
  {
    if ks == [] then [] else UnderAll(inner, ks[..|ks| - 1], l) + Under(inner, ks[|ks| - 1].ch, l)
  }

  function Next(leaf: map<Ptr, Leaf>, p: Ptr): Ptr {
    if p in leaf && leaf[p].Shape() then leaf[p].NextSibling() else NULL
  }

  /** The live sibling pointers lead from `prev`, if there is one, through the list. */
  predicate ChainFrom(leaf: map<Ptr, Leaf>, prev: Ptr, list: seq<Ptr>) {
    forall i :: 0 <= i < |list| ==> StepFrom(leaf, Before(prev, list, i), list[i])
  }

  function Before(prev: Ptr, list: seq<Ptr>, i: nat): Ptr
    requires i <= |list|
  {
    if i == 0 then prev else list[i - 1]
  }

  predicate StepFrom(leaf: map<Ptr, Leaf>, p: Ptr, q: Ptr) { p == NULL || Next(leaf, p) == q }

  /** Memory the check can visit: every address it meets is null or a node of its level. */
  predicate Known(inner: map<Ptr, Inner>, leaf: map<Ptr, Leaf>, p: Ptr, l: nat)
    decreases l
  {
    p == NULL ||
    if l == 0 then p in leaf && leaf[p].Shape()
    else
      && p in inner && |inner[p].ent| == NON_LEAF_KEY_NUM + 1 && inner[p].num <= NON_LEAF_KEY_NUM
      && forall i :: 0 <= i <= inner[p].num ==> Known(inner, leaf, inner[p].ent[i].ch, l - 1)
  }

  // ---------------------------------------------------------------- the check itself

  /** `getMinMaxKey` */
  method GetMinMaxKey(x: Leaf) returns (min: int, max: int)
    requires x.Shape()
    ensures forall e :: e in Entries(x) ==> min <= e.k <= max
    ensures Entries(x) != {} ==> (exists e :: e in Entries(x) && e.k == min) && (exists e :: e in Entries(x) && e.k == max)
  {
    max, min := MIN_KEY, MAX_KEY;
    ghost var lo: nat, hi: nat := 0, 0;
    for i := 0 to LEAF_KEY_NUM
      invariant forall j :: 0 <= j < i && x.m.bitmap[j] ==> min <= x.ent[j].k <= max
      invariant lo < LEAF_KEY_NUM && hi < LEAF_KEY_NUM
      invariant (forall j :: 0 <= j < i ==> !x.m.bitmap[j]) || (x.m.bitmap[lo] && x.ent[lo].k == min && x.m.bitmap[hi] && x.ent[hi].k == max)
      invariant (forall j :: 0 <= j < i ==> !x.m.bitmap[j]) ==> max == MIN_KEY && min == MAX_KEY
    {
      if x.m.bitmap[i] {
        if x.ent[i].k > max { max := x.ent[i].k; hi := i; }
        if x.ent[i].k < min { min := x.ent[i].k; lo := i; }
      }
    }
    if Entries(x) != {} { assert x.ent[lo] in Entries(x) && x.ent[hi] in Entries(x); }
  }

  /** The verdict on a subtree, whatever range it is meant for. */
  ghost predicate Verdict(inner: map<Ptr, Inner>, leaf: map<Ptr, Leaf>, p: Ptr, l: nat, prev: Ptr, ok: bool, start: int, end: int, ptr: Ptr) {
    if ok then
      && 0 <= start && end < KEY_LIMIT && ChainFrom(leaf, prev, Under(inner, p, l)) && Under(inner, p, l) != [] && ptr == Under(inner, p, l)[|Under(inner, p, l)| - 1]
      && forall lo: Key, hi: int :: Good(inner, leaf, IdxEntry(lo, p), l, hi) <==> lo <= start && end < hi
    else
      ChainFrom(leaf, prev, Under(inner, p, l)) ==> forall lo: Key, hi: int :: !Good(inner, leaf, IdxEntry(lo, p), l, hi)
  }

  /** The leaf case of `check`. */
  method CheckLeaf(inner: map<Ptr, Inner>, leaf: map<Ptr, Leaf>, lp: Ptr, prev: Ptr) returns (ok: bool, start: int, end: int)
    requires lp != NULL && lp in leaf && leaf[lp].Shape()
    ensures Verdict(inner, leaf, lp, 0, prev, ok, start, end, lp)
  {
    var x := leaf[lp];
    ok, start, end := false, 0, 0;
    CountNone(x.m.bitmap);
    NoEntries(x);
    if lp % 256 != 0 { return; }
    if CountBits(x.m.bitmap) < 1 { return; }
    start, end := GetMinMaxKey(x);
    for i := 0 to LEAF_KEY_NUM
      invariant forall j :: 0 <= j < i && x.m.bitmap[j] ==> hashcode1B(x.ent[j].k) == x.m.fgpt[j]
    {
      if x.m.bitmap[i] && hashcode1B(x.ent[i].k) != x.m.fgpt[i] { return; }
    }
    if x.m.lock { return; }
    assert LeafGood(leaf, lp);
    RangeBySides(x, start, end);
    assert Under(inner, lp, 0) == [lp];
    ChainOne(leaf, prev, lp);
    if prev != NULL && Next(leaf, prev) != lp { return; }
    KeysInside(x, start, end);
    ok := true;
  }

  lemma {:induction false} NoEntries(x: Leaf)
    requires x.Shape()
    ensures Entries(x) == {} <==> forall i :: 0 <= i < LEAF_KEY_NUM ==> !x.m.bitmap[i]
  {
    forall i | 0 <= i < LEAF_KEY_NUM && x.m.bitmap[i] ensures x.ent[i] in Entries(x) { }
  }

  lemma {:induction false} KeysInside(x: Leaf, min: int, max: int)
    requires x.Shape() && (exists e :: e in Entries(x) && e.k == min) && (exists e :: e in Entries(x) && e.k == max)
    ensures 0 <= min && max < KEY_LIMIT
  {
  }

  lemma {:induction false} RangeBySides(x: Leaf, min: int, max: int)
    requires x.Shape() && (forall e :: e in Entries(x) ==> min <= e.k <= max)
    requires (exists e :: e in Entries(x) && e.k == min) && (exists e :: e in Entries(x) && e.k == max)
    ensures forall lo, hi :: InRange(x, lo, hi) <==> lo <= min && max < hi
  {
    var a, b :| a in Entries(x) && a.k == min && b in Entries(x) && b.k == max;
    forall lo, hi ensures InRange(x, lo, hi) <==> lo <= min && max < hi {
      if InRange(x, lo, hi) { assert a in EntriesOf(x) && b in EntriesOf(x); }
    }
  }

  // ---------------------------------------------------------------- lists

  lemma {:induction false} GoodConcat(inner: map<Ptr, Inner>, leaf: map<Ptr, Leaf>, A: seq<IdxEntry>, B: seq<IdxEntry>, l: nat, hi: int)
    ensures AllGood(inner, leaf, A + B, l, hi) <==> AllGood(inner, leaf, A, l, NextKey(B, hi)) && AllGood(inner, leaf, B, l, hi)
    decreases |A|
  {
    hide Good;
    if A == [] {
      assert A + B == B;
    } else {
      assert (A + B)[1..] == A[1..] + B;
      GoodConcat(inner, leaf, A[1..], B, l, hi);
    }
  }

  lemma {:induction false} GoodLast(inner: map<Ptr, Inner>, leaf: map<Ptr, Leaf>, ks: seq<IdxEntry>, i: nat, l: nat, hi: int)
    requires i < |ks|
    ensures AllGood(inner, leaf, ks[..i + 1], l, hi) <==> AllGood(inner, leaf, ks[..i], l, ks[i].k) && Good(inner, leaf, ks[i], l, hi)
  {
    assert ks[..i + 1] == ks[..i] + [ks[i]];
    GoodConcat(inner, leaf, ks[..i], [ks[i]], l, hi);
    assert [ks[i]][1..] == [];
    hide Good;
  }

  lemma {:induction false} ChainJoin(leaf: map<Ptr, Leaf>, prev: Ptr, a: seq<Ptr>, b: seq<Ptr>)
    requires a != []
    ensures ChainFrom(leaf, prev, a + b) <==> ChainFrom(leaf, prev, a) && ChainFrom(leaf, a[|a| - 1], b)
  {
    hide StepFrom;
    var c := a + b;
    forall i | 0 <= i < |a| ensures c[i] == a[i] && Before(prev, c, i) == Before(prev, a, i) { }
    forall i | 0 <= i < |b| ensures c[|a| + i] == b[i] && Before(prev, c, |a| + i) == Before(a[|a| - 1], b, i) { }
    if ChainFrom(leaf, prev, c) {
      forall i | 0 <= i < |a| ensures StepFrom(leaf, Before(prev, a, i), a[i]) { assert StepFrom(leaf, Before(prev, c, i), c[i]); }
      forall i | 0 <= i < |b| ensures StepFrom(leaf, Before(a[|a| - 1], b, i), b[i]) { assert StepFrom(leaf, Before(prev, c, |a| + i), c[|a| + i]); }
    }
    if ChainFrom(leaf, prev, a) && ChainFrom(leaf, a[|a| - 1], b) {
      forall i | 0 <= i < |c| ensures StepFrom(leaf, Before(prev, c, i), c[i]) {
        if i < |a| {
          assert StepFrom(leaf, Before(prev, a, i), a[i]);
        } else {
          assert StepFrom(leaf, Before(a[|a| - 1], b, i - |a|), b[i - |a|]);
          assert c[|a| + (i - |a|)] == b[i - |a|];
        }
      }
    }
  }

  lemma {:induction false} ChainOne(leaf: map<Ptr, Leaf>, prev: Ptr, p: Ptr)
    ensures ChainFrom(leaf, prev, [p]) <==> StepFrom(leaf, prev, p)
  {
    assert Before(prev, [p], 0) == prev;
    if ChainFrom(leaf, prev, [p]) { assert StepFrom(leaf, Before(prev, [p], 0), [p][0]); }
  }

  /** The kids of a node with its low key, and as they are in memory: only the first one's key differs. */
  function KidsFrom(ks: seq<IdxEntry>, lo: Key): seq<IdxEntry>
    requires ks != []
  {
    [IdxEntry(lo, ks[0].ch)] + ks[1..]
  }

  /** The first `i` children pass if their keys are to be from `lo` to below `hi`. */
  predicate FirstGood(inner: map<Ptr, Inner>, leaf: map<Ptr, Leaf>, ks: seq<IdxEntry>, i: nat, l: nat, lo: Key, hi: int)
    requires 0 < i <= |ks|
  {
    AllGood(inner, leaf, KidsFrom(ks, lo)[..i], l, hi)
  }

  /** The first `i` children have passed, with keys between `start` and `end`, and the chain so far ends at `ptr`. */
  ghost predicate SoFar(inner: map<Ptr, Inner>, leaf: map<Ptr, Leaf>, ks: seq<IdxEntry>, i: nat, l: nat, prev: Ptr, start: int, end: int, ptr: Ptr)
    requires 0 < i <= |ks|
  {
    && 0 <= start && end < KEY_LIMIT && ChainFrom(leaf, prev, UnderAll(inner, ks[..i], l)) && UnderAll(inner, ks[..i], l) != []
    && ptr == UnderAll(inner, ks[..i], l)[|UnderAll(inner, ks[..i], l)| - 1]
    && forall lo: Key, hi: int :: FirstGood(inner, leaf, ks, i, l, lo, hi) <==> lo <= start && end < hi
  }

  /** Some of the first `i` children have failed, whatever range they are meant for. */
  ghost predicate Failed(inner: map<Ptr, Inner>, leaf: map<Ptr, Leaf>, ks: seq<IdxEntry>, i: nat, l: nat, prev: Ptr)
    requires 0 < i <= |ks|
  {
    ChainFrom(leaf, prev, UnderAll(inner, ks[..i], l)) ==> forall lo: Key, hi: int :: !FirstGood(inner, leaf, ks, i, l, lo, hi)
  }

  lemma {:induction false} FirstKid(inner: map<Ptr, Inner>, leaf: map<Ptr, Leaf>, ks: seq<IdxEntry>, l: nat, prev: Ptr, ok: bool, start: int, end: int, ptr: Ptr)
    requires ks != [] && Verdict(inner, leaf, ks[0].ch, l, prev, ok, start, end, ptr)
    ensures if ok then SoFar(inner, leaf, ks, 1, l, prev, start, end, ptr) else Failed(inner, leaf, ks, 1, l, prev)
  {
    hide Good, Under, UnderAll, FirstGood, ChainFrom;
    FirstUnder(inner, ks, l);
    forall lo: Key, hi: int ensures FirstGood(inner, leaf, ks, 1, l, lo, hi) <==> Good(inner, leaf, IdxEntry(lo, ks[0].ch), l, hi) {
      FirstIs(inner, leaf, ks, l, lo, hi);
    }
  }

  lemma {:induction false} FirstUnder(inner: map<Ptr, Inner>, ks: seq<IdxEntry>, l: nat)
    requires ks != []
    ensures UnderAll(inner, ks[..1], l) == Under(inner, ks[0].ch, l)
  {
    assert ks[..1][..0] == [];
    hide Under;
    assert UnderAll(inner, ks[..1], l) == [] + Under(inner, ks[0].ch, l);
  }

  lemma {:induction false} FirstIs(inner: map<Ptr, Inner>, leaf: map<Ptr, Leaf>, ks: seq<IdxEntry>, l: nat, lo: Key, hi: int)
    requires ks != []
    ensures FirstGood(inner, leaf, ks, 1, l, lo, hi) <==> Good(inner, leaf, IdxEntry(lo, ks[0].ch), l, hi)
  {
    hide Good;
    GoodLast(inner, leaf, KidsFrom(ks, lo), 0, l, hi);
    assert KidsFrom(ks, lo)[..0] == [];
  }

  lemma {:induction false} NextKidChain(inner: map<Ptr, Inner>, leaf: map<Ptr, Leaf>, ks: seq<IdxEntry>, i: nat, l: nat, prev: Ptr, ptr: Ptr)
    requires 0 < i < |ks| && UnderAll(inner, ks[..i], l) != [] && ptr == UnderAll(inner, ks[..i], l)[|UnderAll(inner, ks[..i], l)| - 1]
    requires ChainFrom(leaf, prev, UnderAll(inner, ks[..i], l))
    ensures UnderAll(inner, ks[..i + 1], l) == UnderAll(inner, ks[..i], l) + Under(inner, ks[i].ch, l)
    ensures ChainFrom(leaf, prev, UnderAll(inner, ks[..i + 1], l)) <==> ChainFrom(leaf, ptr, Under(inner, ks[i].ch, l))
  {
    assert ks[..i + 1][..i] == ks[..i];
    hide ChainFrom, Under;
    ChainJoin(leaf, prev, UnderAll(inner, ks[..i], l), Under(inner, ks[i].ch, l));
  }

  lemma {:induction false} NextKid(inner: map<Ptr, Inner>, leaf: map<Ptr, Leaf>, ks: seq<IdxEntry>, i: nat, l: nat, prev: Ptr, start: int, end: int, ptr: Ptr,
                                   ok: bool, start': int, end': int, ptr': Ptr)
    requires 0 < i < |ks| && SoFar(inner, leaf, ks, i, l, prev, start, end, ptr) && Verdict(inner, leaf, ks[i].ch, l, ptr, ok, start', end', ptr')
    ensures if ok && end < ks[i].k <= start' then SoFar(inner, leaf, ks, i + 1, l, prev, start, end', ptr') else Failed(inner, leaf, ks, i + 1, l, prev)
  {
    hide Good, ChainFrom, UnderAll, Under, AllGood;
    NextKidChain(inner, leaf, ks, i, l, prev, ptr);
    var j := i + 1;
    forall lo: Key, hi: int
      ensures FirstGood(inner, leaf, ks, j, l, lo, hi) <==> lo <= start && end < ks[i].k && Good(inner, leaf, ks[i], l, hi)
    {
      assert FirstGood(inner, leaf, ks, i, l, lo, ks[i].k) <==> lo <= start && end < ks[i].k;
      GoodLast(inner, leaf, KidsFrom(ks, lo), i, l, hi);
      assert KidsFrom(ks, lo)[i] == ks[i];
    }
    assert ks[i] == IdxEntry(ks[i].k, ks[i].ch);
  }

  /** A failure among the first children is a failure of the node. */
  lemma {:induction false} FailedLater(inner: map<Ptr, Inner>, leaf: map<Ptr, Leaf>, ks: seq<IdxEntry>, i: nat, l: nat, prev: Ptr)
    requires 0 < i <= |ks| && Failed(inner, leaf, ks, i, l, prev)
    ensures Failed(inner, leaf, ks, |ks|, l, prev)
    decreases |ks| - i
  {
    hide Good, ChainFrom, Under;
    if i < |ks| {
      assert ks[..i + 1][..i] == ks[..i];
      ChainPrefix(leaf, prev, UnderAll(inner, ks[..i], l), Under(inner, ks[i].ch, l));
      var j := i + 1;
      forall lo: Key, hi: int ensures FirstGood(inner, leaf, ks, j, l, lo, hi) ==> FirstGood(inner, leaf, ks, i, l, lo, ks[i].k) {
        GoodLast(inner, leaf, KidsFrom(ks, lo), i, l, hi);
        assert KidsFrom(ks, lo)[i] == ks[i];
      }
      hide AllGood, UnderAll, FirstGood;
      assert Failed(inner, leaf, ks, i + 1, l, prev);
      FailedLater(inner, leaf, ks, i + 1, l, prev);
    }
  }

  lemma {:induction false} ChainPrefix(leaf: map<Ptr, Leaf>, prev: Ptr, a: seq<Ptr>, b: seq<Ptr>)
    ensures ChainFrom(leaf, prev, a + b) ==> ChainFrom(leaf, prev, a)
  {
    if a != [] { ChainJoin(leaf, prev, a, b); }
  }

  lemma {:induction false} NodeVerdict(inner: map<Ptr, Inner>, leaf: map<Ptr, Leaf>, p: Ptr, l: nat, prev: Ptr, ok: bool, start: int, end: int, ptr: Ptr)
    requires l > 0 && p in inner && NodeOk(inner[p])
    requires var ks := Children(inner[p]);
      if ok then SoFar(inner, leaf, ks, |ks|, l - 1, prev, start, end, ptr) && InnerGood(inner, p) else Failed(inner, leaf, ks, |ks|, l - 1, prev) || !InnerGood(inner, p)
    ensures Verdict(inner, leaf, p, l, prev, ok, start, end, ptr)
  {
    var ks := Children(inner[p]);
    assert ks[..|ks|] == ks;
    hide AllGood, UnderAll, ChainFrom;
    forall lo: Key, hi: int
      ensures Good(inner, leaf, IdxEntry(lo, p), l, hi) <==> InnerGood(inner, p) && FirstGood(inner, leaf, ks, |ks|, l - 1, lo, hi)
    {
      assert KidsFrom(ks, lo)[..|ks|] == KidsFrom(ks, lo);
    }
  }

  /** `check` */
  method CheckNode(inner: map<Ptr, Inner>, leaf: map<Ptr, Leaf>, p: Ptr, level: nat, prev: Ptr) returns (ok: bool, start: int, end: int, ptr: Ptr)
    requires Known(inner, leaf, p, level)
    ensures Verdict(inner, leaf, p, level, prev, ok, start, end, ptr)
    decreases level, 1
  {
    ok, start, end, ptr := false, 0, 0, prev;
    if p == NULL {
      NullFails(inner, leaf, level, prev, start, end, ptr);
      return;
    }
    if level == 0 {
      ok, start, end := CheckLeaf(inner, leaf, p, prev);
      ptr := p;
      return;
    }
    ok, start, end, ptr := CheckInner(inner, leaf, p, level, prev);
  }

  /** The case of `check` for inner nodes. */
  method CheckInner(inner: map<Ptr, Inner>, leaf: map<Ptr, Leaf>, p: Ptr, level: nat, prev: Ptr) returns (ok: bool, start: int, end: int, ptr: Ptr)
    requires Known(inner, leaf, p, level) && p != NULL && level > 0
    ensures Verdict(inner, leaf, p, level, prev, ok, start, end, ptr)
    decreases level, 0
  {
    hide Verdict, SoFar, Failed, Good, InnerGood, Known, Children;
    InMemory(inner, leaf, p, level);
    ok, start, end, ptr := false, 0, 0, prev;
    if p % 64 != 0 || inner[p].num < 0 {
      BadNode(inner, leaf, p, level, prev, start, end, ptr);
      return;
    }
    ghost var ks := Children(inner[p]);
    KnownKid(inner, leaf, p, level, 0);
    var curok, curstart, curend, curptr := CheckNode(inner, leaf, inner[p].ent[0].ch, level - 1, prev);
    FirstKid(inner, leaf, ks, level - 1, prev, curok, curstart, curend, curptr);
    NodeGood(inner, p);
    if !curok {
      ChildFails(inner, leaf, p, 1, level, prev, start, end, ptr);
      return;
    }
    start := curstart;
    if inner[p].num >= 1 && curend >= inner[p].ent[1].k {
      KnownKid(inner, leaf, p, level, 1);
      OverKey(inner, leaf, ks, 1, level - 1, prev, start, curend, curptr);
      ChildFails(inner, leaf, p, 2, level, prev, start, end, ptr);
      return;
    }
    var i := 1;
    while i < inner[p].num
      invariant 1 <= i <= |ks| && SoFar(inner, leaf, ks, i, level - 1, prev, start, curend, curptr)
      invariant i <= inner[p].num ==> curend < inner[p].ent[i].k
      invariant i <= inner[p].num || i == 1
    {
      KnownKid(inner, leaf, p, level, i);
      ghost var lastend, lastptr := curend, curptr;
      curok, curstart, curend, curptr := CheckNode(inner, leaf, inner[p].ent[i].ch, level - 1, curptr);
      NextKid(inner, leaf, ks, i, level - 1, prev, start, lastend, lastptr, curok, curstart, curend, curptr);
      KnownKid(inner, leaf, p, level, i + 1);
      if !curok || !(inner[p].ent[i].k <= curstart && curend < inner[p].ent[i + 1].k) {
        if curok && inner[p].ent[i].k <= curstart {
          OverKey(inner, leaf, ks, i + 1, level - 1, prev, start, curend, curptr);
          ChildFails(inner, leaf, p, i + 2, level, prev, start, end, ptr);
        } else {
          ChildFails(inner, leaf, p, i + 1, level, prev, start, end, ptr);
        }
        return;
      }
      i := i + 1;
    }
    if i == inner[p].num {
      KnownKid(inner, leaf, p, level, i);
      ghost var lastend, lastptr := curend, curptr;
      curok, curstart, curend, curptr := CheckNode(inner, leaf, inner[p].ent[i].ch, level - 1, curptr);
      NextKid(inner, leaf, ks, i, level - 1, prev, start, lastend, lastptr, curok, curstart, curend, curptr);
      if !curok || curstart < inner[p].ent[i].k {
        ChildFails(inner, leaf, p, i + 1, level, prev, start, end, ptr);
        return;
      }
      i := i + 1;
    }
    end := curend;
    if !inner[p].lock { ok, ptr := true, curptr; }
    NodeVerdict(inner, leaf, p, level, prev, ok, start, end, ptr);
  }

  /** A key at or above the next separator: the next child cannot pass in its place. */
  lemma {:induction false} OverKey(inner: map<Ptr, Inner>, leaf: map<Ptr, Leaf>, ks: seq<IdxEntry>, i: nat, l: nat, prev: Ptr, start: int, end: int, ptr: Ptr)
    requires 0 < i < |ks| && SoFar(inner, leaf, ks, i, l, prev, start, end, ptr) && end >= ks[i].k
    ensures Failed(inner, leaf, ks, i + 1, l, prev)
  {
    hide Good, ChainFrom, UnderAll, Under, AllGood;
    var j := i + 1;
    forall lo: Key, hi: int ensures !FirstGood(inner, leaf, ks, j, l, lo, hi) {
      assert FirstGood(inner, leaf, ks, i, l, lo, ks[i].k) <==> lo <= start && end < ks[i].k;
      GoodLast(inner, leaf, KidsFrom(ks, lo), i, l, hi);
      assert KidsFrom(ks, lo)[i] == ks[i];
    }
  }

  lemma {:induction false} ChildFails(inner: map<Ptr, Inner>, leaf: map<Ptr, Leaf>, p: Ptr, i: nat, l: nat, prev: Ptr, start: int, end: int, ptr: Ptr)
    requires l > 0 && p in inner && NodeOk(inner[p]) && 0 < i <= |Children(inner[p])| && Failed(inner, leaf, Children(inner[p]), i, l - 1, prev)
    ensures Verdict(inner, leaf, p, l, prev, false, start, end, ptr)
  {
    hide Failed, Verdict, InnerGood, SoFar;
    FailedLater(inner, leaf, Children(inner[p]), i, l - 1, prev);
    NodeVerdict(inner, leaf, p, l, prev, false, start, end, ptr);
  }

  lemma {:induction false} NodeGood(inner: map<Ptr, Inner>, p: Ptr)
    requires p != NULL && p % 64 == 0 && p in inner && NodeOk(inner[p])
    ensures InnerGood(inner, p) <==> !inner[p].lock
  {
  }

  lemma {:induction false} InMemory(inner: map<Ptr, Inner>, leaf: map<Ptr, Leaf>, p: Ptr, l: nat)
    requires p != NULL && l > 0 && Known(inner, leaf, p, l)
    ensures p in inner && |inner[p].ent| == NON_LEAF_KEY_NUM + 1 && inner[p].num <= NON_LEAF_KEY_NUM
  {
  }

  lemma {:induction false} KnownKid(inner: map<Ptr, Inner>, leaf: map<Ptr, Leaf>, p: Ptr, l: nat, i: nat)
    requires p != NULL && l > 0 && Known(inner, leaf, p, l) && i <= inner[p].num
    ensures p in inner && NodeOk(inner[p]) && |Children(inner[p])| == inner[p].num + 1 && Children(inner[p])[i] == inner[p].ent[i]
    ensures Known(inner, leaf, inner[p].ent[i].ch, l - 1)
  {
  }

  lemma {:induction false} NullFails(inner: map<Ptr, Inner>, leaf: map<Ptr, Leaf>, l: nat, prev: Ptr, start: int, end: int, ptr: Ptr)
    ensures Verdict(inner, leaf, NULL, l, prev, false, start, end, ptr)
  {
  }

  lemma {:induction false} BadNode(inner: map<Ptr, Inner>, leaf: map<Ptr, Leaf>, p: Ptr, l: nat, prev: Ptr, start: int, end: int, ptr: Ptr)
    requires l > 0 && p in inner && (p % 64 != 0 || inner[p].num < 0)
    ensures Verdict(inner, leaf, p, l, prev, false, start, end, ptr)
  {
  }

  /** The descent of `checkFirstLeaf` */
  method FirstLeaf(inner: map<Ptr, Inner>, leaf: map<Ptr, Leaf>, root: Ptr, h: nat, ghost lo: Key, ghost hi: int) returns (p: Ptr)
    requires Good(inner, leaf, IdxEntry(lo, root), h, hi)
    ensures Under(inner, root, h) != [] && p == Under(inner, root, h)[0]
  {
    p := root;
    var i := h;
    while i > 0
      invariant 0 <= i <= h && SomeGood(inner, leaf, lo, p, i)
      invariant Under(inner, p, i) != [] ==> Under(inner, root, h) != [] && Under(inner, p, i)[0] == Under(inner, root, h)[0]
      decreases i
    {
      LeftKid(inner, leaf, p, i, lo);
      p := inner[p].ent[0].ch;
      i := i - 1;
    }
  }

  ghost predicate SomeGood(inner: map<Ptr, Inner>, leaf: map<Ptr, Leaf>, lo: Key, p: Ptr, l: nat) {
    exists hi :: Good(inner, leaf, IdxEntry(lo, p), l, hi)
  }

  lemma {:induction false} LeftKid(inner: map<Ptr, Inner>, leaf: map<Ptr, Leaf>, p: Ptr, l: nat, lo: Key)
    requires l > 0 && SomeGood(inner, leaf, lo, p, l)
    ensures p in inner && NodeOk(inner[p]) && SomeGood(inner, leaf, lo, inner[p].ent[0].ch, l - 1)
    ensures Under(inner, inner[p].ent[0].ch, l - 1) != [] ==> Under(inner, p, l) != [] && Under(inner, inner[p].ent[0].ch, l - 1)[0] == Under(inner, p, l)[0]
  {
    var hi :| Good(inner, leaf, IdxEntry(lo, p), l, hi);
    var ks := Children(inner[p]);
    var ks' := KidsIn(inner, IdxEntry(lo, p));
    assert AllGood(inner, leaf, ks', l - 1, hi);
    assert Good(inner, leaf, ks'[0], l - 1, NextKey(ks'[1..], hi));
    UnderFirst(inner, ks, l - 1);
  }

  lemma {:induction false} UnderFirst(inner: map<Ptr, Inner>, ks: seq<IdxEntry>, l: nat)
    requires ks != []
    ensures Under(inner, ks[0].ch, l) != [] ==> UnderAll(inner, ks, l) != [] && UnderAll(inner, ks, l)[0] == Under(inner, ks[0].ch, l)[0]
    decreases |ks|
  {
    hide Under;
    if |ks| == 1 {
      assert ks[..0] == [];
      assert UnderAll(inner, ks, l) == [] + Under(inner, ks[0].ch, l);
    } else {
      UnderFirst(inner, ks[..|ks| - 1], l);
    }
  }

  /** What `check` of a whole tree accepts. */
  predicate Accepted(inner: map<Ptr, Inner>, leaf: map<Ptr, Leaf>, root: Ptr, h: nat, first: Ptr) {
    && Good(inner, leaf, IdxEntry(0, root), h, KEY_LIMIT)
    && ChainFrom(leaf, NULL, Under(inner, root, h)) && Under(inner, root, h) != [] && Under(inner, root, h)[0] == first
  }

  /** The public `check`. */
  method Check(inner: map<Ptr, Inner>, leaf: map<Ptr, Leaf>, root: Ptr, h: nat, first: Ptr) returns (ok: bool)
    requires Known(inner, leaf, root, h)
    ensures ok <==> Accepted(inner, leaf, root, h, first)
  {
    hide Known, Good, ChainFrom, Under;
    var start, end, ptr;
    ok, start, end, ptr := CheckNode(inner, leaf, root, h, NULL);
    if !ok { return; }
    var p := FirstLeaf(inner, leaf, root, h, 0, KEY_LIMIT);
    ok := p == first;
  }
}
