/** The node operations meet the conditions of the state machine's steps: what the steps allow is what the operations do. */
module ConcurrentNodes {
  import opened Types
  import opened LeafNode
  import opened Nvm
  import opened LeafOps
  import opened LeafSplit
  import opened TreeSteps
  import opened InnerNode
  import opened LbTree
  import opened Concurrent

  /** Step 1 of `insert`, on the locked leaf: its outcome is one that `Store` allows. */
  method StoreEntry(k: Cell, e: IdxEntry) returns (k': Cell)
    requires k.Shape() && LeafOk(k.Now()) && !IsFull(k.Now()) && !HasKey(Entries(k.Now()), e.k)
    ensures k'.Shape() && NewLeaf(Plain(k.Now()), k'.Now(), Entries(Plain(k.Now())) + {e})
  {
    ghost var tr;
    k', tr := InsertSlot(k, k.Now().m.(lock := false), e, false);
    SamePlain(k.Now());
  }

  /** Step 1 of `del`, on the locked leaf: its outcome is one that `Erase` allows. */
  method EraseEntry(k: Cell, i: nat) returns (k': Cell)
    requires k.Shape() && LeafOk(k.Now()) && k.Now().Used(i)
    ensures k'.Shape() && NewLeaf(Plain(k.Now()), k'.Now(), Without(Entries(Plain(k.Now())), k.Now().ent[i].k))
  {
    ghost var tr;
    k', tr := RemoveSlot(k, i, false);
    SamePlain(k.Now());
    OnlyKey(k.Now(), i);
  }

  /** Step 2 of `insert`, on the locked leaf: its outcome is one that `SplitLeaf` allows. */
  method DivideLeaf(kl: Cell, kn: Cell, newp: Ptr, e: IdxEntry, h: nat) returns (kl': Cell, kn': Cell, splitKey: Key)
    requires kl.Shape() && kn.Shape() && LeafOk(kl.Now()) && IsFull(kl.Now()) && !HasKey(Entries(kl.Now()), e.k) && kl.Now().m.lock
    ensures kl'.Shape() && kn'.Shape() && SplitDone(Plain(kl.Now()), e, splitKey, kl'.Now(), kn'.Now())
    ensures kl'.Now().NextSibling() == newp && (kl'.Now().m.lock <==> h == 0)
  {
    ghost var z, tr;
    kl', kn', splitKey, z, tr := LeafSplit.SplitLeaf(kl, kn, newp, e, h > 0, false);
    PlainSplit(kl.Now(), e, splitKey, kl'.Now(), kn'.Now());
  }

  /** The non-full case of Part 3: its outcome is one that `Fill` allows. */
  method FillNode(was: Inner, pos: nat, n: IdxEntry) returns (p': Inner)
    requires NodeOk(was) && was.num < NON_LEAF_KEY_NUM && pos <= was.num
    ensures NodeOk(p') && !p'.lock && Children(p') == InsertAt(Children(was), pos, n)
  {
    p' := InsertChild(was, pos + 1, n);
    p' := p'.(lock := false);
  }

  /** The full case of Part 3: its outcome is one that `SplitInner` allows. */
  method DivideNode(was: Inner, pos: nat, n: IdxEntry, raw: RawInner, q: Ptr, last: bool) returns (p': Inner, q': Inner, n': IdxEntry)
    requires NodeOk(was) && was.num == NON_LEAF_KEY_NUM && pos <= was.num && was.lock
    ensures NodeOk(p') && NodeOk(q') && (p'.lock <==> last) && !q'.lock && n'.ch == q
    ensures var ks := InsertAt(Children(was), pos, n);
      && LEFT_KEY_NUM + 1 < |ks| && Children(p') == ks[..LEFT_KEY_NUM + 1] && Children(q') == ks[LEFT_KEY_NUM + 1..] && n'.k == ks[LEFT_KEY_NUM + 1].k
  {
    var up;
    p', q', up := SplitNode(was, pos + 1, n, raw);
    OverfullAt(was, pos + 1, n);
    ghost var ks := Children(p');
    if !last { p' := p'.(lock := false); }
    assert Children(p') == ks;
    n' := IdxEntry(up, q);
  }

  lemma {:induction false} SamePlain(x: Leaf)
    requires LeafOk(x)
    ensures LeafOk(Plain(x)) && Entries(Plain(x)) == Entries(x) && Plain(x).NextSibling() == x.NextSibling()
  {
  }

  lemma {:induction false} OnlyKey(x: Leaf, i: nat)
    requires LeafOk(x) && x.Used(i)
    ensures Entries(x) - {x.ent[i]} == Without(Entries(x), x.ent[i].k)
  {
    forall e | e in Entries(x) && e.k == x.ent[i].k ensures e == x.ent[i] {
      var j :| 0 <= j < LEAF_KEY_NUM && x.m.bitmap[j] && x.ent[j] == e;
    }
  }

  lemma {:induction false} PlainSplit(y: Leaf, e: IdxEntry, splitKey: Key, w: Leaf, n: Leaf)
    requires SplitDone(y, e, splitKey, w, n)
    ensures SplitDone(Plain(y), e, splitKey, w, n)
  {
    SamePlain(y);
    hide LeafOk, Entries;
  }
}
