/** Operations inside one DRAM inner node: search, insertion of a child, split, and removal of a child. */
module InnerNode {
  import opened Types
  import opened TreeSteps

  predicate NodeOk(n: Inner) {
    |n.ent| == NON_LEAF_KEY_NUM + 1 && 0 <= n.num <= NON_LEAF_KEY_NUM
  }

  /** The valid part of the node: `num + 1` children. */
  function Children(n: Inner): seq<IdxEntry>
    requires NodeOk(n)
  {
    n.ent[..n.num + 1]
  }

  predicate KeysAscend(ks: seq<IdxEntry>) {
    forall i, j :: 1 <= i < j < |ks| ==> ks[i].k < ks[j].k
  }

  /** The child a search for `key` goes to. */
  function PosIn(ks: seq<IdxEntry>, key: Key): (c: nat)
    requires ks != []
    ensures c < |ks|
    ensures KeysAscend(ks) ==> Position(ks, key, c)
  {
    if |ks| == 1 || ks[|ks| - 1].k <= key then |ks| - 1 else PosIn(ks[..|ks| - 1], key)
  }

  lemma {:induction false} PosInIs(ks: seq<IdxEntry>, key: Key, c: nat)
    requires KeysAscend(ks) && Position(ks, key, c)
    ensures PosIn(ks, key) == c
  {
  }

  /** Binary search narrows to at most 7 keys (or hits the key), then a sequential search finishes. */
  method Search(n: Inner, key: Key) returns (pos: nat)
    requires NodeOk(n) && KeysAscend(Children(n))
    ensures Position(Children(n), key, pos)
  {
    var b, t := 1, n.num;
    while b + 7 <= t
      invariant 1 <= b <= t + 1 <= n.num + 1
      invariant forall i :: 1 <= i < b ==> n.ent[i].k < key
      invariant forall i :: t < i <= n.num ==> key < n.ent[i].k
      decreases t - b
    {
      var m := (b + t) / 2;
      assert forall i | 1 <= i <= n.num :: Children(n)[i] == n.ent[i];
      var r := key - n.ent[m].k;
      if r > 0 {
        b := m + 1;
      } else if r < 0 {
        t := m - 1;
      } else {
        return m;
      }
    }
    while b <= t && !(key < n.ent[b].k)
      invariant 1 <= b <= t + 1 <= n.num + 1
      invariant forall i :: 1 <= i < b ==> n.ent[i].k <= key
      invariant forall i :: t < i <= n.num ==> key < n.ent[i].k
    {
      b := b + 1;
    }
    return b - 1;
  }

  /** The non-full case of Part 3 of `insert`: shift and store. */
  method InsertChild(n: Inner, pos: nat, e: IdxEntry) returns (n': Inner)
    requires NodeOk(n) && n.num < NON_LEAF_KEY_NUM && 1 <= pos <= n.num + 1
    ensures NodeOk(n') && n'.lock == n.lock && Children(n') == InsertAt(Children(n), pos - 1, e)
  {
    var ent := n.ent;
    var i := n.num;
    while i >= pos
      invariant pos - 1 <= i <= n.num && |ent| == |n.ent|
      invariant forall j :: 0 <= j <= i + 1 && j <= n.num ==> ent[j] == n.ent[j]
      invariant forall j :: i + 1 < j <= n.num + 1 ==> ent[j] == n.ent[j - 1]
    {
      ent := ent[i + 1 := ent[i]];
      i := i - 1;
    }
    ent := ent[pos := e];
    n' := Inner(n.lock, n.num + 1, ent);
    InsertDone(n, pos, e, n');
  }

  lemma {:induction false} InsertDone(n: Inner, pos: nat, e: IdxEntry, n': Inner)
    requires NodeOk(n) && NodeOk(n') && n'.num == n.num + 1 && 1 <= pos <= n.num + 1
    requires (forall j :: 0 <= j < pos ==> n'.ent[j] == n.ent[j]) && n'.ent[pos] == e && (forall j :: pos < j <= n.num + 1 ==> n'.ent[j] == n.ent[j - 1])
    ensures Children(n') == InsertAt(Children(n), pos - 1, e)
  {
    var c, d := Children(n'), InsertAt(Children(n), pos - 1, e);
    forall j | 0 <= j < |c| ensures c[j] == d[j] { assert c[j] == n'.ent[j]; }
  }

  /** The children of a full node with the new child put in: one more than fits. */
  function Overfull(n: Inner, pos: nat, e: IdxEntry): seq<IdxEntry>
    requires NodeOk(n) && 1 <= pos <= n.num + 1
  {
    InsertAt(Children(n), pos - 1, e)
  }

  /**
   * The full case of Part 3 of `insert`. `newp`'s entry 0 first holds the key that is pushed up;
   * it is read before the count and lock overwrite it.
   */
  method SplitNode(n: Inner, pos: nat, e: IdxEntry, newp0: Inner) returns (n': Inner, newp: Inner, up: Key)
    requires NodeOk(n) && n.num == NON_LEAF_KEY_NUM && 1 <= pos <= NON_LEAF_KEY_NUM + 1 && |newp0.ent| == NON_LEAF_KEY_NUM + 1
    ensures NodeOk(n') && NodeOk(newp) && n'.lock == n.lock && !newp.lock
    ensures n'.num == LEFT_KEY_NUM == 7 && newp.num == RIGHT_KEY_NUM == 8
    ensures Children(n') == Overfull(n, pos, e)[..LEFT_KEY_NUM + 1]
    ensures Children(newp) == Overfull(n, pos, e)[LEFT_KEY_NUM + 1..]
    ensures up == Overfull(n, pos, e)[LEFT_KEY_NUM + 1].k
  {
    var ent, nent;
    if pos <= LEFT_KEY_NUM {
      ent, nent := SplitLeftSide(n, pos, e, newp0.ent);
    } else {
      nent := SplitRightSide(n, pos, e, newp0.ent);
      ent := n.ent;
    }
    up := nent[0].k;
    n' := Inner(n.lock, LEFT_KEY_NUM, ent);
    newp := Inner(false, RIGHT_KEY_NUM, nent);
    assert forall j | 0 <= j <= LEFT_KEY_NUM :: Children(n')[j] == Overfull(n, pos, e)[j];
    assert forall j | 0 <= j <= RIGHT_KEY_NUM :: Children(newp)[j] == Overfull(n, pos, e)[LEFT_KEY_NUM + 1 + j];
  }

  lemma {:induction false} OverfullAt(n: Inner, pos: nat, e: IdxEntry)
    requires NodeOk(n) && n.num == NON_LEAF_KEY_NUM && 1 <= pos <= NON_LEAF_KEY_NUM + 1
    ensures |Overfull(n, pos, e)| == NON_LEAF_KEY_NUM + 2
    ensures forall j :: 0 <= j < NON_LEAF_KEY_NUM + 2 ==>
      Overfull(n, pos, e)[j] == if j < pos then n.ent[j] else if j == pos then e else n.ent[j - 1]
  {
  }

  lemma {:induction false} LeftDone(n: Inner, pos: nat, e: IdxEntry, ent: seq<IdxEntry>, nent: seq<IdxEntry>)
    requires NodeOk(n) && n.num == NON_LEAF_KEY_NUM && 1 <= pos <= LEFT_KEY_NUM && |ent| == |nent| == NON_LEAF_KEY_NUM + 1
    requires (forall j :: 0 <= j < pos ==> ent[j] == n.ent[j]) && ent[pos] == e && (forall j :: pos < j <= LEFT_KEY_NUM ==> ent[j] == n.ent[j - 1])
    requires forall j :: 0 <= j <= RIGHT_KEY_NUM ==> nent[j] == n.ent[j + LEFT_KEY_NUM]
    ensures forall j :: 0 <= j <= LEFT_KEY_NUM ==> ent[j] == Overfull(n, pos, e)[j]
    ensures forall j :: 0 <= j <= RIGHT_KEY_NUM ==> nent[j] == Overfull(n, pos, e)[LEFT_KEY_NUM + 1 + j]
  {
    OverfullAt(n, pos, e);
    hide Overfull;
  }

  lemma {:induction false} RightDone(n: Inner, pos: nat, e: IdxEntry, nent: seq<IdxEntry>)
    requires NodeOk(n) && n.num == NON_LEAF_KEY_NUM && LEFT_KEY_NUM < pos <= NON_LEAF_KEY_NUM + 1 && |nent| == NON_LEAF_KEY_NUM + 1
    requires forall j :: 0 <= j <= RIGHT_KEY_NUM ==>
      nent[j] == if j < pos - LEFT_KEY_NUM - 1 then n.ent[j + LEFT_KEY_NUM + 1] else if j == pos - LEFT_KEY_NUM - 1 then e else n.ent[j + LEFT_KEY_NUM]
    ensures forall j :: 0 <= j <= LEFT_KEY_NUM ==> n.ent[j] == Overfull(n, pos, e)[j]
    ensures forall j :: 0 <= j <= RIGHT_KEY_NUM ==> nent[j] == Overfull(n, pos, e)[LEFT_KEY_NUM + 1 + j]
  {
    OverfullAt(n, pos, e);
    hide Overfull;
  }

  /** The new key belongs to the left node. */
  method SplitLeftSide(n: Inner, pos: nat, e: IdxEntry, nent0: seq<IdxEntry>) returns (ent: seq<IdxEntry>, nent: seq<IdxEntry>)
    requires NodeOk(n) && n.num == NON_LEAF_KEY_NUM && 1 <= pos <= LEFT_KEY_NUM && |nent0| == NON_LEAF_KEY_NUM + 1
    ensures |ent| == |nent| == NON_LEAF_KEY_NUM + 1
    ensures forall j :: 0 <= j <= LEFT_KEY_NUM ==> ent[j] == Overfull(n, pos, e)[j]
    ensures forall j :: 0 <= j <= RIGHT_KEY_NUM ==> nent[j] == Overfull(n, pos, e)[LEFT_KEY_NUM + 1 + j]
  {
    hide Overfull;
    ent, nent := n.ent, nent0;
    var r, i: int := RIGHT_KEY_NUM, NON_LEAF_KEY_NUM;
    while r >= 0
      invariant -1 <= r <= RIGHT_KEY_NUM && i == r + LEFT_KEY_NUM && |nent| == NON_LEAF_KEY_NUM + 1
      invariant forall j :: r < j <= RIGHT_KEY_NUM ==> nent[j] == n.ent[j + LEFT_KEY_NUM]
    {
      nent := nent[r := ent[i]];
      r, i := r - 1, i - 1;
    }
    i := LEFT_KEY_NUM - 1;
    while i >= pos
      invariant pos - 1 <= i <= LEFT_KEY_NUM - 1 && |ent| == NON_LEAF_KEY_NUM + 1
      invariant forall j :: 0 <= j <= i + 1 ==> ent[j] == n.ent[j]
      invariant forall j :: i + 1 < j <= LEFT_KEY_NUM ==> ent[j] == n.ent[j - 1]
    {
      ent := ent[i + 1 := ent[i]];
      i := i - 1;
    }
    ent := ent[pos := e];
    LeftDone(n, pos, e, ent, nent);
  }

  /** The new key belongs to the right node, or is the one pushed up. */
  method SplitRightSide(n: Inner, pos: nat, e: IdxEntry, nent0: seq<IdxEntry>) returns (nent: seq<IdxEntry>)
    requires NodeOk(n) && n.num == NON_LEAF_KEY_NUM && LEFT_KEY_NUM < pos <= NON_LEAF_KEY_NUM + 1 && |nent0| == NON_LEAF_KEY_NUM + 1
    ensures |nent| == NON_LEAF_KEY_NUM + 1
    ensures forall j :: 0 <= j <= LEFT_KEY_NUM ==> n.ent[j] == Overfull(n, pos, e)[j]
    ensures forall j :: 0 <= j <= RIGHT_KEY_NUM ==> nent[j] == Overfull(n, pos, e)[LEFT_KEY_NUM + 1 + j]
  {
    hide Overfull;
    nent := nent0;
    var r, i: int := RIGHT_KEY_NUM, NON_LEAF_KEY_NUM;
    while i >= pos
      invariant pos - 1 <= i <= NON_LEAF_KEY_NUM && r == i - LEFT_KEY_NUM && |nent| == NON_LEAF_KEY_NUM + 1
      invariant forall j :: r < j <= RIGHT_KEY_NUM ==> nent[j] == n.ent[j + LEFT_KEY_NUM]
    {
      nent := nent[r := n.ent[i]];
      i, r := i - 1, r - 1;
    }
    nent := nent[r := e];
    r := r - 1;
    while r >= 0
      invariant -1 <= r <= pos - LEFT_KEY_NUM - 2 && i == r + LEFT_KEY_NUM + 1 && |nent| == NON_LEAF_KEY_NUM + 1
      invariant forall j :: pos - LEFT_KEY_NUM - 1 < j <= RIGHT_KEY_NUM ==> nent[j] == n.ent[j + LEFT_KEY_NUM]
      invariant nent[pos - LEFT_KEY_NUM - 1] == e
      invariant forall j :: r < j < pos - LEFT_KEY_NUM - 1 ==> nent[j] == n.ent[j + LEFT_KEY_NUM + 1]
    {
      nent := nent[r := n.ent[i]];
      r, i := r - 1, i - 1;
    }
    RightDone(n, pos, e, nent);
  }

  /** The "more than one child" case of Part 3 of `del`. */
  method RemoveChild(n: Inner, pos0: nat) returns (n': Inner)
    requires NodeOk(n) && n.num > 0 && pos0 <= n.num
    ensures NodeOk(n') && n'.lock == n.lock && n'.num == n.num - 1
    ensures Children(n') == RemoveKid(Children(n), pos0)
  {
    var ent, pos := n.ent, pos0;
    if pos == 0 {
      ent := ent[0 := ent[0].(ch := ent[1].ch)];
      pos := 1;
    }
    for i := pos to n.num
      invariant |ent| == |n.ent|
      invariant ent[0] == if pos0 == 0 then n.ent[0].(ch := n.ent[1].ch) else if pos0 < i then n.ent[0] else ent[0]
      invariant forall j :: 1 <= j < pos ==> ent[j] == n.ent[j]
      invariant forall j :: pos <= j < i ==> ent[j] == n.ent[j + 1]
      invariant forall j :: i <= j < |ent| ==> ent[j] == n.ent[j]
      invariant pos0 > 0 ==> ent[0] == n.ent[0]
    {
      ent := ent[i := ent[i + 1]];
    }
    n' := Inner(n.lock, n.num - 1, ent);
    RemoveKidAt(n, pos0);
    hide RemoveKid;
    assert Children(n') == RemoveKid(Children(n), pos0);
  }

  lemma {:induction false} RemoveKidAt(n: Inner, pos: nat)
    requires NodeOk(n) && n.num > 0 && pos <= n.num
    ensures |RemoveKid(Children(n), pos)| == n.num
    ensures forall j | 0 <= j < n.num ::
      RemoveKid(Children(n), pos)[j] ==
      if pos == 0 && j == 0 then n.ent[0].(ch := n.ent[1].ch) else if j < pos then n.ent[j] else n.ent[j + 1]
  {
  }
}
