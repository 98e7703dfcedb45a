/**
 * Log records as bytes. Every record starts and ends with its tag, and a record of variable length carries
 * the length at both ends, so that a log can be parsed from the front by head tags and from the back by tail tags.
 */
module LogCodec {
  import opened Types
  import LogArea

  const NL_NEW1B: byte := 0x1
  const NL_NEW2B: byte := 0x2
  const NL_NEW4B: byte := 0x3
  const NL_NEW8B: byte := 0x4
  const NL_NEWVCHAR: byte := 0x5
  const NL_WRITE1B: byte := 0x6
  const NL_WRITE2B: byte := 0x7
  const NL_WRITE4B: byte := 0x8
  const NL_WRITE8B: byte := 0x9
  const NL_WRITEVCHAR: byte := 0xa
  const NL_REDO1B: byte := 0xb
  const NL_REDO2B: byte := 0xc
  const NL_REDO4B: byte := 0xd
  const NL_REDO8B: byte := 0xe
  const NL_REDOVCHAR: byte := 0xf
  const NL_ALLOCNODE: byte := 0x10
  const NL_DELNODE: byte := 0x11
  const NL_NEXT_CHUNK: byte := 0x20
  const NL_COMMIT: byte := 0x80
  const NL_ABORT: byte := 0x81
  const NL_ONGOING: byte := 0x82

  const ADDR_LIMIT: nat := 0x1_0000_0000_0000_0000
  const LEN_LIMIT: nat := 0x8000_0000

  type Addr = a: int | 0 <= a < ADDR_LIMIT

  datatype Rec =
    | New(addr: Addr, val: seq<byte>)
    | NewVchar(addr: Addr, val: seq<byte>)
    | Write(addr: Addr, was: seq<byte>, val: seq<byte>)
    | WriteVchar(addr: Addr, was: seq<byte>, val: seq<byte>)
    | Redo(addr: Addr, val: seq<byte>)
    | RedoVchar(addr: Addr, val: seq<byte>)
    | AllocNode(node: Addr)
    | DelNode(nodes: seq<Addr>)
    | Commit
    | Abort

  predicate Word(n: int) { n == 1 || n == 2 || n == 4 || n == 8 }

  /** The records the log's writers produce. */
  predicate RecOk(r: Rec) {
    match r
    case New(_, val) => Word(|val|)
    case NewVchar(_, val) => |val| < LEN_LIMIT
    case Write(_, was, val) => Word(|val|) && |was| == |val|
    case WriteVchar(_, was, val) => |val| < LEN_LIMIT && |was| == |val|
    case Redo(_, val) => Word(|val|)
    case RedoVchar(_, val) => |val| < LEN_LIMIT
    case AllocNode(_) => true
    case DelNode(nodes) => 0 < |nodes| < LEN_LIMIT
    case Commit => true
    case Abort => true
  }

  // ---------------------------------------------------------------- little-endian numbers

  function LE(v: nat, n: nat): (bs: seq<byte>)
    ensures |bs| == n
  {
    if n == 0 then [] else [v % 256] + LE(v / 256, n - 1)
  }

  function UnLE(bs: seq<byte>): nat {
    if bs == [] then 0 else bs[0] + 256 * UnLE(bs[1..])
  }

  function Pow256(n: nat): nat {
    if n == 0 then 1 else 256 * Pow256(n - 1)
  }

  lemma {:induction false} UnLEOf(v: nat, n: nat)
    requires v < Pow256(n)
    ensures UnLE(LE(v, n)) == v
  {
    if n > 0 { UnLEOf(v / 256, n - 1); }
  }

  lemma {:induction false} Limits()
    ensures Pow256(8) == ADDR_LIMIT && LEN_LIMIT < Pow256(4)
  {
    assert Pow256(2) == 0x1_0000;
    assert Pow256(4) == 0x1_0000_0000;
    assert Pow256(6) == 0x1_0000_0000_0000;
  }

  lemma {:induction false} AddrBack(a: Addr)
    ensures UnLE(LE(a, 8)) == a
  {
    Limits();
    UnLEOf(a, 8);
  }

  lemma {:induction false} LenBack(n: nat)
    requires n < LEN_LIMIT
    ensures UnLE(LE(n, 4)) == n
  {
    Limits();
    UnLEOf(n, 4);
  }

  // ---------------------------------------------------------------- encoding

  /** The least significant byte first. */
  lemma {:induction false} LEByte(v: nat, n: nat, i: nat)
    requires i < n
    ensures Pow256(i) > 0 && LE(v, n)[i] == (v / Pow256(i)) % 256
  {
    if i > 0 {
      LEByte(v / 256, n - 1, i - 1);
      Pow256Positive(i - 1);
      DivTwice(v, Pow256(i - 1));
    } else {
      assert v / Pow256(0) == v;
    }
  }

  lemma {:induction false} DivTwice(v: nat, p: nat)
    requires p > 0
    ensures v / 256 / p == v / (256 * p)
  {
    var q := v / 256 / p;
    var r := (v / 256) % p;
    assert v / 256 == q * p + r;
    assert v == (q * p + r) * 256 + v % 256;
    assert v == q * (256 * p) + (r * 256 + v % 256) by { assert (q * p + r) * 256 == q * (256 * p) + r * 256; }
    LogArea.DivUnique(v, 256 * p, q, r * 256 + v % 256);
  }

  lemma {:induction false} Pow256Positive(n: nat)
    ensures Pow256(n) > 0
  {
    if n > 0 { Pow256Positive(n - 1); }
  }

  /** The tag of a fixed-size record whose one-byte variant has tag `base`. */
  function SizedTag(base: byte, n: int): byte
    requires base < 16
  {
    if n == 1 then base else if n == 2 then base + 1 else if n == 4 then base + 2 else base + 3
  }

  function Tag(r: Rec): byte {
    match r
    case New(_, val) => SizedTag(NL_NEW1B, |val|)
    case NewVchar(_, _) => NL_NEWVCHAR
    case Write(_, _, val) => SizedTag(NL_WRITE1B, |val|)
    case WriteVchar(_, _, _) => NL_WRITEVCHAR
    case Redo(_, val) => SizedTag(NL_REDO1B, |val|)
    case RedoVchar(_, _) => NL_REDOVCHAR
    case AllocNode(_) => NL_ALLOCNODE
    case DelNode(_) => NL_DELNODE
    case Commit => NL_COMMIT
    case Abort => NL_ABORT
  }

  function NodeBytes(nodes: seq<Addr>): seq<byte> {
    if nodes == [] then [] else LE(nodes[0], 8) + NodeBytes(nodes[1..])
  }

  /** What stands between the two tags. */
  function Body(r: Rec): seq<byte> {
    match r
    case New(addr, val) => LE(addr, 8) + val
    case NewVchar(addr, val) => LE(addr, 8) + LE(|val|, 4) + val + LE(|val|, 4)
    case Write(addr, was, val) => LE(addr, 8) + was + val
    case WriteVchar(addr, was, val) => LE(addr, 8) + LE(|val|, 4) + was + val + LE(|val|, 4)
    case Redo(addr, val) => LE(addr, 8) + val
    case RedoVchar(addr, val) => LE(addr, 8) + LE(|val|, 4) + val + LE(|val|, 4)
    case AllocNode(node) => LE(node, 8)
    case DelNode(nodes) => LE(|nodes|, 4) + NodeBytes(nodes) + LE(|nodes|, 4)
    case Commit => []
    case Abort => []
  }

  /** Commit and abort records are a single tag. */
  function Encode(r: Rec): seq<byte> {
    if r.Commit? || r.Abort? then [Tag(r)] else [Tag(r)] + Body(r) + [Tag(r)]
  }

  function EncodeAll(rs: seq<Rec>): seq<byte> {
    if rs == [] then [] else Encode(rs[0]) + EncodeAll(rs[1..])
  }

  /** The tags, in numbers. */
  lemma {:induction false} TagIs(r: Rec)
    requires RecOk(r)
    ensures r.New? ==> Tag(r) == (if |r.val| == 1 then 1 else if |r.val| == 2 then 2 else if |r.val| == 4 then 3 else 4)
    ensures r.Write? ==> Tag(r) == (if |r.val| == 1 then 6 else if |r.val| == 2 then 7 else if |r.val| == 4 then 8 else 9)
    ensures r.Redo? ==> Tag(r) == (if |r.val| == 1 then 11 else if |r.val| == 2 then 12 else if |r.val| == 4 then 13 else 14)
    ensures (r.NewVchar? ==> Tag(r) == 5) && (r.WriteVchar? ==> Tag(r) == 10) && (r.RedoVchar? ==> Tag(r) == 15)
    ensures (r.AllocNode? ==> Tag(r) == 16) && (r.DelNode? ==> Tag(r) == 17) && (r.Commit? ==> Tag(r) == 128) && (r.Abort? ==> Tag(r) == 129)
  {
  }

  /**
   * Where the fields of a record lie: the tag at both ends, the address behind the first one, the length of a value of variable length behind
   * that and once more before the last tag, and an overwritten value before the new one.
   */
  predicate LaidOut(b: seq<byte>, r: Rec) {
    var n := |b|;
    && n > 0 && b[0] == b[n - 1] == Tag(r)
    && match r
       case New(addr, val) => SizedOut(b, addr, [], val)
       case Redo(addr, val) => SizedOut(b, addr, [], val)
       case Write(addr, was, val) => SizedOut(b, addr, was, val)
       case NewVchar(addr, val) => VaryingOut(b, addr, [], val)
       case RedoVchar(addr, val) => VaryingOut(b, addr, [], val)
       case WriteVchar(addr, was, val) => VaryingOut(b, addr, was, val)
       case AllocNode(node) => SizedOut(b, node, [], [])
       case DelNode(nodes) =>
         && n == 10 + 8 * |nodes| && b[1..5] == b[n - 5..n - 1] == LE(|nodes|, 4) && forall i :: 0 <= i < |nodes| ==> b[5 + 8 * i..13 + 8 * i] == LE(nodes[i], 8)
       case Commit => n == 1
       case Abort => n == 1
  }

  predicate SizedOut(b: seq<byte>, addr: Addr, was: seq<byte>, val: seq<byte>) {
    var n, w := |b|, |was|; n == 10 + w + |val| && b[1..9] == LE(addr, 8) && b[9..9 + w] == was && b[9 + w..n - 1] == val
  }

  predicate VaryingOut(b: seq<byte>, addr: Addr, was: seq<byte>, val: seq<byte>) {
    var n, w := |b|, |was|;
    n == 18 + w + |val| && b[1..9] == LE(addr, 8) && b[9..13] == b[n - 5..n - 1] == LE(|val|, 4) && b[13..13 + w] == was && b[13 + w..n - 5] == val
  }

  lemma {:induction false} Layout(r: Rec)
    requires RecOk(r)
    ensures LaidOut(Encode(r), r)
  {
    hide LE, Tag, NodeBytes, SizedOut, VaryingOut;
    match r
    case New(addr, val) => Sized(Tag(r), addr, [], val);
    case Redo(addr, val) => Sized(Tag(r), addr, [], val);
    case Write(addr, was, val) => Sized(Tag(r), addr, was, val);
    case NewVchar(addr, val) => Varying(Tag(r), addr, [], val);
    case RedoVchar(addr, val) => Varying(Tag(r), addr, [], val);
    case WriteVchar(addr, was, val) => Varying(Tag(r), addr, was, val);
    case AllocNode(node) => Sized(Tag(r), node, [], []);
    case DelNode(nodes) => Listing(Tag(r), LE(|nodes|, 4), nodes);
    case Commit =>
    case Abort =>
  }

  lemma {:induction false} Sized(t: byte, addr: Addr, was: seq<byte>, val: seq<byte>)
    ensures var b := [t] + (LE(addr, 8) + was + val) + [t]; b[0] == b[|b| - 1] == t && SizedOut(b, addr, was, val)
    ensures was == [] ==> LE(addr, 8) + was + val == LE(addr, 8) + val && (val == [] ==> LE(addr, 8) + was + val == LE(addr, 8))
  {
    hide LE;
  }

  lemma {:induction false} Varying(t: byte, addr: Addr, was: seq<byte>, val: seq<byte>)
    requires |val| < LEN_LIMIT
    ensures var b := [t] + (LE(addr, 8) + LE(|val|, 4) + was + val + LE(|val|, 4)) + [t]; b[0] == b[|b| - 1] == t && VaryingOut(b, addr, was, val)
    ensures was == [] ==> LE(addr, 8) + LE(|val|, 4) + was + val + LE(|val|, 4) == LE(addr, 8) + LE(|val|, 4) + val + LE(|val|, 4)
  {
    hide LE;
  }

  lemma {:induction false} Listing(t: byte, l: seq<byte>, nodes: seq<Addr>)
    requires |l| == 4
    ensures var b := [t] + (l + NodeBytes(nodes) + l) + [t];
      && |b| == 10 + 8 * |nodes| && b[0] == b[|b| - 1] == t && b[1..5] == b[|b| - 5..|b| - 1] == l
      && forall i :: 0 <= i < |nodes| ==> b[5 + 8 * i..13 + 8 * i] == LE(nodes[i], 8)
  {
    hide LE, NodeBytes;
    NodesAt(nodes);
    var b := [t] + (l + NodeBytes(nodes) + l) + [t];
    assert b[5..|b| - 5] == NodeBytes(nodes);
    forall i | 0 <= i < |nodes| ensures b[5 + 8 * i..13 + 8 * i] == LE(nodes[i], 8) {
      assert b[5 + 8 * i..13 + 8 * i] == b[5..|b| - 5][8 * i..8 * i + 8];
    }
  }

  lemma {:induction false} NodesAt(nodes: seq<Addr>)
    ensures |NodeBytes(nodes)| == 8 * |nodes| && forall i :: 0 <= i < |nodes| ==> NodeBytes(nodes)[8 * i..8 * i + 8] == LE(nodes[i], 8)
  {
    hide LE;
    if nodes != [] {
      var b, rest := NodeBytes(nodes), NodeBytes(nodes[1..]);
      NodesAt(nodes[1..]);
      assert b[..8] == LE(nodes[0], 8);
      forall i | 0 < i < |nodes| ensures b[8 * i..8 * i + 8] == LE(nodes[i], 8) {
        assert b[8 * i..8 * i + 8] == rest[8 * (i - 1)..8 * (i - 1) + 8] && nodes[1..][i - 1] == nodes[i];
      }
    }
  }

  lemma {:induction false} EncodeConcat(a: seq<Rec>, b: seq<Rec>)
    ensures EncodeAll(a + b) == EncodeAll(a) + EncodeAll(b)
  {
    hide Encode, EncodeAll;
    if a == [] {
      assert a + b == b;
      EncodeNone();
    } else {
      EncodeConcat(a[1..], b);
      assert (a + b)[1..] == a[1..] + b;
      EncodeFirst(a);
      EncodeFirst(a + b);
    }
  }

  lemma {:induction false} EncodeNone()
    ensures EncodeAll([]) == []
  {
  }

  lemma {:induction false} EncodeFirst(rs: seq<Rec>)
    requires rs != []
    ensures EncodeAll(rs) == Encode(rs[0]) + EncodeAll(rs[1..])
  {
  }

  lemma {:induction false} EncodeLast(rs: seq<Rec>)
    requires rs != []
    ensures EncodeAll(rs) == EncodeAll(rs[..|rs| - 1]) + Encode(rs[|rs| - 1])
  {
    var a, b := rs[..|rs| - 1], [rs[|rs| - 1]];
    assert rs == a + b;
    EncodeConcat(a, b);
    assert b[1..] == [];
    assert EncodeAll(b) == Encode(b[0]) + [];
  }

  // ---------------------------------------------------------------- decoding

  /** The size of the record of a fixed-size tag with base `base`, or 0. */
  function SizeOf(tag: byte, base: byte): (n: int)
    requires base < 16
    ensures n == 0 || (Word(n) && SizedTag(base, n) == tag)
  {
    if tag == base then 1 else if tag == base + 1 then 2 else if tag == base + 2 then 4 else if tag == base + 3 then 8 else 0
  }

  /** `n` bytes from position `i`, or fewer if there are not that many. */
  function Cut(bs: seq<byte>, i: int, n: int): seq<byte> {
    if 0 <= i && 0 <= n && i + n <= |bs| then bs[i..i + n] else []
  }

  function AddrOf(bs: seq<byte>): Addr {
    var v := UnLE(bs); if v < ADDR_LIMIT then v else 0
  }

  function NodesOf(bs: seq<byte>): seq<Addr> {
    if |bs| < 8 then [] else [AddrOf(bs[..8])] + NodesOf(bs[8..])
  }

  /** The record whose bytes are `bs`, by its first byte and the lengths from the front. */
  function FromHead(bs: seq<byte>): Option<(Rec, nat)>
    requires bs != []
  {
    var tag := bs[0];
    var addr, len := AddrOf(Cut(bs, 1, 8)), UnLE(Cut(bs, 9, 4));
    if SizeOf(tag, NL_NEW1B) > 0 then var n := SizeOf(tag, NL_NEW1B); Some((New(addr, Cut(bs, 9, n)), n + 10))
    else if tag == NL_NEWVCHAR then Some((NewVchar(addr, Cut(bs, 13, len)), len + 18))
    else if SizeOf(tag, NL_WRITE1B) > 0 then var n := SizeOf(tag, NL_WRITE1B); Some((Write(addr, Cut(bs, 9, n), Cut(bs, 9 + n, n)), 2 * n + 10))
    else if tag == NL_WRITEVCHAR then Some((WriteVchar(addr, Cut(bs, 13, len), Cut(bs, 13 + len, len)), 2 * len + 18))
    else if SizeOf(tag, NL_REDO1B) > 0 then var n := SizeOf(tag, NL_REDO1B); Some((Redo(addr, Cut(bs, 9, n)), n + 10))
    else if tag == NL_REDOVCHAR then Some((RedoVchar(addr, Cut(bs, 13, len)), len + 18))
    else if tag == NL_ALLOCNODE then Some((AllocNode(addr), 10))
    else if tag == NL_DELNODE then var n := UnLE(Cut(bs, 1, 4)); Some((DelNode(NodesOf(Cut(bs, 5, 8 * n))), 8 * n + 10))
    else if tag == NL_COMMIT then Some((Commit, 1))
    else if tag == NL_ABORT then Some((Abort, 1))
    else None
  }

  /** The record whose bytes end `bs`, by its last byte and the lengths from the back: the records an abort can meet. */
  function FromTail(bs: seq<byte>): Option<(Rec, nat)>
    requires bs != []
  {
    var tag, size := bs[|bs| - 1], |bs|;
    var len := UnLE(Cut(bs, size - 5, 4));
    if SizeOf(tag, NL_NEW1B) > 0 then
      var n := SizeOf(tag, NL_NEW1B); var at := size - n - 10; Some((New(AddrOf(Cut(bs, at + 1, 8)), Cut(bs, at + 9, n)), n + 10))
    else if tag == NL_NEWVCHAR then
      var at := size - len - 18; Some((NewVchar(AddrOf(Cut(bs, at + 1, 8)), Cut(bs, at + 13, len)), len + 18))
    else if SizeOf(tag, NL_WRITE1B) > 0 then
      var n := SizeOf(tag, NL_WRITE1B); var at := size - 2 * n - 10;
      Some((Write(AddrOf(Cut(bs, at + 1, 8)), Cut(bs, at + 9, n), Cut(bs, at + 9 + n, n)), 2 * n + 10))
    else if tag == NL_WRITEVCHAR then
      var at := size - 2 * len - 18;
      Some((WriteVchar(AddrOf(Cut(bs, at + 1, 8)), Cut(bs, at + 13, len), Cut(bs, at + 13 + len, len)), 2 * len + 18))
    else if tag == NL_ALLOCNODE then Some((AllocNode(AddrOf(Cut(bs, size - 9, 8))), 10))
    else None
  }

  // ---------------------------------------------------------------- both directions

  lemma {:induction false} NodesBack(nodes: seq<Addr>)
    ensures |NodeBytes(nodes)| == 8 * |nodes| && NodesOf(NodeBytes(nodes)) == nodes
  {
    if nodes != [] {
      NodesBack(nodes[1..]);
      AddrBack(nodes[0]);
      var bs := NodeBytes(nodes);
      assert bs[..8] == LE(nodes[0], 8) && bs[8..] == NodeBytes(nodes[1..]);
    }
  }

  /** A body between two tags, with bytes before and after. */
  function Framed(pre: seq<byte>, tag: byte, body: seq<byte>, post: seq<byte>): seq<byte> {
    pre + ([tag] + body + [tag]) + post
  }

  lemma {:induction false} FramedAt(pre: seq<byte>, tag: byte, body: seq<byte>, post: seq<byte>)
    ensures var bs, at := Framed(pre, tag, body, post), |pre|;
      && |bs| == at + |body| + 2 + |post| && bs[at] == tag && bs[at + |body| + 1] == tag
      && forall i, n :: 0 <= i && 0 <= n && i + n <= |body| ==> Cut(bs, at + 1 + i, n) == Cut(body, i, n)
  {
    var bs, at := Framed(pre, tag, body, post), |pre|;
    forall i, n | 0 <= i && 0 <= n && i + n <= |body| ensures Cut(bs, at + 1 + i, n) == Cut(body, i, n) {
      assert bs[at + 1 + i..at + 1 + i + n] == body[i..i + n];
    }
  }

  lemma {:induction false} CutTwo(a: seq<byte>, b: seq<byte>)
    ensures |a + b| == |a| + |b| && Cut(a + b, 0, |a|) == a && Cut(a + b, |a|, |b|) == b
  {
  }

  lemma {:induction false} CutMiddle(a: seq<byte>, b: seq<byte>, i: int, n: int)
    requires 0 <= i && 0 <= n && i + n <= |b|
    ensures Cut(a + b, |a| + i, n) == Cut(b, i, n)
  {
    assert (a + b)[|a| + i..|a| + i + n] == b[i..i + n];
  }

  /** A fixed-size record with one value: its address and value from the front or from the back. */
  lemma {:induction false} OneValue(pre: seq<byte>, tag: byte, addr: Addr, val: seq<byte>, post: seq<byte>)
    ensures var bs, at := Framed(pre, tag, LE(addr, 8) + val, post), |pre|;
      && |bs| == at + |val| + 10 + |post| && bs[at] == tag && bs[at + |val| + 9] == tag
      && AddrOf(Cut(bs, at + 1, 8)) == addr && Cut(bs, at + 9, |val|) == val
  {
    var body, at := LE(addr, 8) + val, |pre|;
    FramedAt(pre, tag, body, post);
    AddrBack(addr);
    CutTwo(LE(addr, 8), val);
    hide Framed, Cut, LE, UnLE;
    assert Cut(Framed(pre, tag, body, post), at + 1 + 0, 8) == Cut(body, 0, 8);
    assert Cut(Framed(pre, tag, body, post), at + 1 + 8, |val|) == Cut(body, 8, |val|);
  }

  lemma {:induction false} TwoValues(pre: seq<byte>, tag: byte, addr: Addr, was: seq<byte>, val: seq<byte>, post: seq<byte>)
    ensures var bs, at := Framed(pre, tag, LE(addr, 8) + was + val, post), |pre|;
      && |bs| == at + |was| + |val| + 10 + |post| && bs[at] == tag && bs[at + |was| + |val| + 9] == tag
      && AddrOf(Cut(bs, at + 1, 8)) == addr && Cut(bs, at + 9, |was|) == was && Cut(bs, at + 9 + |was|, |val|) == val
  {
    hide Framed, Cut, LE, UnLE, AddrOf;
    assert LE(addr, 8) + was + val == LE(addr, 8) + (was + val);
    var body, at := LE(addr, 8) + (was + val), |pre|;
    OneValue(pre, tag, addr, was + val, post);
    FramedAt(pre, tag, body, post);
    CutTwo(was, val);
    CutMiddle(LE(addr, 8), was + val, 0, |was|);
    CutMiddle(LE(addr, 8), was + val, |was|, |val|);
    assert Cut(Framed(pre, tag, body, post), at + 1 + 8, |was|) == Cut(body, 8, |was|);
    assert Cut(Framed(pre, tag, body, post), at + 1 + (8 + |was|), |val|) == Cut(body, 8 + |was|, |val|);
  }

  /** The body of a variable-length record with content `c`. */
  function VarBody(addr: Addr, n: nat, c: seq<byte>): seq<byte> { LE(addr, 8) + (LE(n, 4) + (c + LE(n, 4))) }

  predicate VarAt(bs: seq<byte>, at: nat, tag: byte, addr: Addr, n: nat, size: nat) {
    && at + size + 18 <= |bs| && bs[at] == bs[at + size + 17] == tag && AddrOf(Cut(bs, at + 1, 8)) == addr
    && UnLE(Cut(bs, at + 9, 4)) == n && UnLE(Cut(bs, at + size + 13, 4)) == n
  }

  /** A variable-length record: address, and the length at either end. */
  lemma {:induction false} Variable(pre: seq<byte>, tag: byte, addr: Addr, n: nat, c: seq<byte>, post: seq<byte>)
    requires n < LEN_LIMIT
    ensures var bs, at := Framed(pre, tag, VarBody(addr, n, c), post), |pre|;
      |bs| == at + |c| + 18 + |post| && VarAt(bs, at, tag, addr, n, |c|)
  {
    hide Framed, Cut, LE, UnLE, AddrOf;
    var rest := LE(n, 4) + (c + LE(n, 4));
    var body, at, bs := LE(addr, 8) + rest, |pre|, Framed(pre, tag, VarBody(addr, n, c), post);
    LenBack(n);
    OneValue(pre, tag, addr, rest, post);
    FramedAt(pre, tag, body, post);
    VarParts(addr, n, c);
    assert Cut(bs, at + 1 + 8, 4) == Cut(body, 8, 4);
    assert Cut(bs, at + 1 + (12 + |c|), 4) == Cut(body, 12 + |c|, 4);
  }

  lemma {:induction false} VarParts(addr: Addr, n: nat, c: seq<byte>)
    ensures var body := VarBody(addr, n, c); Cut(body, 8, 4) == LE(n, 4) && Cut(body, 12 + |c|, 4) == LE(n, 4) && |body| == |c| + 16
    ensures forall i, l :: 0 <= i && 0 <= l && i + l <= |c| ==> Cut(VarBody(addr, n, c), 12 + i, l) == Cut(c, i, l)
  {
    var rest := LE(n, 4) + (c + LE(n, 4));
    CutTwo(LE(n, 4), c + LE(n, 4));
    CutTwo(c, LE(n, 4));
    CutMiddle(LE(addr, 8), rest, 0, 4);
    CutMiddle(LE(n, 4), c + LE(n, 4), |c|, 4);
    CutMiddle(LE(addr, 8), rest, 4 + |c|, 4);
    hide Cut, LE;
    forall i, l | 0 <= i && 0 <= l && i + l <= |c| ensures Cut(VarBody(addr, n, c), 12 + i, l) == Cut(c, i, l) {
      CutMiddle(LE(n, 4), c + LE(n, 4), i, l);
      CutMiddle(LE(addr, 8), rest, 4 + i, l);
      CutFront(c, LE(n, 4), i, l);
    }
  }

  lemma {:induction false} VarContent(pre: seq<byte>, tag: byte, addr: Addr, n: nat, c: seq<byte>, post: seq<byte>, i: int, l: int)
    requires 0 <= i && 0 <= l && i + l <= |c|
    ensures Cut(Framed(pre, tag, VarBody(addr, n, c), post), |pre| + 13 + i, l) == Cut(c, i, l)
  {
    FramedAt(pre, tag, VarBody(addr, n, c), post);
    VarParts(addr, n, c);
    hide Framed, Cut, VarBody;
    assert Cut(Framed(pre, tag, VarBody(addr, n, c), post), |pre| + 1 + (12 + i), l) == Cut(VarBody(addr, n, c), 12 + i, l);
  }

  lemma {:induction false} CutFront(a: seq<byte>, b: seq<byte>, i: int, n: int)
    requires 0 <= i && 0 <= n && i + n <= |a|
    ensures Cut(a + b, i, n) == Cut(a, i, n)
  {
    assert (a + b)[i..i + n] == a[i..i + n];
  }

  lemma {:induction false} SizedTags(n: int)
    requires Word(n)
    ensures SizeOf(SizedTag(NL_NEW1B, n), NL_NEW1B) == n
    ensures SizeOf(SizedTag(NL_WRITE1B, n), NL_WRITE1B) == n && SizeOf(SizedTag(NL_WRITE1B, n), NL_NEW1B) == 0
    ensures SizedTag(NL_WRITE1B, n) != NL_NEWVCHAR
    ensures SizeOf(SizedTag(NL_REDO1B, n), NL_REDO1B) == n && SizeOf(SizedTag(NL_REDO1B, n), NL_NEW1B) == 0
    ensures SizeOf(SizedTag(NL_REDO1B, n), NL_WRITE1B) == 0 && SizedTag(NL_REDO1B, n) != NL_NEWVCHAR && SizedTag(NL_REDO1B, n) != NL_WRITEVCHAR
  {
  }

  /** A record with two tags, framed. */
  lemma {:induction false} EncodeFramed(r: Rec, pre: seq<byte>, post: seq<byte>)
    requires !r.Commit? && !r.Abort?
    ensures pre + Encode(r) + post == Framed(pre, Tag(r), Body(r), post)
  {
  }

  lemma {:induction false} VarBodies(addr: Addr, was: seq<byte>, val: seq<byte>)
    ensures LE(addr, 8) + LE(|val|, 4) + val + LE(|val|, 4) == VarBody(addr, |val|, val)
    ensures LE(addr, 8) + LE(|val|, 4) + was + val + LE(|val|, 4) == VarBody(addr, |val|, was + val)
    ensures Cut(was + val, 0, |was|) == was && Cut(was + val, |was|, |val|) == val && Cut(val, 0, |val|) == val
  {
  }

  /** The record `r` stands at `at` in `bs`: the fields a parser finds from its start, which is `|bs|`-relative for a tail parse. */
  predicate FieldsAt(bs: seq<byte>, at: nat, r: Rec) {
    match r
    case New(addr, val) =>
      at + |val| + 10 <= |bs| && bs[at] == bs[at + |val| + 9] == Tag(r) && AddrOf(Cut(bs, at + 1, 8)) == addr && Cut(bs, at + 9, |val|) == val
    case NewVchar(addr, val) => VarAt(bs, at, Tag(r), addr, |val|, |val|) && Cut(bs, at + 13, |val|) == val
    case Write(addr, was, val) =>
      && at + |was| + |val| + 10 <= |bs| && bs[at] == bs[at + |was| + |val| + 9] == Tag(r) && AddrOf(Cut(bs, at + 1, 8)) == addr
      && Cut(bs, at + 9, |was|) == was && Cut(bs, at + 9 + |was|, |val|) == val
    case WriteVchar(addr, was, val) =>
      && VarAt(bs, at, Tag(r), addr, |val|, |was| + |val|)
      && Cut(bs, at + 13, |was|) == was && Cut(bs, at + 13 + |was|, |val|) == val
    case Redo(addr, val) =>
      at + |val| + 10 <= |bs| && bs[at] == bs[at + |val| + 9] == Tag(r) && AddrOf(Cut(bs, at + 1, 8)) == addr && Cut(bs, at + 9, |val|) == val
    case RedoVchar(addr, val) => VarAt(bs, at, Tag(r), addr, |val|, |val|) && Cut(bs, at + 13, |val|) == val
    case AllocNode(node) => at + 10 <= |bs| && bs[at] == bs[at + 9] == Tag(r) && AddrOf(Cut(bs, at + 1, 8)) == node
    case DelNode(nodes) =>
      && at + 8 * |nodes| + 10 <= |bs| && bs[at] == bs[at + 8 * |nodes| + 9] == Tag(r)
      && UnLE(Cut(bs, at + 1, 4)) == |nodes| && NodesOf(Cut(bs, at + 5, 8 * |nodes|)) == nodes
    case Commit => at < |bs| && bs[at] == Tag(r)
    case Abort => at < |bs| && bs[at] == Tag(r)
  }

  function Length(r: Rec): nat {
    match r
    case New(_, val) => |val| + 10
    case NewVchar(_, val) => |val| + 18
    case Write(_, was, val) => |was| + |val| + 10
    case WriteVchar(_, was, val) => |was| + |val| + 18
    case Redo(_, val) => |val| + 10
    case RedoVchar(_, val) => |val| + 18
    case AllocNode(_) => 10
    case DelNode(nodes) => 8 * |nodes| + 10
    case Commit => 1
    case Abort => 1
  }

  /** Where a record's bytes stand, its fields can be found from either end. */
  lemma {:induction false} EncodedFields(r: Rec, pre: seq<byte>, post: seq<byte>)
    requires RecOk(r)
    ensures |Encode(r)| == Length(r) > 0 && |pre + Encode(r) + post| == |pre| + Length(r) + |post| && FieldsAt(pre + Encode(r) + post, |pre|, r)
  {
    if r.Commit? || r.Abort? {
    } else if r.DelNode? {
      DelNodeFields(r.nodes, pre, post);
    } else if r.NewVchar? || r.WriteVchar? || r.RedoVchar? {
      VarFields(r, pre, post);
    } else {
      FixedFields(r, pre, post);
    }
    hide FieldsAt;
  }

  lemma {:induction false} FixedFields(r: Rec, pre: seq<byte>, post: seq<byte>)
    requires RecOk(r) && (r.New? || r.Write? || r.Redo? || r.AllocNode?)
    ensures |Encode(r)| == Length(r) && FieldsAt(pre + Encode(r) + post, |pre|, r)
  {
    EncodeFramed(r, pre, post);
    hide Framed, Cut, UnLE, AddrOf;
    match r
    case New(addr, val) => OneValue(pre, Tag(r), addr, val, post);
    case Write(addr, was, val) => TwoValues(pre, Tag(r), addr, was, val, post);
    case Redo(addr, val) => OneValue(pre, Tag(r), addr, val, post);
    case AllocNode(node) =>
      assert LE(node, 8) + [] == LE(node, 8);
      OneValue(pre, Tag(r), node, [], post);
  }

  lemma {:induction false} VarFields(r: Rec, pre: seq<byte>, post: seq<byte>)
    requires RecOk(r) && (r.NewVchar? || r.WriteVchar? || r.RedoVchar?)
    ensures |Encode(r)| == Length(r) && FieldsAt(pre + Encode(r) + post, |pre|, r)
  {
    var was := if r.WriteVchar? then r.was else [];
    var c := if r.WriteVchar? then was + r.val else r.val;
    VarEncoded(r, pre, post, c);
    hide Encode, Tag;
    var bs := Framed(pre, Tag(r), VarBody(r.addr, |r.val|, c), post);
    VarFramed(r, pre, post, was, c, bs);
    assert pre + Encode(r) + post == bs;
  }

  lemma {:induction false} VarFramed(r: Rec, pre: seq<byte>, post: seq<byte>, was: seq<byte>, c: seq<byte>, bs: seq<byte>)
    requires RecOk(r) && (r.NewVchar? || r.WriteVchar? || r.RedoVchar?)
    requires was == (if r.WriteVchar? then r.was else []) && c == if r.WriteVchar? then was + r.val else r.val
    requires bs == Framed(pre, Tag(r), VarBody(r.addr, |r.val|, c), post)
    ensures FieldsAt(bs, |pre|, r)
  {
    hide Framed, Cut, UnLE, AddrOf, VarBody, LE, Tag, VarAt;
    var n, at := |r.val|, |pre|;
    CutTwo(was, r.val);
    CutWhole(r.val);
    Variable(pre, Tag(r), r.addr, n, c, post);
    VarContent(pre, Tag(r), r.addr, n, c, post, 0, |was|);
    VarContent(pre, Tag(r), r.addr, n, c, post, |was|, n);
  }

  lemma {:induction false} CutWhole(a: seq<byte>)
    ensures Cut(a, 0, |a|) == a
  {
  }

  lemma {:induction false} VarEncoded(r: Rec, pre: seq<byte>, post: seq<byte>, c: seq<byte>)
    requires RecOk(r) && (r.NewVchar? || r.WriteVchar? || r.RedoVchar?)
    requires c == if r.WriteVchar? then r.was + r.val else r.val
    ensures |Encode(r)| == |c| + 18 && pre + Encode(r) + post == Framed(pre, Tag(r), VarBody(r.addr, |r.val|, c), post)
    ensures Cut(r.val, 0, |r.val|) == r.val
  {
    VarBodies(r.addr, if r.WriteVchar? then r.was else [], r.val);
  }

  lemma {:induction false} DelNodeFields(nodes: seq<Addr>, pre: seq<byte>, post: seq<byte>)
    requires 0 < |nodes| < LEN_LIMIT
    ensures |Encode(DelNode(nodes))| == Length(DelNode(nodes)) && FieldsAt(pre + Encode(DelNode(nodes)) + post, |pre|, DelNode(nodes))
  {
    hide Framed, Cut, LE, UnLE, NodesOf, NodeBytes, Encode, Tag;
    var r, n, at, bs := DelNode(nodes), |nodes|, |pre|, pre + Encode(DelNode(nodes)) + post;
    NodesBack(nodes);
    LenBack(n);
    EncodeFramed(r, pre, post);
    FramedAt(pre, Tag(r), Body(r), post);
    var a, b, c := LE(n, 4), NodeBytes(nodes), LE(n, 4);
    assert Body(r) == a + (b + c);
    CutTwo(a, b + c);
    CutTwo(b, c);
    CutMiddle(a, b + c, 0, |b|);
    CutFront(b, c, 0, |b|);
    assert Cut(bs, at + 1 + 0, 4) == Cut(Body(r), 0, 4);
    assert Cut(bs, at + 1 + 4, |b|) == Cut(Body(r), 4, |b|);
  }

  /** Parsing from the front by head tag finds the record and exactly its bytes. */
  lemma {:induction false} HeadBack(r: Rec, rest: seq<byte>)
    requires RecOk(r)
    ensures Encode(r) != [] && FromHead(Encode(r) + rest) == Some((r, |Encode(r)|))
  {
    EncodedFields(r, [], rest);
    EmptyFront(Encode(r), rest);
    HeadFields([] + Encode(r) + rest, r);
    hide *;
  }

  lemma {:induction false} EmptyFront(a: seq<byte>, b: seq<byte>)
    ensures [] + a + b == a + b
  {
  }

  lemma {:induction false} HeadFields(bs: seq<byte>, r: Rec)
    requires RecOk(r) && FieldsAt(bs, 0, r)
    ensures bs != [] && FromHead(bs) == Some((r, Length(r)))
  {
    hide Cut, UnLE, AddrOf, NodesOf;
    if r.New? || r.Write? || r.Redo? { SizedTags(|r.val|); }
  }

  /** The records of a running transaction: what an abort can meet. */
  predicate Undoable(r: Rec) {
    RecOk(r) && (r.New? || r.NewVchar? || r.Write? || r.WriteVchar? || r.AllocNode?)
  }

  /** Parsing from the back by tail tag finds the record and exactly its bytes. */
  lemma {:induction false} TailBack(r: Rec, before: seq<byte>)
    requires Undoable(r)
    ensures Encode(r) != [] && FromTail(before + Encode(r)) == Some((r, |Encode(r)|))
  {
    EncodedFields(r, before, []);
    hide Encode, FieldsAt, FromTail;
    assert before + Encode(r) + [] == before + Encode(r);
    TailFields(before + Encode(r), |before|, r);
  }

  lemma {:induction false} TailFields(bs: seq<byte>, at: nat, r: Rec)
    requires Undoable(r) && at + Length(r) == |bs| && FieldsAt(bs, at, r)
    ensures bs != [] && FromTail(bs) == Some((r, Length(r)))
  {
    hide Cut, UnLE, AddrOf, NodesOf;
    if r.New? || r.Write? { SizedTags(|r.val|); }
  }

  // ---------------------------------------------------------------- whole logs

  /** All records from the front. */
  function ParseForward(bs: seq<byte>): Option<seq<Rec>>
    decreases |bs|
  {
    if bs == [] then Some([])
    else match FromHead(bs)
      case None => None
      case Some((r, n)) =>
        if n == 0 || n > |bs| then None
        else match ParseForward(bs[n..])
          case None => None
          case Some(rs) => Some([r] + rs)
  }

  /** All records from the back, last one first. */
  function ParseBackward(bs: seq<byte>): Option<seq<Rec>>
    decreases |bs|
  {
    if bs == [] then Some([])
    else match FromTail(bs)
      case None => None
      case Some((r, n)) =>
        if n == 0 || n > |bs| then None
        else match ParseBackward(bs[..|bs| - n])
          case None => None
          case Some(rs) => Some([r] + rs)
  }

  function Reverse(rs: seq<Rec>): (r: seq<Rec>)
    ensures |r| == |rs|
  {
    if rs == [] then [] else [rs[|rs| - 1]] + Reverse(rs[..|rs| - 1])
  }

  lemma {:induction false} ForwardAll(rs: seq<Rec>)
    requires forall r :: r in rs ==> RecOk(r)
    ensures ParseForward(EncodeAll(rs)) == Some(rs)
  {
    hide Encode, FromHead;
    if rs != [] {
      var head, tail := Encode(rs[0]), EncodeAll(rs[1..]);
      HeadBack(rs[0], tail);
      ForwardAll(rs[1..]);
      assert (head + tail)[|head|..] == tail;
      assert rs == [rs[0]] + rs[1..];
    }
  }

  lemma {:induction false} BackwardAll(rs: seq<Rec>)
    requires forall r :: r in rs ==> Undoable(r)
    ensures ParseBackward(EncodeAll(rs)) == Some(Reverse(rs))
  {
    if rs != [] {
      var before, r := rs[..|rs| - 1], rs[|rs| - 1];
      EncodeLast(rs);
      TailBack(r, EncodeAll(before));
      BackwardAll(before);
      var bs := EncodeAll(rs);
      assert bs[..|bs| - |Encode(r)|] == EncodeAll(before);
      hide Encode, FromTail;
    }
  }
}
