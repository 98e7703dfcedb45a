/**
 * `NvmLog_Log`: a byte stream framed into 64-byte lines over a wrapping buffer.
 *
 * Byte `t` of the stream lies in line `LineNo(t)`, which occupies slot `line % lines` of the buffer. The
 * version bit of a line is set on every other pass over the buffer.
 */
module LogArea {
  import opened Types
  import opened Bytes

  const CACHE_LINE_SIZE: int := 64
  const PAYLOAD: int := CACHE_LINE_SIZE - 2
  const NL_INVALID: byte := 0
  const VERSION_BIT: int := 0x80

  type Count = n: int | n > 0 witness 1
  type byte7 = x: int | 0 <= x < 128

  /** The 7-bit checksum of bytes 1 to 63 of a line. Nothing below depends on which function it is. */
  const checkSum: seq<byte> -> byte7

  /** `nl_log_pointer_t`; addresses are offsets into the log area */
  datatype LogPos = LogPos(version: int, offset: int, nextline: int, next: int)

  // ---------------------------------------------------------------- where a byte and a line lie

  /** The line of stream position `t`. */
  function LineNo(t: int): (k: int)
    ensures 62 * k <= t < 62 * k + 62
  {
    t / 62
  }

  /** The position within the line's payload. */
  function Col(t: int): (c: int)
    ensures 0 <= c < 62 && t == 62 * LineNo(t) + c
  {
    t % 62
  }

  function Slot(k: int, lines: nat): int
    requires lines > 0
  {
    k % lines
  }

  function Flip(k: int, lines: nat): int
    requires lines > 0
  {
    if (k / lines) % 2 == 0 then VERSION_BIT else 0
  }

  lemma {:induction false} SlotRange(k: int, lines: nat)
    requires lines > 0
    ensures 0 <= Slot(k, lines) < lines
  {
  }

  lemma {:induction false} DivNext(k: int, n: int)
    requires n > 0
    ensures if k % n + 1 < n then (k + 1) % n == k % n + 1 && (k + 1) / n == k / n
            else (k + 1) % n == 0 && (k + 1) / n == k / n + 1
  {
    var q, r := k / n, k % n;
    assert k == q * n + r;
    if r + 1 < n {
      DivUnique(k + 1, n, q, r + 1);
    } else {
      assert k + 1 == (q + 1) * n + 0 by { assert (q + 1) * n == q * n + n; }
      DivUnique(k + 1, n, q + 1, 0);
    }
  }

  lemma {:induction false} DivUnique(k: int, n: int, q: int, r: int)
    requires n > 0 && k == q * n + r && 0 <= r < n
    ensures k / n == q && k % n == r
  {
    var q', r' := k / n, k % n;
    Regrouped(q, q', n, r, r', k);
    SmallMultiple(q - q', n);
  }

  lemma {:induction false} Regrouped(q: int, q': int, n: int, r: int, r': int, k: int)
    requires k == q * n + r && k == q' * n + r'
    ensures (q - q') * n == r' - r
  {
  }

  lemma {:induction false} SmallMultiple(d: int, n: int)
    requires n > 0
    ensures (d >= 1 ==> d * n >= n) && (d <= -1 ==> d * n <= -n)
  {
    if d >= 1 { assert (d - 1) * n >= 0; }
    if d <= -1 { assert (-1 - d) * n >= 0; }
  }

  /** The next line is in the next slot, or in the first one with the version flipped. */
  lemma {:induction false} SlotNext(k: int, lines: nat)
    requires lines > 0
    ensures if Slot(k, lines) + 1 < lines then Slot(k + 1, lines) == Slot(k, lines) + 1 && Flip(k + 1, lines) == Flip(k, lines)
            else Slot(k + 1, lines) == 0 && Flip(k + 1, lines) == VERSION_BIT - Flip(k, lines)
  {
    DivNext(k, lines);
  }

  lemma {:induction false} SlotApart(j: int, k: int, lines: nat)
    requires lines > 0 && j < k < j + lines
    ensures Slot(j, lines) != Slot(k, lines)
  {
    var a, b := j / lines, k / lines;
    assert k - j == (b - a) * lines + (k % lines - j % lines);
    if j % lines == k % lines { SmallMultiple(b - a, lines); }
  }

  /** One pass earlier: the same slot, the other version. */
  lemma {:induction false} SlotLap(k: int, lines: nat)
    requires lines > 0
    ensures Slot(k - lines, lines) == Slot(k, lines) && Flip(k - lines, lines) == VERSION_BIT - Flip(k, lines)
  {
    var q, r := k / lines, k % lines;
    assert k - lines == (q - 1) * lines + r by { assert (q - 1) * lines == q * lines - lines; }
    DivUnique(k - lines, lines, q - 1, r);
  }

  lemma {:induction false} SlotFirst(k: int, lines: nat)
    requires 0 <= k < lines
    ensures Slot(k, lines) == k && Flip(k, lines) == VERSION_BIT
  {
    DivUnique(k, lines, 0, k);
  }

  // ---------------------------------------------------------------- lines

  function LineAt(a: seq<byte>, s: int): seq<byte>
    requires 0 <= s && 64 * s + 64 <= |a|
  {
    a[64 * s..64 * s + 64]
  }

  /** `setByteOne`: checksum and version */
  function HeaderByte(line: seq<byte>, version: int): int
    requires |line| == 64
  {
    checkSum(line[1..]) + version
  }

  /** `checkByteOne` */
  predicate Checked(a: seq<byte>, s: int, version: int)
    requires 0 <= s && 64 * s + 64 <= |a|
  {
    LineAt(a, s)[0] == HeaderByte(LineAt(a, s), version)
  }

  /** Line `k` of the stream is complete and in the buffer. */
  predicate LineHeld(a: seq<byte>, lines: nat, stream: seq<byte>, k: nat)
    requires lines > 0 && |a| == 64 * lines
  {
    var s := Slot(k, lines);
    && 0 <= s < lines && 62 * k + 62 <= |stream|
    && a[64 * s + 2..64 * s + 64] == stream[62 * k..62 * k + 62]
    && Checked(a, s, Flip(k, lines))
  }

  /** The stream's last lines are in the buffer; `flushed` says that the unfinished line has a right header. */
  ghost predicate Holding(a: seq<byte>, lines: nat, stream: seq<byte>, flushed: bool) {
    && lines > 0 && |a| == 64 * lines
    && var k, m := LineNo(|stream|), Col(|stream|);
      var s := Slot(k, lines);
      && 0 <= s < lines
      && (forall j: nat :: k - lines < j < k ==> LineHeld(a, lines, stream, j))
      && a[64 * s + 2..64 * s + 2 + m] == stream[62 * k..]
      && (flushed && m > 0 ==> Checked(a, s, Flip(k, lines)))
      && (m == 0 ==> Stale(a, lines, k)) && (forall j :: k < j < lines ==> Untouched(a, j))
  }

  /** The header in the slot of a line not yet begun is of the other version. */
  predicate Stale(a: seq<byte>, lines: nat, k: nat)
    requires lines > 0 && |a| == 64 * lines
  {
    var s := Slot(k, lines); 0 <= s < lines && (a[64 * s] >= VERSION_BIT <==> Flip(k, lines) == 0)
  }

  /** Never written: still as cleared at the start. */
  predicate Untouched(a: seq<byte>, j: int)
    requires 0 <= j
  {
    64 * j + 64 <= |a| && a[64 * j] == 0
  }

  // ---------------------------------------------------------------- stores to the buffer

  /** The slot `s` of the buffer alone differs. */
  predicate OnlySlot(a: seq<byte>, a': seq<byte>, lines: nat, s: int) {
    && |a| == |a'| == 64 * lines && 0 <= s < lines
    && forall j :: 0 <= j < lines && j != s ==> LineAt(a', j) == LineAt(a, j)
  }

  lemma {:induction false} SlotOnly(a: seq<byte>, a': seq<byte>, lines: nat, s: int)
    requires |a| == |a'| == 64 * lines && 0 <= s < lines
    requires forall i :: 0 <= i < |a| && (i < 64 * s || 64 * s + 64 <= i) ==> a'[i] == a[i]
    ensures OnlySlot(a, a', lines, s)
  {
    forall j | 0 <= j < lines && j != s ensures LineAt(a', j) == LineAt(a, j) { }
  }

  lemma {:induction false} HeldElse(a: seq<byte>, a': seq<byte>, lines: nat, stream: seq<byte>, part: seq<byte>, s: int, j: nat)
    requires lines > 0 && |a| == 64 * lines && OnlySlot(a, a', lines, s) && LineHeld(a, lines, stream, j) && Slot(j, lines) != s
    ensures LineHeld(a', lines, stream + part, j)
  {
    var t := Slot(j, lines);
    assert LineAt(a', t) == LineAt(a, t);
    assert a'[64 * t + 2..64 * t + 64] == LineAt(a', t)[2..];
    assert a[64 * t + 2..64 * t + 64] == LineAt(a, t)[2..];
    assert (stream + part)[62 * j..62 * j + 62] == stream[62 * j..62 * j + 62];
  }

  /** What a store confined to the current line's slot leaves in place. */
  lemma {:induction false} OthersHeld(a: seq<byte>, a': seq<byte>, lines: nat, stream: seq<byte>, part: seq<byte>, flushed: bool)
    requires Holding(a, lines, stream, flushed) && OnlySlot(a, a', lines, Slot(LineNo(|stream|), lines))
    ensures var k := LineNo(|stream|);
      && (forall j: nat :: k - lines < j < k ==> LineHeld(a', lines, stream + part, j))
      && (forall j :: k < j < lines ==> Untouched(a', j))
  {
    var k := LineNo(|stream|);
    var s := Slot(k, lines);
    forall j: nat | k - lines < j < k ensures LineHeld(a', lines, stream + part, j) {
      SlotApart(j, k, lines);
      HeldElse(a, a', lines, stream, part, s, j);
    }
    forall j | k < j < lines ensures Untouched(a', j) {
      assert Untouched(a, j);
      SlotFirst(j, lines);
      SlotApart(k, j, lines);
      assert LineAt(a', j)[0] == LineAt(a, j)[0];
    }
  }

  /** Bytes appended within the current line. */
  lemma {:induction false} Appended(a: seq<byte>, a': seq<byte>, lines: nat, stream: seq<byte>, part: seq<byte>, flushed: bool)
    requires Holding(a, lines, stream, flushed) && 0 < |part| && Col(|stream|) + |part| < 62
    requires OnlySlot(a, a', lines, Slot(LineNo(|stream|), lines))
    requires var s, m := Slot(LineNo(|stream|), lines), Col(|stream|);
      a'[64 * s + 2..64 * s + 2 + m + |part|] == a[64 * s + 2..64 * s + 2 + m] + part
    ensures Holding(a', lines, stream + part, false)
  {
    var k := LineNo(|stream|);
    OthersHeld(a, a', lines, stream, part, flushed);
    assert LineNo(|stream + part|) == k && Col(|stream + part|) == Col(|stream|) + |part|;
    assert (stream + part)[62 * k..] == stream[62 * k..] + part;
    hide LineHeld, Untouched;
  }

  /** The unfinished line gets its header. */
  lemma {:induction false} HeaderSet(a: seq<byte>, a': seq<byte>, lines: nat, stream: seq<byte>, flushed: bool)
    requires Holding(a, lines, stream, flushed) && Col(|stream|) > 0
    requires OnlySlot(a, a', lines, Slot(LineNo(|stream|), lines))
    requires var k, m := LineNo(|stream|), Col(|stream|);
      var s := Slot(k, lines);
      a'[64 * s + 2..64 * s + 2 + m] == a[64 * s + 2..64 * s + 2 + m] && Checked(a', s, Flip(k, lines))
    ensures Holding(a', lines, stream, true)
  {
    OthersHeld(a, a', lines, stream, [], flushed);
    assert stream + [] == stream;
    hide LineHeld, Untouched, Checked;
  }

  /** The last bytes of the current line, and its header: the next line begins. */
  lemma {:induction false} Completed(a: seq<byte>, a': seq<byte>, lines: nat, stream: seq<byte>, part: seq<byte>, flushed: bool, flushed': bool)
    requires Holding(a, lines, stream, flushed) && Col(|stream|) + |part| == 62
    requires OnlySlot(a, a', lines, Slot(LineNo(|stream|), lines))
    requires var k, m := LineNo(|stream|), Col(|stream|);
      var s := Slot(k, lines);
      a'[64 * s + 2..64 * s + 64] == a[64 * s + 2..64 * s + 2 + m] + part && Checked(a', s, Flip(k, lines))
    ensures Holding(a', lines, stream + part, flushed')
  {
    var k, stream' := LineNo(|stream|), stream + part;
    OthersHeld(a, a', lines, stream, part, flushed);
    assert LineNo(|stream'|) == k + 1 && Col(|stream'|) == 0;
    assert stream'[62 * k..62 * k + 62] == stream[62 * k..] + part;
    assert LineHeld(a', lines, stream', k);
    SlotRange(k + 1, lines);
    NextStale(a', lines, stream', k);
    hide LineHeld, Untouched, Checked, Stale;
  }

  lemma {:induction false} NextStale(a: seq<byte>, lines: nat, stream: seq<byte>, k: nat)
    requires lines > 0 && |a| == 64 * lines
    requires forall j: nat :: k - lines < j <= k ==> LineHeld(a, lines, stream, j)
    requires forall j :: k < j < lines ==> Untouched(a, j)
    ensures Stale(a, lines, k + 1)
  {
    if k + 1 < lines {
      SlotFirst(k + 1, lines);
      assert Untouched(a, k + 1);
    } else {
      var j := k + 1 - lines;
      SlotLap(k + 1, lines);
      assert LineHeld(a, lines, stream, j);
      assert LineAt(a, Slot(j, lines))[0] == a[64 * Slot(j, lines)];
    }
  }

  /** Where byte `t` of the stream stands, as long as it has not been overwritten. */
  lemma {:induction false} BytePlace(a: seq<byte>, lines: nat, stream: seq<byte>, flushed: bool, t: nat)
    requires Holding(a, lines, stream, flushed) && |stream| / 62 - lines < t / 62 && t < |stream|
    ensures var i := 64 * ((t / 62) % lines) + 2 + t % 62; 0 <= i < |a| == 64 * lines && a[i] == stream[t]
  {
    hide LineNo, Col, Slot, Checked, Stale, Untouched, LineHeld;
    var k, c := LineNo(t), Col(t);
    PlaceOf(t, lines);
    PlaceOf(|stream|, lines);
    if k < LineNo(|stream|) { HeldByte(a, lines, stream, k, c); } else { LastLineByte(a, lines, stream, flushed, c); }
  }

  lemma {:induction false} PlaceOf(t: nat, lines: nat)
    requires lines > 0
    ensures LineNo(t) == t / 62 && Col(t) == t % 62 && Slot(LineNo(t), lines) == (t / 62) % lines && 0 <= Slot(LineNo(t), lines) < lines
  {
    SlotRange(LineNo(t), lines);
  }

  lemma {:induction false} HeldByte(a: seq<byte>, lines: nat, stream: seq<byte>, k: nat, c: nat)
    requires lines > 0 && |a| == 64 * lines && LineHeld(a, lines, stream, k) && c < 62
    ensures 62 * k + c < |stream| && 0 <= 64 * Slot(k, lines) + 2 + c < |a| && a[64 * Slot(k, lines) + 2 + c] == stream[62 * k + c]
  {
    hide Slot, Checked;
    var s := Slot(k, lines);
    assert a[64 * s + 2..64 * s + 64][c] == stream[62 * k..62 * k + 62][c];
  }

  lemma {:induction false} LastLineByte(a: seq<byte>, lines: nat, stream: seq<byte>, flushed: bool, c: nat)
    requires Holding(a, lines, stream, flushed) && c < Col(|stream|)
    ensures var k := LineNo(|stream|); 62 * k + c < |stream| && 0 <= 64 * Slot(k, lines) + 2 + c < |a| && a[64 * Slot(k, lines) + 2 + c] == stream[62 * k + c]
  {
    hide Slot, Checked, Stale, Untouched, LineHeld;
    var k, m := LineNo(|stream|), Col(|stream|);
    var s := Slot(k, lines);
    assert a[64 * s + 2..64 * s + 2 + m][c] == stream[62 * k..][c];
  }

  /** The header of a complete line: a checksum, and a version bit that is set on the first pass over the buffer and every other one. */
  lemma {:induction false} HeaderPlace(a: seq<byte>, lines: nat, stream: seq<byte>, flushed: bool, k: nat)
    requires Holding(a, lines, stream, flushed) && |stream| / 62 - lines < k < |stream| / 62
    ensures var i := 64 * (k % lines); 0 <= i && i + 64 <= |a| && a[i] == checkSum(a[i + 1..i + 64]) + if (k / lines) % 2 == 0 then 0x80 else 0
  {
    assert LineHeld(a, lines, stream, k);
    var s := Slot(k, lines);
    assert LineAt(a, s)[1..] == a[64 * s + 1..64 * s + 64];
  }

  // ---------------------------------------------------------------- read positions

  /** A forward read position at stream byte `t`. */
  predicate AtFwd(pos: LogPos, lines: nat, t: nat)
    requires lines > 0
  {
    var s := Slot(LineNo(t), lines);
    pos.nextline == 64 * s + 64 && pos.next == 64 * s + 2 + Col(t) && pos.version == Flip(LineNo(t), lines)
  }

  /** The stream position at which the line of position `t` starts. */
  function LineStart(t: nat): nat { 62 * LineNo(t) }

  /** A backward read position: the next byte to read is `t - 1`. */
  predicate AtRev(pos: LogPos, lines: nat, t: nat)
    requires lines > 0
  {
    var s := Slot(LineNo(t - 1), lines);
    pos.nextline == 64 * s && pos.next == 64 * s + 3 + Col(t - 1) && pos.version == Flip(LineNo(t - 1), lines)
  }

  /** From the end of a line to byte 2 of the next one. */
  function ToNextLine(pos: LogPos, lines: nat, offset: int): LogPos {
    if pos.nextline < 64 * lines then LogPos(pos.version, offset, pos.nextline + 64, pos.nextline + 2)
    else LogPos(if pos.version == 0 then VERSION_BIT else 0, offset, 64, 2)
  }

  lemma {:induction false} Advance(pos: LogPos, lines: nat, t: nat, l: nat, offset: int)
    requires lines > 0 && AtFwd(pos, lines, t) && Col(t) + l == 62
    ensures AtFwd(ToNextLine(pos, lines, offset), lines, t + l) && LineStart(t + l) == t + l && Col(t + l) == 0
  {
    var k := LineNo(t);
    assert LineNo(t + l) == k + 1 && Col(t + l) == 0;
    SlotRange(k, lines);
    SlotNext(k, lines);
    hide Slot, Flip;
  }

  lemma {:induction false} ChunkFull(a: seq<byte>, lines: nat, stream: seq<byte>, k: nat, i: nat, l: nat)
    requires lines > 0 && |a| == 64 * lines && LineHeld(a, lines, stream, k) && i + l <= 62
    ensures var s, b := Slot(k, lines), 62 * k;
      0 <= s < lines && a[64 * s + 2 + i..64 * s + 2 + i + l] == stream[b + i..b + i + l] && Checked(a, s, Flip(k, lines))
  {
    var s, b := Slot(k, lines), 62 * k;
    SubSlice(a, 64 * s + 2, 64 * s + 64, i, l);
    SubSlice(stream, b, b + 62, i, l);
  }

  lemma {:induction false} ChunkLast(a: seq<byte>, lines: nat, stream: seq<byte>, i: nat, l: nat)
    requires Holding(a, lines, stream, true) && i + l <= Col(|stream|) && l > 0
    ensures var k := LineNo(|stream|);
      var s, b := Slot(k, lines), 62 * k;
      0 <= s < lines && a[64 * s + 2 + i..64 * s + 2 + i + l] == stream[b + i..b + i + l] && Checked(a, s, Flip(k, lines))
  {
    var k, m := LineNo(|stream|), Col(|stream|);
    var s, b := Slot(k, lines), 62 * k;
    assert stream[b..] == stream[b..|stream|];
    SubSlice(a, 64 * s + 2, 64 * s + 2 + m, i, l);
    SubSlice(stream, b, |stream|, i, l);
  }

  /** Stream bytes `t..t+l` of one line can be read back. */
  lemma {:induction false} Chunk(a: seq<byte>, lines: nat, stream: seq<byte>, flushed: bool, t: nat, l: nat)
    requires Holding(a, lines, stream, flushed) && t + l <= |stream| && Col(t) + l <= 62 && l > 0
    requires LineNo(|stream|) - lines < LineNo(t) && (flushed || LineNo(t) < LineNo(|stream|))
    ensures var s := Slot(LineNo(t), lines);
      && 0 <= s < lines && a[64 * s + 2 + Col(t)..64 * s + 2 + Col(t) + l] == stream[t..t + l]
      && Checked(a, s, Flip(LineNo(t), lines))
  {
    hide Holding, LineHeld, Checked, LineNo, Col, Slot, Flip;
    var k, i := LineNo(t), Col(t);
    LineAndCol(t);
    LineAndCol(|stream|);
    if k < LineNo(|stream|) {
      LineIn(a, lines, stream, flushed, k);
      ChunkFull(a, lines, stream, k, i, l);
    } else {
      ChunkLast(a, lines, stream, i, l);
    }
  }

  lemma {:induction false} LineAndCol(t: nat)
    ensures t == 62 * LineNo(t) + Col(t) && LineNo(t) >= 0 && 0 <= Col(t) < 62
  {
  }

  lemma {:induction false} LineIn(a: seq<byte>, lines: nat, stream: seq<byte>, flushed: bool, k: nat)
    requires Holding(a, lines, stream, flushed) && LineNo(|stream|) - lines < k < LineNo(|stream|)
    ensures lines > 0 && |a| == 64 * lines && LineHeld(a, lines, stream, k)
  {
  }

  // ---------------------------------------------------------------- what a crash may leave of the unfinished line

  /** The line that byte `t` of the stream is, or will be, in. */
  function CurrentLine(a: seq<byte>, lines: nat, t: nat): (l: seq<byte>)
    requires lines > 0 && |a| == 64 * lines
    ensures |l| == 64
  {
    SlotRange(LineNo(t), lines);
    LineAt(a, Slot(LineNo(t), lines))
  }

  /** The line after each byte of a copy of `part` to position `at`. */
  function Filling(line: seq<byte>, at: int, part: seq<byte>): (r: seq<seq<byte>>)
    requires 0 <= at && at + |part| <= |line|
    ensures |r| == |part|
  {
    seq(|part|, i requires 0 <= i < |part| => Patch(line, at, part[..i + 1]))
  }

  /** The line after each of the two stores to its header. */
  function Sealing(line: seq<byte>, offset: int, version: int): (r: seq<seq<byte>>)
    requires |line| == 64 && 0 <= offset < 64 && (version == 0 || version == VERSION_BIT)
    ensures |r| == 2
  {
    [line[1 := offset], line[1 := offset][0 := HeaderByte(line[1 := offset], version)]]
  }

  /** The line after each store of `flushLog`. */
  function Flushing(line: seq<byte>, at: int, offset: int, version: int): (r: seq<seq<byte>>)
    requires |line| == 64 && 2 <= at < 64 && 0 <= offset < 64 && (version == 0 || version == VERSION_BIT)
    ensures |r| == 3
  {
    [line[at := NL_INVALID]] + Sealing(line[at := NL_INVALID], offset, version)
  }

  /** The line after each store that completes it: `part` fills it up, then the header. */
  function Completing(line: seq<byte>, part: seq<byte>, offset: int, version: int): (r: seq<seq<byte>>)
    requires |line| == 64 && |part| <= 62 && 0 <= offset < 64 && (version == 0 || version == VERSION_BIT)
  {
    Filling(line, 64 - |part|, part) + Sealing(Patch(line, 64 - |part|, part), offset, version)
  }

  /** The window with the states of a copy of `part` to position `at` of the line. */
  predicate Extended(window: seq<seq<byte>>, window': seq<seq<byte>>, at: int, part: seq<byte>) {
    && |window| > 0 && |window[|window| - 1]| == 64 && 0 <= at && at + |part| <= 64
    && window' == window + Filling(window[|window| - 1], at, part)
  }

  /** A state of a line whose first bytes are `bs`. */
  predicate Shows(w: seq<byte>, bs: seq<byte>) {
    |w| == 64 && |bs| <= 62 && w[2..2 + |bs|] == bs
  }

  /** The header of the line is right. */
  predicate Passes(w: seq<byte>, version: int) {
    |w| == 64 && w[0] == HeaderByte(w, version)
  }

  /** The complete lines of the last pass are in the buffer. */
  ghost predicate LinesHeld(a: seq<byte>, lines: nat, stream: seq<byte>) {
    lines > 0 && |a| == 64 * lines && forall j: nat :: LineNo(|stream|) - lines < j < LineNo(|stream|) ==> LineHeld(a, lines, stream, j)
  }

  /**
   * `window`: the unfinished line after each store since it was last written back and fenced. All these states show the bytes written
   * back then, and the first one under a right header.
   */
  ghost predicate Windowed(a: seq<byte>, lines: nat, stream: seq<byte>, durable: nat, window: seq<seq<byte>>) {
    && lines > 0 && |a| == 64 * lines && LineStart(|stream|) <= durable <= |stream|
    && |window| > 0 && window[|window| - 1] == CurrentLine(a, lines, |stream|)
    && (forall i :: 0 <= i < |window| ==> Shows(window[i], stream[LineStart(|stream|)..durable]))
    && (LineStart(|stream|) < durable ==> Passes(window[0], Flip(LineNo(|stream|), lines)))
  }

  /** Just written back: only the line as it is now. */
  lemma {:induction false} FreshWindow(a: seq<byte>, lines: nat, stream: seq<byte>)
    requires Holding(a, lines, stream, true)
    ensures lines > 0 && |a| == 64 * lines && Windowed(a, lines, stream, |stream|, [CurrentLine(a, lines, |stream|)])
  {
    var k, m := LineNo(|stream|), Col(|stream|);
    var s, l := Slot(k, lines), CurrentLine(a, lines, |stream|);
    SubSlice(a, 64 * s, 64 * s + 64, 2, m);
    assert l[2..2 + m] == stream[62 * k..];
    assert l[0] == a[64 * s];
  }

  lemma {:induction false} HeldLines(a: seq<byte>, lines: nat, stream: seq<byte>, flushed: bool)
    requires Holding(a, lines, stream, flushed)
    ensures LinesHeld(a, lines, stream)
  {
  }

  lemma {:induction false} StartsBefore(t: nat)
    ensures LineStart(t) <= t && Col(t) >= 0
  {
  }

  lemma {:induction false} LastOf(window: seq<seq<byte>>, more: seq<seq<byte>>)
    requires |more| == 3
    ensures (window + more)[|window + more| - 1..] == more[2..]
  {
  }

  /** At the start of a line a flush has nothing to write back. */
  lemma {:induction false} SameWindow(a: seq<byte>, lines: nat, stream: seq<byte>, durable: nat, window: seq<seq<byte>>)
    requires Windowed(a, lines, stream, durable, window) && Col(|stream|) == 0
    ensures Windowed(a, lines, stream, |stream|, window)
  {
  }

  lemma {:induction false} PatchedLine(a: seq<byte>, s: int, at: int, part: seq<byte>)
    requires 0 <= s && 64 * s + 64 <= |a| && 0 <= at && at + |part| <= 64
    ensures LineAt(Patch(a, 64 * s + at, part), s) == Patch(LineAt(a, s), at, part)
  {
    var l, r := LineAt(Patch(a, 64 * s + at, part), s), Patch(LineAt(a, s), at, part);
    forall i | 0 <= i < 64 ensures l[i] == r[i] { }
  }

  lemma {:induction false} PatchShows(line: seq<byte>, bs: seq<byte>, at: int, part: seq<byte>)
    requires Shows(line, bs) && 2 + |bs| <= at && at + |part| <= 64
    ensures Shows(Patch(line, at, part), bs)
  {
    assert Patch(line, at, part)[2..2 + |bs|] == line[2..2 + |bs|];
  }

  lemma {:induction false} FillingShows(line: seq<byte>, bs: seq<byte>, at: int, part: seq<byte>)
    requires Shows(line, bs) && 2 + |bs| <= at && at + |part| <= 64
    ensures forall i :: 0 <= i < |part| ==> Shows(Filling(line, at, part)[i], bs)
    ensures part != [] ==> Filling(line, at, part)[|part| - 1] == Patch(line, at, part)
  {
    assert part[..|part|] == part;
    hide Patch, Shows;
    forall i | 0 <= i < |part| ensures Shows(Filling(line, at, part)[i], bs) { PatchShows(line, bs, at, part[..i + 1]); }
  }

  lemma {:induction false} SealingShows(line: seq<byte>, bs: seq<byte>, offset: int, version: int)
    requires Shows(line, bs) && 0 <= offset < 64 && (version == 0 || version == VERSION_BIT)
    ensures forall i :: 0 <= i < 2 ==> Shows(Sealing(line, offset, version)[i], bs)
    ensures Passes(Sealing(line, offset, version)[1], version) && Sealing(line, offset, version)[1][2..] == line[2..]
  {
    var l := line[1 := offset];
    var l' := l[0 := HeaderByte(l, version)];
    assert l[2..2 + |bs|] == line[2..2 + |bs|] && l'[2..2 + |bs|] == l[2..2 + |bs|];
    assert l'[1..] == l[1..];
  }

  lemma {:induction false} FlushingShows(line: seq<byte>, bs: seq<byte>, at: int, offset: int, version: int)
    requires Shows(line, bs) && 2 + |bs| <= at < 64 && 0 <= offset < 64 && (version == 0 || version == VERSION_BIT)
    ensures forall i :: 0 <= i < 3 ==> Shows(Flushing(line, at, offset, version)[i], bs)
  {
    var l := line[at := NL_INVALID];
    assert l[2..2 + |bs|] == line[2..2 + |bs|];
    SealingShows(l, bs, offset, version);
    hide Sealing, Shows;
  }

  lemma {:induction false} CompletingShows(line: seq<byte>, bs: seq<byte>, part: seq<byte>, offset: int, version: int)
    requires Shows(line, bs) && |bs| + |part| <= 62 && 0 <= offset < 64 && (version == 0 || version == VERSION_BIT)
    ensures forall i :: 0 <= i < |Completing(line, part, offset, version)| ==> Shows(Completing(line, part, offset, version)[i], bs)
  {
    FillingShows(line, bs, 64 - |part|, part);
    PatchShows(line, bs, 64 - |part|, part);
    SealingShows(Patch(line, 64 - |part|, part), bs, offset, version);
    hide Sealing, Filling, Shows, Patch;
  }

  /** More states of the line, of which the last is the line now. */
  lemma {:induction false} WindowMore(a: seq<byte>, a': seq<byte>, lines: nat, stream: seq<byte>, durable: nat, window: seq<seq<byte>>, more: seq<seq<byte>>)
    requires Windowed(a, lines, stream, durable, window) && |a'| == |a| && more != [] && more[|more| - 1] == CurrentLine(a', lines, |stream|)
    requires forall i :: 0 <= i < |more| ==> Shows(more[i], stream[LineStart(|stream|)..durable])
    ensures Windowed(a', lines, stream, durable, window + more)
  {
    hide CurrentLine, Shows, Passes, Flip, LineNo;
  }

  /** Bytes appended within the line change nothing in what was written back. */
  lemma {:induction false} SameBytes(a: seq<byte>, lines: nat, stream: seq<byte>, durable: nat, window: seq<seq<byte>>, part: seq<byte>)
    requires Windowed(a, lines, stream, durable, window) && Col(|stream|) + |part| < 62
    ensures Windowed(a, lines, stream + part, durable, window)
  {
    assert LineNo(|stream + part|) == LineNo(|stream|);
    assert (stream + part)[LineStart(|stream|)..durable] == stream[LineStart(|stream|)..durable];
    hide Shows, Passes, Flip;
  }

  /** The line as the last state of the window. */
  lemma {:induction false} WindowLast(a: seq<byte>, lines: nat, stream: seq<byte>, durable: nat, window: seq<seq<byte>>)
    requires Windowed(a, lines, stream, durable, window)
    ensures lines > 0 && |a| == 64 * lines && |window| > 0 && window[|window| - 1] == CurrentLine(a, lines, |stream|)
    ensures LineStart(|stream|) <= durable <= |stream| && durable - LineStart(|stream|) <= Col(|stream|)
    ensures Shows(CurrentLine(a, lines, |stream|), stream[LineStart(|stream|)..durable])
  {
    assert Shows(window[|window| - 1], stream[LineStart(|stream|)..durable]);
  }

  /** A copy into the line, short of its end. */
  lemma {:induction false} WindowGrows(a: seq<byte>, a': seq<byte>, lines: nat, stream: seq<byte>, durable: nat, window: seq<seq<byte>>, part: seq<byte>)
    requires Windowed(a, lines, stream, durable, window) && 0 < |part| && Col(|stream|) + |part| < 62
    requires var s := Slot(LineNo(|stream|), lines); 0 <= s < lines && a' == Patch(a, 64 * s + 2 + Col(|stream|), part)
    ensures |window| > 0 && |window[|window| - 1]| == 64
    ensures Windowed(a', lines, stream + part, durable, window + Filling(window[|window| - 1], 2 + Col(|stream|), part))
  {
    WindowLast(a, lines, stream, durable, window);
    hide Windowed, Patch, Filling, Shows, Slot, LineNo, Col, LineAt, LineStart;
    var last, at := window[|window| - 1], 2 + Col(|stream|);
    FillingShows(last, stream[LineStart(|stream|)..durable], at, part);
    PatchedLine(a, Slot(LineNo(|stream|), lines), at, part);
    WindowMore(a, a', lines, stream, durable, window, Filling(last, at, part));
    SameBytes(a', lines, stream, durable, window + Filling(last, at, part), part);
  }

  /** The stores of `flushLog`. */
  lemma {:induction false} WindowFlushed(a: seq<byte>, a': seq<byte>, lines: nat, stream: seq<byte>, durable: nat, window: seq<seq<byte>>, offset: int, version: int)
    requires Windowed(a, lines, stream, durable, window) && |a'| == |a| && 0 <= offset < 64 && (version == 0 || version == VERSION_BIT)
    requires CurrentLine(a', lines, |stream|) == Flushing(CurrentLine(a, lines, |stream|), 2 + Col(|stream|), offset, version)[2]
    ensures Windowed(a', lines, stream, durable, window + Flushing(CurrentLine(a, lines, |stream|), 2 + Col(|stream|), offset, version))
  {
    WindowLast(a, lines, stream, durable, window);
    hide Windowed, Flushing, CurrentLine, Shows, Col, LineStart;
    FlushingShows(CurrentLine(a, lines, |stream|), stream[LineStart(|stream|)..durable], 2 + Col(|stream|), offset, version);
    WindowMore(a, a', lines, stream, durable, window, Flushing(CurrentLine(a, lines, |stream|), 2 + Col(|stream|), offset, version));
  }

  /** The stores that complete the line. */
  lemma {:induction false} WindowCompleted(a: seq<byte>, a': seq<byte>, lines: nat, stream: seq<byte>, durable: nat, window: seq<seq<byte>>,
                                           part: seq<byte>, offset: int, version: int)
    requires Windowed(a, lines, stream, durable, window) && |a'| == |a| && 0 <= offset < 64 && (version == 0 || version == VERSION_BIT)
    requires Col(|stream|) + |part| == 62
    requires CurrentLine(a', lines, |stream|) == Sealing(Patch(CurrentLine(a, lines, |stream|), 64 - |part|, part), offset, version)[1]
    ensures Windowed(a', lines, stream, durable, window + Completing(CurrentLine(a, lines, |stream|), part, offset, version))
  {
    WindowLast(a, lines, stream, durable, window);
    var more := Completing(CurrentLine(a, lines, |stream|), part, offset, version);
    assert more[|more| - 1] == CurrentLine(a', lines, |stream|);
    hide Windowed, CurrentLine, Shows, Col, LineStart, Completing;
    CompletingShows(CurrentLine(a, lines, |stream|), stream[LineStart(|stream|)..durable], part, offset, version);
    WindowMore(a, a', lines, stream, durable, window, more);
  }

  /** Header and byte stores as they are seen in the line. */
  lemma {:induction false} FlushedIs(a0: seq<byte>, a1: seq<byte>, a2: seq<byte>, lines: nat, t: nat, offset: int, version: int)
    requires lines > 0 && |a0| == |a2| == 64 * lines && 0 <= offset < 64 && (version == 0 || version == VERSION_BIT)
    requires var s := Slot(LineNo(t), lines);
      && 0 <= s < lines && a1 == a0[64 * s + 2 + Col(t) := NL_INVALID] && a2[64 * s + 1] == offset && Checked(a2, s, version)
      && forall i :: 0 <= i < |a1| && (i < 64 * s || 64 * s + 2 <= i) ==> a2[i] == a1[i]
    ensures CurrentLine(a2, lines, t) == Flushing(CurrentLine(a0, lines, t), 2 + Col(t), offset, version)[2]
  {
    var s := Slot(LineNo(t), lines);
    var l := CurrentLine(a0, lines, t)[2 + Col(t) := NL_INVALID][1 := offset];
    assert LineAt(a2, s)[1..] == l[1..];
  }

  lemma {:induction false} CompletedIs(a0: seq<byte>, a1: seq<byte>, a2: seq<byte>, lines: nat, t: nat, part: seq<byte>, offset: int, version: int)
    requires lines > 0 && |a0| == |a2| == 64 * lines && 0 <= offset < 64 && (version == 0 || version == VERSION_BIT) && Col(t) + |part| == 62
    requires var s := Slot(LineNo(t), lines);
      && 0 <= s < lines && a1 == Patch(a0, 64 * s + 2 + Col(t), part) && a2[64 * s + 1] == offset && Checked(a2, s, version)
      && forall i :: 0 <= i < |a1| && (i < 64 * s || 64 * s + 2 <= i) ==> a2[i] == a1[i]
    ensures CurrentLine(a2, lines, t) == Sealing(Patch(CurrentLine(a0, lines, t), 64 - |part|, part), offset, version)[1]
  {
    hide Patch, Slot, LineNo;
    var s := Slot(LineNo(t), lines);
    PatchedLine(a0, s, 64 - |part|, part);
    SealedLine(a1, a2, s, offset, version);
  }

  lemma {:induction false} SealedLine(a1: seq<byte>, a2: seq<byte>, s: int, offset: int, version: int)
    requires 0 <= s && 64 * s + 64 <= |a1| == |a2| && 0 <= offset < 64 && (version == 0 || version == VERSION_BIT)
    requires a2[64 * s + 1] == offset && Checked(a2, s, version) && forall i :: 0 <= i < |a1| && (i < 64 * s || 64 * s + 2 <= i) ==> a2[i] == a1[i]
    ensures LineAt(a2, s) == Sealing(LineAt(a1, s), offset, version)[1]
  {
    assert LineAt(a2, s)[1..] == LineAt(a1, s)[1 := offset][1..];
  }

  lemma {:induction false} LinesStay(a: seq<byte>, a': seq<byte>, lines: nat, stream: seq<byte>, flushed: bool)
    requires Holding(a, lines, stream, flushed) && |a'| == |a|
    requires var s := Slot(LineNo(|stream|), lines); forall i :: 0 <= i < |a| && (i < 64 * s || 64 * s + 64 <= i) ==> a'[i] == a[i]
    ensures LinesHeld(a', lines, stream)
  {
    SlotRange(LineNo(|stream|), lines);
    SlotOnly(a, a', lines, Slot(LineNo(|stream|), lines));
    OthersHeld(a, a', lines, stream, [], flushed);
    assert stream + [] == stream;
  }

  class LogBuffer {
    const lines: Count
    /** `nl_log_area_` */
    const area: array<byte>
    // `nl_log_wr_`
    var version: int
    var offset: int
    var nextline: int
    var next: int
    /** All bytes ever written. */
    ghost var stream: seq<byte>
    /** The current line's header is right. */
    ghost var flushed: bool
    /** How much of the stream has been written back and fenced. */
    ghost var durable: nat
    /** The current line after each store since it was last written back and fenced. */
    ghost var window: seq<seq<byte>>

    ghost predicate Valid()
      reads this, area
    {
      && Holding(area[..], lines, stream, flushed)
      && AtFwd(LogPos(version, offset, nextline, next), lines, |stream|) && 0 <= offset < 64
      && LineStart(|stream|) <= durable <= |stream| && (flushed ==> durable == |stream|)
      && Windowed(area[..], lines, stream, durable, window) && (flushed || Col(|stream|) == 0 ==> |window| == 1)
    }

    /** `initLog` and `prepareLogforWriting` */
    constructor (n: nat)
      requires n > 0
      ensures Valid() && stream == [] && lines == n && fresh(area) && flushed
      ensures area[..] == seq(64 * n, _ => 0) && offset == 0 && version == VERSION_BIT
    {
      lines := n;
      area := new byte[64 * n](_ => 0);
      version, offset, nextline, next := VERSION_BIT, 0, 64, 2;
      stream, flushed, durable := [], true, 0;
      window := [seq(64, _ => 0)];
      new;
      SlotFirst(0, n);
      assert CurrentLine(area[..], lines, 0) == seq(64, _ => 0);
      FreshWindow(area[..], lines, stream);
    }

    lemma {:induction false} AreaSize()
      requires Valid()
      ensures area.Length == 64 * lines
    {
    }

    /** `prepareLogforWriting` */
    method PrepareLogForWriting()
      modifies `version, `offset, `nextline, `next
      ensures version == (if old(version) == 0 then VERSION_BIT else 0) && offset == 0 && nextline == 64 && next == 2
    {
      version := if version == 0 then VERSION_BIT else 0;
      offset := 0;
      nextline := CACHE_LINE_SIZE;
      next := 2;
    }

    /** Bytes 1 and 0 of the current line, as both `completeLine2Log` and `flushLog` set them. */
    method SetHeader()
      requires 0 <= nextline - 64 && nextline <= area.Length && nextline % 64 == 0 && 0 <= offset < 64 && (version == 0 || version == VERSION_BIT)
      modifies area
      ensures forall i :: 0 <= i < area.Length && (i < nextline - 64 || nextline - 62 <= i) ==> area[i] == old(area[i])
      ensures area.Length == |area[..]| && Checked(area[..], nextline / 64 - 1, version) && area[nextline - 63] == offset
    {
      var line := nextline - 64;
      area[line + 1] := offset;
      ghost var l1 := LineAt(area[..], line / 64);
      area[line] := HeaderByte(area[line..line + 64], version);
      assert LineAt(area[..], line / 64)[1..] == l1[1..];
    }

    /** The last bytes of the current line, and its header; nothing is durable yet that was not. */
    method StoreLine(part: seq<byte>)
      requires Valid() && |part| == nextline - next
      modifies `window, area
      ensures Holding(area[..], lines, stream + part, true)
      ensures LinesHeld(area[..], lines, stream) && Windowed(area[..], lines, stream, durable, window)
      ensures |old(window)| > 0 && |old(window)[|old(window)| - 1]| == 64 && |part| <= 62 && 0 <= offset < 64 && (version == 0 || version == VERSION_BIT)
      ensures window == old(window) + Completing(old(window)[|old(window)| - 1], part, offset, version)
    {
      hide Holding, AtFwd, Windowed, LinesHeld, CurrentLine, Slot, Flip, LineNo, Col, LineStart, Completing, Sealing, Patch, Checked, LineAt;
      ghost var a0 := area[..];
      Cursor(a0, lines, stream, flushed, LogPos(version, offset, nextline, next));
      WindowLast(a0, lines, stream, durable, window);
      Memcpy(area, next, part);
      ghost var a1 := area[..];
      SetHeader();
      Filled(a0, a1, area[..], lines, stream, part, flushed);
      CompletedIs(a0, a1, area[..], lines, |stream|, part, offset, version);
      WindowCompleted(a0, area[..], lines, stream, durable, window, part, offset, version);
      LineOnly(a0, a1, area[..], lines, Slot(LineNo(|stream|), lines), next, part);
      LinesStay(a0, area[..], lines, stream, flushed);
      window := window + Completing(window[|window| - 1], part, offset, version);
    }

    /** The part of `writeLog` that fills the current line, with `completeLine2Log`: the line is written back and fenced. */
    method FillLine(part: seq<byte>)
      requires Valid() && |part| == nextline - next
      modifies this, area
      ensures Valid() && stream == old(stream) + part && durable == |stream| && nextline - next == PAYLOAD
    {
      hide Holding, AtFwd, LineStart, LineNo, Col, Slot, Flip, Windowed, CurrentLine;
      ghost var pos := LogPos(version, offset, nextline, next);
      FillReady(area[..], lines, stream, flushed, pos, |part|);
      StoreLine(part);
      stream := stream + part;
      flushed, durable := true, |stream|;
      AreaLines(area[..], lines, stream, true);
      window := [CurrentLine(area[..], lines, |stream|)];
      FreshWindow(area[..], lines, stream);
      if nextline < area.Length {
        offset := 0;
        next := nextline + 2;
        nextline := nextline + CACHE_LINE_SIZE;
      } else {
        PrepareLogForWriting();
      }
      assert LogPos(version, offset, nextline, next) == ToNextLine(pos, lines, 0);
    }

    /** The part of `writeLog` that leaves room in the current line. */
    method PutBytes(part: seq<byte>)
      requires Valid() && 0 < |part| < nextline - next
      modifies `next, `stream, `flushed, `window, area
      ensures Valid() && stream == old(stream) + part && durable == old(durable)
      ensures Extended(old(window), window, 2 + Col(|old(stream)|), part)
    {
      hide Holding, AtFwd, Slot, Flip, Patch, LineStart, LineNo, Col, Windowed, CurrentLine, Filling;
      ghost var a0, pos := area[..], LogPos(version, offset, nextline, next);
      PutReady(a0, lines, stream, flushed, pos, |part|);
      Memcpy(area, next, part);
      AppendedHere(a0, area[..], lines, stream, part, flushed);
      WindowGrows(a0, area[..], lines, stream, durable, window, part);
      window := window + Filling(window[|window| - 1], 2 + Col(|stream|), part);
      stream := stream + part;
      flushed := false;
      next := next + |part|;
      assert LogPos(version, offset, nextline, next) == pos.(next := pos.next + |part|);
    }

    /** `writeLog`. Bytes that fit into the current line with room to spare are not written back; the line goes through their states. */
    method WriteLog(rec: seq<byte>)
      requires Valid()
      modifies this, area
      ensures Valid() && stream == old(stream) + rec && durable >= old(durable)
      ensures 0 < |rec| < 62 - Col(|old(stream)|) ==> durable == old(durable) && version == old(version)
      ensures 0 < |rec| < 62 - Col(|old(stream)|) ==> offset == if old(offset) == 0 then 2 + Col(|old(stream)|) else old(offset)
      ensures 0 < |rec| < 62 - Col(|old(stream)|) ==> Extended(old(window), window, 2 + Col(|old(stream)|), rec)
    {
      hide Holding, AtFwd, LineStart, LineNo, Col, Windowed, Extended, Slot, Flip, CurrentLine;
      SetOffset();
      var rest := FillLines(rec);
      if |rest| > 0 { PutBytes(rest); }
    }

    /** The part of `writeLog` that notes where the first record of the line starts. */
    method SetOffset()
      requires Valid()
      modifies `offset
      ensures Valid() && offset == (if old(offset) == 0 then 2 + Col(|stream|) else old(offset)) && nextline - next == 62 - Col(|stream|)
    {
      Cursor(area[..], lines, stream, flushed, LogPos(version, offset, nextline, next));
      var l := nextline - next;
      if offset == 0 { offset := CACHE_LINE_SIZE - l; }
      hide Holding, LineStart, LineNo, Col, Windowed;
    }

    /** The loop of `writeLog`: what fills lines is written, the rest is left. */
    method FillLines(rec: seq<byte>) returns (rest: seq<byte>)
      requires Valid()
      modifies this, area
      ensures Valid() && stream + rest == old(stream) + rec && durable >= old(durable) && |rest| < nextline - next
      ensures |rec| < old(nextline) - old(next) ==>
        rest == rec && stream == old(stream) && durable == old(durable) && window == old(window) && version == old(version) && offset == old(offset)
    {
      hide Holding, AtFwd, LineStart, LineNo, Col, Windowed, Slot, Flip, CurrentLine;
      var l := nextline - next;
      RoomHere();
      rest := rec;
      if |rest| < l { return; }
      while |rest| >= l
        invariant Valid() && l == nextline - next && 0 < l <= PAYLOAD && stream + rest == old(stream) + rec && durable >= old(durable)
        decreases |rest|
      {
        Regroup(stream, rest, l);
        FillLine(rest[..l]);
        rest := rest[l..];
        l := PAYLOAD;
      }
    }

    lemma {:induction false} RoomHere()
      requires Valid()
      ensures 0 < nextline - next <= PAYLOAD
    {
      Cursor(area[..], lines, stream, flushed, LogPos(version, offset, nextline, next));
    }

    /** The stores of `flushLog`: the current line gets its header; nothing is durable yet that was not. */
    method SealLine()
      requires Valid() && Col(|stream|) > 0
      modifies `window, area
      ensures Holding(area[..], lines, stream, true)
      ensures LinesHeld(area[..], lines, stream) && Windowed(area[..], lines, stream, durable, window)
      ensures |old(window)| > 0 && |old(window)[|old(window)| - 1]| == 64 && 0 <= offset < 64 && (version == 0 || version == VERSION_BIT)
      ensures window == old(window) + Flushing(old(window)[|old(window)| - 1], 2 + Col(|stream|), offset, version)
    {
      hide Holding, AtFwd, Slot, Flip, Checked, LineNo, Col, LineStart, Windowed, CurrentLine, LinesHeld, Flushing, LineAt;
      ghost var a0 := area[..];
      Cursor(a0, lines, stream, flushed, LogPos(version, offset, nextline, next));
      WindowLast(a0, lines, stream, durable, window);
      area[next] := NL_INVALID;
      ghost var a1 := area[..];
      SetHeader();
      FlushedHere(a0, a1, area[..], lines, stream, flushed);
      HeldLines(area[..], lines, stream, true);
      FlushedIs(a0, a1, area[..], lines, |stream|, offset, version);
      WindowFlushed(a0, area[..], lines, stream, durable, window, offset, version);
      window := window + Flushing(window[|window| - 1], 2 + Col(|stream|), offset, version);
    }

    /** `flushLog`: the current line gets its header and is written back; then everything written is durable. */
    method FlushLog()
      requires Valid()
      modifies `flushed, `durable, `window, area
      ensures Valid() && stream == old(stream) && old(durable) <= durable == |stream| && flushed
      ensures Col(|stream|) > 0 ==> |old(window)| > 0 && |old(window)[|old(window)| - 1]| == 64 && 0 <= offset < 64 && (version == 0 || version == VERSION_BIT)
      ensures Col(|stream|) > 0 ==> window == Flushing(old(window)[|old(window)| - 1], 2 + Col(|stream|), offset, version)[2..]
    {
      hide Holding, AtFwd, Slot, Flip, LineNo, Col, LineStart, Windowed, CurrentLine, LinesHeld, Flushing;
      Cursor(area[..], lines, stream, flushed, CurPos());
      StartsBefore(|stream|);
      var line := nextline - CACHE_LINE_SIZE;
      if next - line > 2 {
        ghost var w0 := window;
        SealLine();
        LastOf(w0, Flushing(w0[|w0| - 1], 2 + Col(|stream|), offset, version));
        WindowLast(area[..], lines, stream, durable, window);
        window := window[|window| - 1..];
        assert window == [CurrentLine(area[..], lines, |stream|)];
        FreshWindow(area[..], lines, stream);
      } else {
        AlreadyFlushed(area[..], lines, stream, flushed);
        SameWindow(area[..], lines, stream, durable, window);
      }
      flushed, durable := true, |stream|;
    }

    // -------------------------------------------------------------- reading

    /** `getLogCurPos` */
    function CurPos(): LogPos
      reads this
    {
      LogPos(version, offset, nextline, next)
    }

    lemma {:induction false} CurAt()
      requires Valid()
      ensures AtFwd(CurPos(), lines, |stream|)
    {
    }

    /** `checkByteOne` of the line at address `line` */
    method CheckLine(line: int, ver: int) returns (ok: bool)
      requires 0 <= line && line + 64 <= area.Length && line % 64 == 0
      ensures ok == Checked(area[..], line / 64, ver)
    {
      assert LineAt(area[..], line / 64) == area[line..line + 64];
      ok := area[line] == HeaderByte(area[line..line + 64], ver);
    }

    /** Move a read position `l` bytes on, and at the end of a line to the next one. */
    method MoveOn(pos0: LogPos, l: nat) returns (pos: LogPos)
      requires area.Length == 64 * lines && 64 <= pos0.nextline <= area.Length && pos0.nextline % 64 == 0
      ensures pos == StepTo(pos0, lines, l, pos.offset)
    {
      pos := pos0.(next := pos0.next + l);
      if pos.next == pos.nextline {
        if pos.nextline < area.Length {
          pos := pos.(next := pos.next + 2, nextline := pos.nextline + CACHE_LINE_SIZE);
        } else {
          pos := pos.(version := if pos.version == 0 then VERSION_BIT else 0, next := 2, nextline := CACHE_LINE_SIZE);
        }
        pos := pos.(offset := area[pos.next - 1]);
      }
    }

    /** One round of `readLog` and `readLogSkip`: the rest of the line, or as much of it as is asked for. */
    method StepLine(pos0: LogPos, rest: nat, ghost t: nat) returns (pos: LogPos, l: nat, from: int)
      requires Valid() && AtFwd(pos0, lines, t) && Readable(lines, |stream|, flushed, t, rest) && rest > 0
      ensures 0 < l <= rest && AtFwd(pos, lines, t + l) && Readable(lines, |stream|, flushed, t + l, rest - l)
      ensures 0 <= from <= from + l <= area.Length && area[from..from + l] == stream[t..t + l]
    {
      hide Holding, AtFwd, Readable, LineNo, Col, Slot, Flip, Checked;
      NextFwd(area[..], lines, stream, flushed, t, rest, pos0);
      l, from := pos0.nextline - pos0.next, pos0.next;
      if rest < l { l := rest; }
      SliceArea(area, from, l);
      pos := MoveOn(pos0, l);
      StepFwd(pos0, lines, t, l, pos);
    }

    /** The line of a readable position passes its check. */
    method CheckFwd(pos: LogPos, ghost t: nat, ghost rest: nat) returns (ok: bool)
      requires Valid() && AtFwd(pos, lines, t) && Readable(lines, |stream|, flushed, t, rest) && rest > 0
      ensures ok
    {
      hide Holding, AtFwd, Readable, LineNo, Col, Slot, Flip, Checked;
      NextFwd(area[..], lines, stream, flushed, t, rest, pos);
      ok := CheckLine(pos.nextline - CACHE_LINE_SIZE, pos.version);
    }

    /** `readLog`: any chunk of what has been written comes back, and the position moves past it. */
    method ReadLog(pos0: LogPos, len: nat, ghost t: nat) returns (pos: LogPos, data: seq<byte>)
      requires Valid() && AtFwd(pos0, lines, t) && Readable(lines, |stream|, flushed, t, len)
      ensures data == stream[t..t + len] && AtFwd(pos, lines, t + len)
    {
      hide Holding, AtFwd, Readable, Windowed, LineNo, Col, Slot, Flip, LineStart;
      pos, data := pos0, [];
      ReadableIn(lines, |stream|, flushed, t, len);
      var rest := len;
      ghost var at := t;
      while rest > 0
        invariant 0 <= rest && t <= at && at + rest == t + len <= |stream| && AtFwd(pos, lines, at)
        invariant Readable(lines, |stream|, flushed, at, rest) && data == stream[t..at]
        decreases rest
      {
        var ok := CheckFwd(pos, at, rest);
        if !ok { break; }
        var l, from;
        pos, l, from := StepLine(pos, rest, at);
        SliceJoin(stream, t, at, at + l);
        data := data + area[from..from + l];
        rest := rest - l;
        at := at + l;
      }
    }

    /** `readLogSkip`: as `readLog`, without the data. */
    method ReadLogSkip(pos0: LogPos, len: nat, ghost t: nat) returns (pos: LogPos, num: nat)
      requires Valid() && AtFwd(pos0, lines, t) && Readable(lines, |stream|, flushed, t, len)
      ensures num == len && AtFwd(pos, lines, t + len)
    {
      hide Holding, AtFwd, Readable, Windowed, LineNo, Col, Slot, Flip, LineStart;
      pos, num := pos0, 0;
      ghost var at := t;
      while num < len
        invariant num <= len && at == t + num && AtFwd(pos, lines, at) && Readable(lines, |stream|, flushed, at, len - num)
      {
        var ok := CheckFwd(pos, at, len - num);
        if !ok { break; }
        var l, from;
        pos, l, from := StepLine(pos, len - num, at);
        num := num + l;
        at := at + l;
      }
    }

    // -------------------------------------------------------------- reading backward

    /** `prepareForReverseRead` on the current position */
    method PrepareForReverseRead(pos0: LogPos) returns (pos: LogPos)
      requires Valid() && pos0 == CurPos()
      modifies `flushed, `durable, `window, area
      ensures Valid() && stream == old(stream) && flushed && durable == |stream| && pos.next == pos0.next
      ensures Col(|stream|) > 0 ==> AtRev(pos, lines, |stream|)
      ensures Col(|stream|) == 0 ==> AtFresh(pos, lines, |stream|)
    {
      FlushLog();
      LineOfPtr(area[..], lines, stream, CurPos());
      LastHeader(area[..], lines, stream);
      hide Holding, LineNo, Col;
      pos := pos0.(nextline := pos0.next / CACHE_LINE_SIZE * CACHE_LINE_SIZE);
      pos := pos.(version := if area[pos.nextline] >= VERSION_BIT then VERSION_BIT else 0);
      RevStart(lines, |stream|, CurPos(), pos);
    }

    /** Move a backward read position `l` bytes back, and at byte 2 of a line to the end of the one before. */
    method MoveBack(pos0: LogPos, l: nat) returns (pos: LogPos)
      requires area.Length == 64 * lines && 0 <= pos0.nextline <= area.Length - 64 && pos0.nextline % 64 == 0
      ensures pos == BackTo(pos0, lines, l, pos.offset)
    {
      pos := pos0.(next := pos0.next - l);
      if pos.next - 2 == pos.nextline {
        if pos.nextline > 0 {
          pos := pos.(next := pos.nextline, nextline := pos.nextline - CACHE_LINE_SIZE);
        } else {
          pos := pos.(version := if pos.version == 0 then VERSION_BIT else 0, next := area.Length, nextline := area.Length - CACHE_LINE_SIZE);
        }
        pos := pos.(offset := area[pos.nextline + 1]);
      }
    }

    /** One round of `readLogReverse` and `readLogReverseSkip`. */
    method StepLineBack(pos0: LogPos, rest: nat, ghost t: nat) returns (pos: LogPos, l: nat, from: int)
      requires Valid() && AtRev(pos0, lines, t) && RevReadable(lines, |stream|, flushed, t, rest) && rest > 0
      ensures 0 < l <= rest && l <= t && AtRev(pos, lines, t - l) && RevReadable(lines, |stream|, flushed, t - l, rest - l)
      ensures 0 <= from <= from + l <= area.Length && area[from..from + l] == stream[t - l..t]
    {
      hide Holding, AtRev, RevReadable, LineNo, Col, Slot, Flip, Checked;
      NextRev(area[..], lines, stream, flushed, t, rest, pos0);
      l := pos0.next - pos0.nextline - 2;
      if rest < l { l := rest; }
      from := pos0.next - l;
      SliceArea(area, from, l);
      pos := MoveBack(pos0, l);
      StepRev(pos0, lines, t, l, pos);
    }

    /** The line of a readable backward position passes its check. */
    method CheckRev(pos: LogPos, ghost t: nat, ghost rest: nat) returns (ok: bool)
      requires Valid() && AtRev(pos, lines, t) && RevReadable(lines, |stream|, flushed, t, rest) && rest > 0
      ensures ok
    {
      hide Holding, AtRev, RevReadable, LineNo, Col, Slot, Flip, Checked;
      NextRev(area[..], lines, stream, flushed, t, rest, pos);
      ok := CheckLine(pos.nextline, pos.version);
    }

    /** `readLogReverse`: the `len` bytes before the position, in stream order. */
    method ReadLogReverse(pos0: LogPos, len: nat, ghost t: nat) returns (pos: LogPos, data: seq<byte>)
      requires Valid() && AtRev(pos0, lines, t) && RevReadable(lines, |stream|, flushed, t, len)
      ensures data == stream[t - len..t] && AtRev(pos, lines, t - len)
    {
      hide Holding, AtRev, RevReadable, Windowed, LineNo, Col, Slot, Flip, LineStart;
      pos, data := pos0, [];
      RevReadableIn(lines, |stream|, flushed, t, len);
      var rest := len;
      ghost var at := t;
      while rest > 0
        invariant 0 <= rest <= at <= t && at - rest == t - len && AtRev(pos, lines, at)
        invariant data == stream[at..t] && RevReadable(lines, |stream|, flushed, at, rest)
        decreases rest
      {
        var ok := CheckRev(pos, at, rest);
        if !ok { break; }
        var l, from;
        pos, l, from := StepLineBack(pos, rest, at);
        SliceJoin(stream, at - l, at, t);
        data := area[from..from + l] + data;
        rest := rest - l;
        at := at - l;
      }
    }

    /** `readLogReverseSkip` */
    method ReadLogReverseSkip(pos0: LogPos, len: nat, ghost t: nat) returns (pos: LogPos, num: nat)
      requires Valid() && AtRev(pos0, lines, t) && RevReadable(lines, |stream|, flushed, t, len)
      ensures num == len && AtRev(pos, lines, t - len)
    {
      hide Holding, AtRev, RevReadable, Windowed, LineNo, Col, Slot, Flip, LineStart;
      RevReadableIn(lines, |stream|, flushed, t, len);
      pos, num := pos0, 0;
      ghost var at := t;
      while num < len
        invariant num <= len && at == t - num && AtRev(pos, lines, at) && RevReadable(lines, |stream|, flushed, at, len - num)
      {
        var ok := CheckRev(pos, at, len - num);
        if !ok { break; }
        var l, from;
        pos, l, from := StepLineBack(pos, len - num, at);
        num := num + l;
        at := at - l;
      }
    }

    /** `reverseAdjustPtr`: where backward reading will have arrived when it has read back to `ptr`. */
    method ReverseAdjustPtr(pos: LogPos, ghost t: nat) returns (ptr: int)
      requires area.Length == 64 * lines && AtFwd(pos, lines, t)
      ensures ptr == RevNext(lines, t)
    {
      ptr := pos.next;
      if ptr % CACHE_LINE_SIZE <= 2 {
        ptr := ptr - 2;
        if ptr == 0 { ptr := area.Length; }
      }
      AdjustedPtr(pos, lines, t);
    }

    // -------------------------------------------------------------- round trips

    /**
     * Any pieces written come back, in chunks of any sizes, by reading on from the position saved before: across line
     * headers, the end of the buffer and version flips, provided they do not lap the buffer.
     */
    method WriteThenRead(parts: seq<seq<byte>>, lens: seq<nat>) returns (chunks: seq<seq<byte>>)
      requires Valid() && Sum(lens) == |Concat(parts)| <= 62 * (lines - 1)
      modifies this, area
      ensures Valid() && stream == old(stream) + Concat(parts) && durable == |stream|
      ensures |chunks| == |lens| && (forall i :: 0 <= i < |lens| ==> |chunks[i]| == lens[i]) && Concat(chunks) == Concat(parts)
    {
      hide Holding, AtFwd, Readable, LineStart, LineNo, Col, Slot, Flip, Concat, Sum;
      ghost var s0 := stream;
      CurAt();
      var pos := CurPos();
      WriteParts(parts);
      FlushLog();
      LapReadable(s0, stream, Concat(parts), lines);
      chunks := ReadChunks(pos, lens, |s0|);
    }

    method WriteParts(parts: seq<seq<byte>>)
      requires Valid()
      modifies this, area
      ensures Valid() && stream == old(stream) + Concat(parts)
    {
      hide Holding, AtFwd, LineStart;
      assert stream + [] == stream;
      for i := 0 to |parts|
        invariant Valid() && stream == old(stream) + Concat(parts[..i])
      {
        assert parts[..i + 1][..i] == parts[..i];
        assert old(stream) + Concat(parts[..i]) + parts[i] == old(stream) + (Concat(parts[..i]) + parts[i]);
        WriteLog(parts[i]);
      }
      assert parts[..|parts|] == parts;
    }

    method ReadChunks(pos0: LogPos, lens: seq<nat>, ghost t: nat) returns (chunks: seq<seq<byte>>)
      requires Valid() && AtFwd(pos0, lines, t) && Readable(lines, |stream|, flushed, t, Sum(lens))
      ensures |chunks| == |lens| && (forall i :: 0 <= i < |lens| ==> |chunks[i]| == lens[i])
      ensures Concat(chunks) == stream[t..t + Sum(lens)]
    {
      hide Holding, AtFwd, Readable, LineStart, Sum, Concat, LineNo;
      ReadableIn(lines, |stream|, flushed, t, Sum(lens));
      Sums(lens);
      var pos := pos0;
      chunks := [];
      for i := 0 to |lens|
        invariant |chunks| == i && AtFwd(pos, lines, t + Sum(lens[..i])) && Sum(lens[..i]) <= Sum(lens)
        invariant (forall j :: 0 <= j < i ==> |chunks[j]| == lens[j]) && Concat(chunks) == stream[t..t + Sum(lens[..i])]
      {
        var chunk;
        SumSplit(lens, i);
        ReadablePart(lines, |stream|, flushed, t, Sum(lens), Sum(lens[..i]), lens[i]);
        pos, chunk := ReadLog(pos, lens[i], t + Sum(lens[..i]));
        ConcatBack(chunks, chunk);
        chunks := chunks + [chunk];
        SliceJoin(stream, t, t + Sum(lens[..i]), t + Sum(lens[..i + 1]));
      }
    }

    /**
     * Backward reading mirrors forward reading: the chunks, each put before those read earlier, rebuild the stream, and after exactly
     * the bytes written the pointer is `reverseAdjustPtr` of the position saved before.
     */
    method WriteThenReadBack(parts: seq<seq<byte>>, lens: seq<nat>) returns (chunks: seq<seq<byte>>, end: int, adjusted: int)
      requires Valid() && Sum(lens) == |Concat(parts)| <= 62 * (lines - 1) && Col(|stream| + |Concat(parts)|) > 0
      modifies this, area
      ensures Valid() && stream == old(stream) + Concat(parts) && durable == |stream|
      ensures |chunks| == |lens| && (forall i :: 0 <= i < |lens| ==> |chunks[i]| == lens[|lens| - 1 - i]) && Concat(chunks) == Concat(parts)
      ensures end == adjusted
    {
      hide Holding, AtFwd, AtRev, AtFresh, RevReadable, LineStart, LineNo, Col, Slot, Flip, Concat, Sum;
      ghost var s0 := stream;
      CurAt();
      AreaSize();
      var pos0 := CurPos();
      WriteParts(parts);
      var pos := PrepareForReverseRead(CurPos());
      LapRevReadable(s0, stream, Concat(parts), lines);
      adjusted := ReverseAdjustPtr(pos0, |s0|);
      chunks, pos := ReadChunksBack(pos, lens, |stream|);
      end := pos.next;
      RevNextOf(pos, lines, |s0|);
    }

    method ReadChunksBack(pos0: LogPos, lens: seq<nat>, ghost t: nat) returns (chunks: seq<seq<byte>>, pos: LogPos)
      requires Valid() && AtRev(pos0, lines, t) && RevReadable(lines, |stream|, flushed, t, Sum(lens))
      ensures |chunks| == |lens| && (forall i :: 0 <= i < |lens| ==> |chunks[i]| == lens[|lens| - 1 - i])
      ensures Sum(lens) <= t <= |stream| && Concat(chunks) == stream[t - Sum(lens)..t] && AtRev(pos, lines, t - Sum(lens))
    {
      hide Holding, AtRev, RevReadable, LineStart, Sum, Concat, LineNo;
      RevReadableIn(lines, |stream|, flushed, t, Sum(lens));
      Sums(lens);
      pos := pos0;
      chunks := [];
      for i := 0 to |lens|
        invariant |chunks| == i && Sum(lens[..i]) <= Sum(lens) && AtRev(pos, lines, t - Sum(lens[..i]))
        invariant (forall j :: 0 <= j < i ==> |chunks[j]| == lens[i - 1 - j]) && Concat(chunks) == stream[t - Sum(lens[..i])..t]
      {
        var chunk;
        SumSplit(lens, i);
        RevReadablePart(lines, |stream|, flushed, t, Sum(lens), Sum(lens[..i]), lens[i]);
        pos, chunk := ReadLogReverse(pos, lens[i], t - Sum(lens[..i]));
        ConcatFront(chunk, chunks);
        chunks := [chunk] + chunks;
        SliceJoin(stream, t - Sum(lens[..i + 1]), t - Sum(lens[..i]), t);
      }
    }
  }

  function Sum(lens: seq<nat>): nat {
    if lens == [] then 0 else Sum(lens[..|lens| - 1]) + lens[|lens| - 1]
  }

  function Concat(parts: seq<seq<byte>>): seq<byte> {
    if parts == [] then [] else Concat(parts[..|parts| - 1]) + parts[|parts| - 1]
  }

  lemma {:induction false} SumSplit(lens: seq<nat>, i: nat)
    requires i < |lens|
    ensures Sum(lens[..i + 1]) == Sum(lens[..i]) + lens[i] <= Sum(lens)
    decreases |lens|
  {
    assert lens[..i + 1][..i] == lens[..i];
    if i + 1 == |lens| {
      assert lens[..i + 1] == lens;
    } else {
      var before := lens[..|lens| - 1];
      SumSplit(before, i);
      assert before[..i + 1] == lens[..i + 1] && before[..i] == lens[..i];
    }
  }

  lemma {:induction false} Sums(lens: seq<nat>)
    ensures Sum(lens[..0]) == 0 && Sum(lens[..|lens|]) == Sum(lens) && Concat([]) == []
  {
    assert lens[..|lens|] == lens;
  }

  lemma {:induction false} ConcatBack(parts: seq<seq<byte>>, a: seq<byte>)
    ensures Concat(parts + [a]) == Concat(parts) + a
  {
    assert (parts + [a])[..|parts|] == parts;
  }

  lemma {:induction false} ConcatFront(a: seq<byte>, parts: seq<seq<byte>>)
    ensures Concat([a] + parts) == a + Concat(parts)
  {
    var all := [a] + parts;
    if parts == [] {
      assert all[..0] == [];
    } else {
      assert all[..|all| - 1] == [a] + parts[..|parts| - 1];
      ConcatFront(a, parts[..|parts| - 1]);
    }
  }

  /** What was written after a position without lapping the buffer can be read from there. */
  lemma {:induction false} LapReadable(s0: seq<byte>, s: seq<byte>, part: seq<byte>, lines: nat)
    requires s == s0 + part && |part| <= 62 * (lines - 1)
    ensures Readable(lines, |s|, true, |s0|, |part|) && s[|s0|..|s0| + |part|] == part
  {
  }

  lemma {:induction false} LapRevReadable(s0: seq<byte>, s: seq<byte>, part: seq<byte>, lines: nat)
    requires s == s0 + part && |part| <= 62 * (lines - 1)
    ensures RevReadable(lines, |s|, true, |s|, |part|) && s[|s| - |part|..|s|] == part && |s| - |part| == |s0|
  {
  }

  lemma {:induction false} ReadablePart(lines: nat, size: nat, flushed: bool, t: nat, len: nat, i: nat, l: nat)
    requires Readable(lines, size, flushed, t, len) && i + l <= len
    ensures Readable(lines, size, flushed, t + i, l)
  {
    LinesUp(t, t + i);
    hide LineNo;
  }

  lemma {:induction false} RevReadablePart(lines: nat, size: nat, flushed: bool, t: nat, len: nat, i: nat, l: nat)
    requires RevReadable(lines, size, flushed, t, len) && i + l <= len
    ensures RevReadable(lines, size, flushed, t - i, l)
  {
    LinesUp(t - len, t - i - l);
    hide LineNo;
  }

  // ---------------------------------------------------------------- where backward reads can get

  predicate RevPos(pos: LogPos, lines: nat) {
    0 <= pos.nextline <= 64 * lines - 64 && pos.nextline % 64 == 0 && pos.nextline + 2 <= pos.next <= pos.nextline + 64
  }

  /** Where `readLogReverse` moves a position on any buffer contents; the offset, which nothing reads, is left out. */
  function MovesBack(a: seq<byte>, lines: nat, pos: LogPos, rest: nat): (r: LogPos)
    requires |a| == 64 * lines && RevPos(pos, lines)
    ensures RevPos(r, lines)
    decreases rest, pos.nextline + 64 - pos.next
  {
    if rest == 0 || !Checked(a, pos.nextline / 64, pos.version) then pos
    else var l := Min(rest, pos.next - pos.nextline - 2); MovesBack(a, lines, BackTo(pos, lines, l, 0), rest - l)
  }

  /** Any number of backward reads, one after the other. */
  function AllMovesBack(a: seq<byte>, lines: nat, pos: LogPos, lens: seq<nat>): (r: LogPos)
    requires |a| == 64 * lines && RevPos(pos, lines)
    ensures RevPos(r, lines)
  {
    if lens == [] then pos else MovesBack(a, lines, AllMovesBack(a, lines, pos, lens[..|lens| - 1]), lens[|lens| - 1])
  }

  /** Neither of these positions passes the check of its line and moves on to one that does. */
  predicate Stuck(pos: LogPos, lines: nat, t: nat)
    requires lines > 0
  {
    var s := Slot(LineNo(t) - 1, lines);
    AtFresh(pos, lines, t) || (pos.nextline == 64 * s && pos.next == 64 * s + 64 && pos.version == VERSION_BIT - Flip(LineNo(t) - 1, lines))
  }

  lemma {:induction false} StuckMove(a: seq<byte>, lines: nat, stream: seq<byte>, pos: LogPos, rest: nat)
    requires Holding(a, lines, stream, true) && lines > 1 && LineNo(|stream|) > 0 && Stuck(pos, lines, |stream|) && RevPos(pos, lines)
    requires |a| == 64 * lines
    ensures Stuck(MovesBack(a, lines, pos, rest), lines, |stream|)
    decreases rest, pos.nextline + 64 - pos.next
  {
    hide Holding, LineNo, Slot, Flip, Stuck, Checked, AtFresh;
    if rest > 0 && Checked(a, pos.nextline / 64, pos.version) {
      StuckChecked(a, lines, stream, pos);
      StuckMove(a, lines, stream, BackTo(pos, lines, 0, 0), rest);
    }
  }

  /** Only the first of the two can pass the check, and the next step is to the other. */
  lemma {:induction false} StuckChecked(a: seq<byte>, lines: nat, stream: seq<byte>, pos: LogPos)
    requires Holding(a, lines, stream, true) && lines > 1 && LineNo(|stream|) > 0 && Stuck(pos, lines, |stream|) && RevPos(pos, lines)
    requires |a| == 64 * lines && Checked(a, pos.nextline / 64, pos.version)
    ensures pos.next == pos.nextline + 2 && Stuck(BackTo(pos, lines, 0, 0), lines, |stream|)
  {
    var k := LineNo(|stream|);
    SlotNext(k - 1, lines);
    SlotRange(k - 1, lines);
    assert LineHeld(a, lines, stream, k - 1);
    hide Holding, LineNo, Slot;
  }

  lemma {:induction false} StuckMoves(a: seq<byte>, lines: nat, stream: seq<byte>, pos: LogPos, lens: seq<nat>)
    requires Holding(a, lines, stream, true) && lines > 1 && LineNo(|stream|) > 0 && Stuck(pos, lines, |stream|) && RevPos(pos, lines)
    ensures Stuck(AllMovesBack(a, lines, pos, lens), lines, |stream|)
  {
    hide Holding, Stuck, MovesBack, LineNo;
    AreaLines(a, lines, stream, true);
    if lens != [] {
      StuckMoves(a, lines, stream, pos, lens[..|lens| - 1]);
      StuckMove(a, lines, stream, AllMovesBack(a, lines, pos, lens[..|lens| - 1]), lens[|lens| - 1]);
    }
  }

  lemma {:induction false} RevMove(a: seq<byte>, lines: nat, stream: seq<byte>, pos: LogPos, t: nat, rest: nat)
    requires Holding(a, lines, stream, true) && AtRev(pos, lines, t) && RevReadable(lines, |stream|, true, t, rest) && RevPos(pos, lines)
    ensures rest <= t && AtRev(MovesBack(a, lines, pos, rest), lines, t - rest)
    decreases rest
  {
    hide Holding, AtRev, RevReadable, LineNo, Col, Slot, Flip, Checked;
    RevReadableIn(lines, |stream|, true, t, rest);
    if rest > 0 {
      NextRev(a, lines, stream, true, t, rest, pos);
      var l := Min(rest, Col(t - 1) + 1);
      StepRev(pos, lines, t, l, BackTo(pos, lines, l, 0));
      RevMove(a, lines, stream, BackTo(pos, lines, l, 0), t - l, rest - l);
    }
  }

  /** The line of the previous pass in the slot of the current line still passes its check. */
  predicate StalePasses(a: seq<byte>, lines: nat, t: nat)
    requires lines > 0 && |a| == 64 * lines
  {
    SlotRange(LineNo(t), lines);
    Checked(a, Slot(LineNo(t), lines), VERSION_BIT - Flip(LineNo(t), lines))
  }

  /**
   * When backward reading can arrive. From the position `prepareForReverseRead` gives, backward reads of suitable lengths arrive at
   * `reverseAdjustPtr` of an earlier or the same position exactly if the write position is not at byte 2 of a line not yet begun: there
   * the version is taken from a line of the previous pass, and no sequence of reads ever gets past the line before. That is far enough
   * only if nothing was written since, and then only if the line of the previous pass still passes its check.
   */
  lemma {:induction false} ReachBack(a: seq<byte>, lines: nat, stream: seq<byte>, pos: LogPos, t0: nat)
    requires Holding(a, lines, stream, true) && t0 <= |stream| && |stream| - t0 <= 62 * (lines - 1)
    requires if Col(|stream|) > 0 then AtRev(pos, lines, |stream|) else AtFresh(pos, lines, |stream|)
    ensures |a| == 64 * lines && RevPos(pos, lines)
    ensures (exists lens: seq<nat> :: AllMovesBack(a, lines, pos, lens).next == RevNext(lines, t0)) <==>
      Col(|stream|) > 0 || (t0 == |stream| && StalePasses(a, lines, |stream|))
  {
    AreaLines(a, lines, stream, true);
    RevPosOf(pos, lines, |stream|);
    hide Holding, AtRev, AtFresh, RevPos, LineNo, Col, Slot, Flip, StalePasses, MovesBack;
    if Col(|stream|) > 0 {
      ReachMoves(a, lines, stream, pos, t0);
    } else if t0 == |stream| {
      ReachStale(a, lines, stream, pos);
    } else {
      forall lens: seq<nat> ensures AllMovesBack(a, lines, pos, lens).next != RevNext(lines, t0) {
        LinesFull(|stream|);
        FreshStuck(pos, lines, |stream|);
        StuckMoves(a, lines, stream, pos, lens);
        StuckApart(lines, t0, |stream|, AllMovesBack(a, lines, pos, lens));
      }
    }
  }

  lemma {:induction false} FreshStuck(pos: LogPos, lines: nat, t: nat)
    requires lines > 0 && AtFresh(pos, lines, t)
    ensures Stuck(pos, lines, t)
  {
  }

  lemma {:induction false} OneLen(a: seq<byte>, lines: nat, pos: LogPos, len: nat)
    requires |a| == 64 * lines && RevPos(pos, lines)
    ensures AllMovesBack(a, lines, pos, [len]) == MovesBack(a, lines, pos, len) && AllMovesBack(a, lines, pos, []) == pos
  {
    var lens: seq<nat> := [len];
    assert lens[..0] == [];
  }

  lemma {:induction false} ReachMoves(a: seq<byte>, lines: nat, stream: seq<byte>, pos: LogPos, t0: nat)
    requires Holding(a, lines, stream, true) && t0 <= |stream| && |stream| - t0 <= 62 * (lines - 1)
    requires |a| == 64 * lines && RevPos(pos, lines) && AtRev(pos, lines, |stream|)
    ensures exists lens: seq<nat> :: AllMovesBack(a, lines, pos, lens).next == RevNext(lines, t0)
  {
    hide Holding, AtRev, RevPos, LineNo, Col, Slot, Flip, MovesBack, AllMovesBack;
    var len := |stream| - t0;
    LapRevReadable(stream[..t0], stream, stream[t0..], lines);
    RevMove(a, lines, stream, pos, |stream|, len);
    RevNextOf(MovesBack(a, lines, pos, len), lines, t0);
    OneLen(a, lines, pos, len);
    var lens: seq<nat> := [len];
    assert AllMovesBack(a, lines, pos, lens).next == RevNext(lines, t0);
  }

  /** The position one step back from byte 2 of a line not yet begun. */
  lemma {:induction false} BackFresh(a: seq<byte>, lines: nat, stream: seq<byte>, pos: LogPos)
    requires Holding(a, lines, stream, true) && |a| == 64 * lines && Col(|stream|) == 0 && AtFresh(pos, lines, |stream|)
    ensures RevPos(pos, lines) && pos.next == pos.nextline + 2 && pos.next != RevNext(lines, |stream|)
    ensures Checked(a, pos.nextline / 64, pos.version) <==> StalePasses(a, lines, |stream|)
    ensures var back := BackTo(pos, lines, 0, 0);
      RevPos(back, lines) && back.next == RevNext(lines, |stream|) && !Checked(a, back.nextline / 64, back.version)
  {
    hide Holding, Slot, LineNo, Flip, Checked, Col;
    var k := LineNo(|stream|);
    AreaLines(a, lines, stream, true);
    SlotRange(k, lines);
    SlotRange(k - 1, lines);
    SlotNext(k - 1, lines);
    FlipIs(k - 1, lines);
    StartOfLine(|stream|);
    LineBefore(a, lines, stream);
    var back := BackTo(pos, lines, 0, 0);
    assert back.nextline == 64 * Slot(k - 1, lines) && back.version == VERSION_BIT - Flip(k - 1, lines);
  }

  lemma {:induction false} StartOfLine(t: nat)
    requires Col(t) == 0
    ensures LineNo(t - 1) == LineNo(t) - 1 && Col(t - 1) == 61
  {
  }

  /** The line before, when there is one, passes with its own version; otherwise, and with only one line, its slot's header says no as well. */
  lemma {:induction false} LineBefore(a: seq<byte>, lines: nat, stream: seq<byte>)
    requires Holding(a, lines, stream, true) && |a| == 64 * lines && Col(|stream|) == 0
    ensures var k := LineNo(|stream|) - 1;
      0 <= Slot(k, lines) < lines && !Checked(a, Slot(k, lines), VERSION_BIT - Flip(k, lines))
  {
    var k := LineNo(|stream|) - 1;
    hide Slot, Flip, LineNo, Checked, Holding, LineHeld, Untouched, Stale;
    AreaLines(a, lines, stream, true);
    SlotRange(k, lines);
    if lines == 1 {
      SlotApartOne(k);
      SlotNext(k, lines);
      StaleHeader(a, lines, stream);
    } else if k >= 0 {
      LineIn(a, lines, stream, true, k);
      HeldHeader(a, lines, stream, k);
    } else {
      FirstSlots(a, lines, stream);
    }
    FlipIs(k, lines);
    if Checked(a, Slot(k, lines), VERSION_BIT - Flip(k, lines)) { CheckedHeader(a, Slot(k, lines), VERSION_BIT - Flip(k, lines)); }
  }

  lemma {:induction false} FlipIs(k: int, lines: nat)
    requires lines > 0
    ensures Flip(k, lines) == 0 || Flip(k, lines) == VERSION_BIT
  {
  }

  /** A header that passes has the version it is checked with. */
  lemma {:induction false} CheckedHeader(a: seq<byte>, s: int, version: int)
    requires 0 <= s && 64 * s + 64 <= |a| && Checked(a, s, version) && (version == 0 || version == VERSION_BIT)
    ensures a[64 * s] >= VERSION_BIT <==> version == VERSION_BIT
  {
    assert LineAt(a, s)[0] == a[64 * s];
  }

  lemma {:induction false} HeldHeader(a: seq<byte>, lines: nat, stream: seq<byte>, k: nat)
    requires lines > 0 && |a| == 64 * lines && LineHeld(a, lines, stream, k)
    ensures var s := Slot(k, lines); 0 <= s < lines && (a[64 * s] >= VERSION_BIT <==> Flip(k, lines) == VERSION_BIT)
  {
    FlipIs(k, lines);
    hide Slot, Flip, Checked;
    CheckedHeader(a, Slot(k, lines), Flip(k, lines));
  }

  lemma {:induction false} StaleHeader(a: seq<byte>, lines: nat, stream: seq<byte>)
    requires Holding(a, lines, stream, true) && Col(|stream|) == 0
    ensures var k := LineNo(|stream|);
      var s := Slot(k, lines); 0 <= s < lines && |a| == 64 * lines && (a[64 * s] >= VERSION_BIT <==> Flip(k, lines) == 0)
  {
  }

  /** On a log just initialised the slot before the first is the last one, still clear. */
  lemma {:induction false} FirstSlots(a: seq<byte>, lines: nat, stream: seq<byte>)
    requires Holding(a, lines, stream, true) && |a| == 64 * lines && LineNo(|stream|) == 0 && lines > 1
    ensures Slot(-1, lines) == lines - 1 && a[64 * (lines - 1)] == 0 && Flip(-1, lines) == 0
  {
    hide Slot, Flip, Checked, Stale, LineHeld;
    MinusOne(lines);
    assert Untouched(a, lines - 1);
  }

  lemma {:induction false} MinusOne(lines: nat)
    requires lines > 1
    ensures Slot(-1, lines) == lines - 1 && Flip(-1, lines) == 0
  {
    DivUnique(-1, lines, -1, lines - 1);
  }

  lemma {:induction false} SlotApartOne(k: int)
    ensures Slot(k, 1) == 0 == Slot(k + 1, 1)
  {
  }

  lemma {:induction false} ReachStale(a: seq<byte>, lines: nat, stream: seq<byte>, pos: LogPos)
    requires Holding(a, lines, stream, true) && |a| == 64 * lines && RevPos(pos, lines) && Col(|stream|) == 0 && AtFresh(pos, lines, |stream|)
    ensures (exists lens: seq<nat> :: AllMovesBack(a, lines, pos, lens).next == RevNext(lines, |stream|)) <==> StalePasses(a, lines, |stream|)
  {
    hide Holding, AtFresh, RevPos, LineNo, Col, Slot, Flip, StalePasses, BackTo, Checked, RevNext;
    AreaLines(a, lines, stream, true);
    BackFresh(a, lines, stream, pos);
    if StalePasses(a, lines, |stream|) {
      OneLen(a, lines, pos, 1);
      var lens: seq<nat> := [1];
      assert AllMovesBack(a, lines, pos, lens).next == RevNext(lines, |stream|);
    } else {
      forall lens: seq<nat> ensures AllMovesBack(a, lines, pos, lens).next != RevNext(lines, |stream|) { NoMove(a, lines, pos, lens); }
    }
  }

  lemma {:induction false} NoMove(a: seq<byte>, lines: nat, pos: LogPos, lens: seq<nat>)
    requires |a| == 64 * lines && RevPos(pos, lines) && !Checked(a, pos.nextline / 64, pos.version)
    ensures AllMovesBack(a, lines, pos, lens) == pos
  {
    if lens != [] { NoMove(a, lines, pos, lens[..|lens| - 1]); }
  }

  lemma {:induction false} RevPosOf(pos: LogPos, lines: nat, t: nat)
    requires lines > 0 && (AtRev(pos, lines, t) || AtFresh(pos, lines, t))
    ensures RevPos(pos, lines)
  {
    hide Slot, LineNo, Flip;
    SlotRange(LineNo(t), lines);
    SlotRange(LineNo(t - 1), lines);
  }

  lemma {:induction false} LinesFull(t: nat)
    requires t > 0 && Col(t) == 0
    ensures LineNo(t) > 0 && LineNo(t - 1) == LineNo(t) - 1 && Col(t - 1) == 61
  {
  }

  lemma {:induction false} StuckApart(lines: nat, t0: nat, t: nat, pos: LogPos)
    requires lines > 0 && t0 < t && t - t0 <= 62 * (lines - 1) && Col(t) == 0 && Stuck(pos, lines, t)
    ensures pos.next != RevNext(lines, t0)
  {
    LinesFull(t);
    assert LineNo(t - 1) - LineNo(t0 - 1) < lines;
    RevApart(lines, t0, t);
    hide LineNo, Slot;
  }

  /** There even an empty transaction's abort does not stop at once, and the byte it takes for a tag is the offset in the line's header. */
  lemma {:induction false} EmptyAbort(a: seq<byte>, lines: nat, stream: seq<byte>, pos: LogPos)
    requires Holding(a, lines, stream, true) && Col(|stream|) == 0 && AtFresh(pos, lines, |stream|)
    ensures pos.next != RevNext(lines, |stream|) && 0 < pos.next <= |a| && 0 <= pos.nextline < |a| - 1 && a[pos.next - 1] == a[pos.nextline + 1]
  {
    AreaLines(a, lines, stream, true);
    SlotRange(LineNo(|stream|), lines);
    BackFresh(a, lines, stream, pos);
    hide Holding, Slot;
  }

  /** On a log just initialised that byte is no tag. */
  lemma {:induction false} FreshAbort(a: seq<byte>, lines: nat, pos: LogPos)
    requires lines > 0 && a == seq(64 * lines, _ => 0) && AtFresh(pos, lines, 0)
    ensures pos.next != RevNext(lines, 0) && 0 < pos.next <= |a| && a[pos.next - 1] == NL_INVALID
  {
    SlotRange(LineNo(-1), lines);
    SlotFirst(0, lines);
    hide Slot;
  }

  // ---------------------------------------------------------------- backward positions

  /** `next_ptr_` of a backward position at `t` */
  function RevNext(lines: nat, t: nat): int
    requires lines > 0
  {
    64 * Slot(LineNo(t - 1), lines) + 3 + Col(t - 1)
  }

  lemma {:induction false} RevNextOf(pos: LogPos, lines: nat, t: nat)
    requires lines > 0 && AtRev(pos, lines, t)
    ensures pos.next == RevNext(lines, t)
  {
  }

  /** The position `prepareForReverseRead` leaves at byte 2 of a line not yet begun: the version is of an earlier pass. */
  predicate AtFresh(pos: LogPos, lines: nat, t: nat)
    requires lines > 0
  {
    var s := Slot(LineNo(t), lines);
    pos.nextline == 64 * s && pos.next == 64 * s + 2 && pos.version == VERSION_BIT - Flip(LineNo(t), lines)
  }

  function BackTo(pos: LogPos, lines: nat, l: nat, offset: int): LogPos {
    if pos.next - l - 2 != pos.nextline then pos.(next := pos.next - l)
    else if pos.nextline > 0 then LogPos(pos.version, offset, pos.nextline - 64, pos.nextline)
    else LogPos(if pos.version == 0 then VERSION_BIT else 0, offset, 64 * lines - 64, 64 * lines)
  }

  /** The `len` bytes before position `t` are still in the buffer, in lines with a right header. */
  predicate RevReadable(lines: nat, size: nat, flushed: bool, t: nat, len: nat) {
    len <= t <= size && (len > 0 ==> LineNo(size) - lines < LineNo(t - len) && (flushed || t <= LineStart(size)))
  }

  lemma {:induction false} ChunkBack(a: seq<byte>, lines: nat, stream: seq<byte>, flushed: bool, t: nat, l: nat, pos: LogPos)
    requires Holding(a, lines, stream, flushed) && AtRev(pos, lines, t) && 0 < l <= t <= |stream| && l <= Col(t - 1) + 1
    requires LineNo(|stream|) - lines < LineNo(t - l) && (flushed || t <= LineStart(|stream|))
    ensures 0 <= pos.nextline <= |a| - 64 && |a| == 64 * lines && pos.nextline % 64 == 0 && 0 <= pos.next - l <= pos.next <= |a|
    ensures pos.next - pos.nextline - 2 == Col(t - 1) + 1
    ensures a[pos.next - l..pos.next] == stream[t - l..t] && Checked(a, pos.nextline / 64, pos.version)
  {
    SameBack(t, l);
    Chunk(a, lines, stream, flushed, t - l, l);
    assert |a| == 64 * lines;
    hide Holding, Checked, LineNo, Col, Slot, Flip;
    var s := Slot(LineNo(t - 1), lines);
    assert pos.nextline / 64 == s;
  }

  /** What a backward read of `rest` bytes finds in the current line. */
  lemma {:induction false} NextRev(a: seq<byte>, lines: nat, stream: seq<byte>, flushed: bool, t: nat, rest: nat, pos: LogPos)
    requires Holding(a, lines, stream, flushed) && AtRev(pos, lines, t) && RevReadable(lines, |stream|, flushed, t, rest) && rest > 0
    ensures var l := Min(rest, Col(t - 1) + 1);
      && 0 < l <= t <= |stream| && 0 <= pos.nextline <= |a| - 64 && |a| == 64 * lines && pos.nextline % 64 == 0
      && 0 <= pos.next - l <= pos.next <= |a| && pos.next - pos.nextline - 2 == Col(t - 1) + 1
      && a[pos.next - l..pos.next] == stream[t - l..t] && Checked(a, pos.nextline / 64, pos.version)
    ensures RevReadable(lines, |stream|, flushed, t - Min(rest, Col(t - 1) + 1), rest - Min(rest, Col(t - 1) + 1))
  {
    var l := Min(rest, Col(t - 1) + 1);
    LinesUp(t - rest, t - l);
    ChunkBack(a, lines, stream, flushed, t, l, pos);
    hide Holding, AtRev, Checked, LineNo, Col;
  }

  lemma {:induction false} RevReadableIn(lines: nat, size: nat, flushed: bool, t: nat, len: nat)
    requires RevReadable(lines, size, flushed, t, len)
    ensures len <= t <= size
  {
  }

  lemma {:induction false} LinesUp(a: int, b: int)
    requires a <= b
    ensures LineNo(a) <= LineNo(b)
  {
  }

  lemma {:induction false} SameBack(t: nat, l: nat)
    requires 0 < l <= t && l <= Col(t - 1) + 1
    ensures LineNo(t - l) == LineNo(t - 1) && Col(t - l) == Col(t - 1) + 1 - l
  {
  }

  lemma {:induction false} StepRev(pos: LogPos, lines: nat, t: nat, l: nat, pos': LogPos)
    requires lines > 0 && AtRev(pos, lines, t) && 0 < l <= t && l <= Col(t - 1) + 1 && pos' == BackTo(pos, lines, l, pos'.offset)
    ensures AtRev(pos', lines, t - l)
  {
    var k := LineNo(t - 1);
    if l <= Col(t - 1) {
      assert LineNo(t - l - 1) == k && Col(t - l - 1) == Col(t - 1) - l;
    } else {
      assert LineNo(t - l - 1) == k - 1 && Col(t - l - 1) == 61;
      SlotRange(k - 1, lines);
      SlotNext(k - 1, lines);
      hide Slot, LineNo, Col;
    }
  }

  lemma {:induction false} LastHeader(a: seq<byte>, lines: nat, stream: seq<byte>)
    requires Holding(a, lines, stream, true)
    ensures var k := LineNo(|stream|);
      var s := Slot(k, lines);
      && 0 <= s < lines && |a| == 64 * lines
      && (Col(|stream|) > 0 ==> (a[64 * s] >= VERSION_BIT <==> Flip(k, lines) == VERSION_BIT))
      && (Col(|stream|) == 0 ==> (a[64 * s] >= VERSION_BIT <==> Flip(k, lines) == 0))
  {
    var s := Slot(LineNo(|stream|), lines);
    assert Col(|stream|) > 0 ==> LineAt(a, s)[0] == a[64 * s];
  }

  lemma {:induction false} LineOfPtr(a: seq<byte>, lines: nat, stream: seq<byte>, pos: LogPos)
    requires Holding(a, lines, stream, true) && AtFwd(pos, lines, |stream|)
    ensures pos.next / 64 * 64 == 64 * Slot(LineNo(|stream|), lines)
  {
    hide Holding, AtFwd, LineNo, Slot, Flip, Col;
    Cursor(a, lines, stream, true, pos);
    LineAndCol(|stream|);
    DivUnique(pos.next, 64, Slot(LineNo(|stream|), lines), 2 + Col(|stream|));
  }

  lemma {:induction false} RevStart(lines: nat, t: nat, cur: LogPos, pos: LogPos)
    requires lines > 0 && AtFwd(cur, lines, t) && pos.nextline == cur.next / 64 * 64 && pos.next == cur.next
    requires (Col(t) > 0 ==> pos.version == Flip(LineNo(t), lines)) && (Col(t) == 0 ==> pos.version == VERSION_BIT - Flip(LineNo(t), lines))
    ensures Col(t) > 0 ==> AtRev(pos, lines, t)
    ensures Col(t) == 0 ==> AtFresh(pos, lines, t)
  {
    var s := Slot(LineNo(t), lines);
    assert cur.next / 64 == s;
    if Col(t) > 0 { assert LineNo(t - 1) == LineNo(t) && Col(t - 1) == Col(t) - 1; }
  }

  lemma {:induction false} AdjustedPtr(pos: LogPos, lines: nat, t: nat)
    requires lines > 0 && AtFwd(pos, lines, t)
    ensures RevNext(lines, t) ==
      if pos.next % 64 <= 2 then (if pos.next == 2 then 64 * lines else pos.next - 2) else pos.next
  {
    var k := LineNo(t);
    SlotRange(k, lines);
    assert pos.next % 64 == 2 + Col(t);
    if Col(t) > 0 {
      assert LineNo(t - 1) == k && Col(t - 1) == Col(t) - 1;
    } else {
      assert LineNo(t - 1) == k - 1 && Col(t - 1) == 61;
      SlotRange(k - 1, lines);
      SlotNext(k - 1, lines);
    }
  }

  /** Within one pass over the buffer, equal backward pointers mean equal positions. */
  lemma {:induction false} RevApart(lines: nat, t0: nat, t: nat)
    requires lines > 0 && t0 < t && LineNo(t - 1) - LineNo(t0 - 1) < lines
    ensures RevNext(lines, t0) != RevNext(lines, t)
  {
    var j, k := LineNo(t0 - 1), LineNo(t - 1);
    SlotRange(j, lines);
    SlotRange(k, lines);
    if j < k { SlotApart(j, k, lines); }
    hide Slot;
  }

  /** Within one pass over the buffer, equal write positions mean that nothing was written. */
  lemma {:induction false} FwdApart(p: LogPos, q: LogPos, lines: nat, t0: nat, t: nat)
    requires lines > 0 && AtFwd(p, lines, t0) && AtFwd(q, lines, t) && t0 <= t && t - t0 <= 62 * (lines - 1)
    ensures p.next == q.next <==> t0 == t
  {
    var j, k := LineNo(t0), LineNo(t);
    assert k < j + lines;
    if j < k { SlotApart(j, k, lines); }
    hide Slot;
  }

  /** The next `len` bytes from position `t` are written, still in the buffer, and in lines with a right header. */
  predicate Readable(lines: nat, size: nat, flushed: bool, t: nat, len: nat) {
    t + len <= size && (len > 0 ==> LineNo(size) - lines < LineNo(t) && (flushed || t + len <= LineStart(size)))
  }

  /** The position after reading `l` bytes of one line. */
  function StepTo(pos: LogPos, lines: nat, l: nat, offset: int): LogPos {
    if pos.next + l == pos.nextline then ToNextLine(pos, lines, offset) else pos.(next := pos.next + l)
  }

  lemma {:induction false} StepFwd(pos: LogPos, lines: nat, t: nat, l: nat, pos': LogPos)
    requires lines > 0 && AtFwd(pos, lines, t) && Col(t) + l <= 62 && pos' == StepTo(pos, lines, l, pos'.offset)
    ensures AtFwd(pos', lines, t + l) && (pos.next + l == pos.nextline ==> pos'.nextline - pos'.next == PAYLOAD)
    ensures LineNo(t) <= LineNo(t + l)
  {
    if Col(t) + l == 62 { Advance(pos, lines, t, l, pos'.offset); } else { SameLine(pos, lines, t, l); }
    hide Slot, Flip, LineNo, Col;
  }

  function Min(a: int, b: int): int { if a < b then a else b }

  lemma {:induction false} ChunkHere(a: seq<byte>, lines: nat, stream: seq<byte>, flushed: bool, t: nat, l: nat, pos: LogPos)
    requires Holding(a, lines, stream, flushed) && AtFwd(pos, lines, t) && t + l <= |stream| && Col(t) + l <= 62 && l > 0
    requires LineNo(|stream|) - lines < LineNo(t) && (flushed || LineNo(t) < LineNo(|stream|))
    ensures 64 <= pos.nextline <= |a| && pos.nextline % 64 == 0 && 0 <= pos.next <= pos.next + l <= |a| && pos.nextline - pos.next == 62 - Col(t)
    ensures a[pos.next..pos.next + l] == stream[t..t + l] && Checked(a, pos.nextline / 64 - 1, pos.version)
    ensures (pos.nextline - 64) / 64 == pos.nextline / 64 - 1
  {
    Chunk(a, lines, stream, flushed, t, l);
    assert |a| == 64 * lines;
    hide Holding, Checked, LineNo, Col, Slot, Flip;
    var s := Slot(LineNo(t), lines);
    assert pos.nextline / 64 - 1 == s;
  }

  /** What a forward read of `rest` bytes finds in the current line. */
  lemma {:induction false} NextFwd(a: seq<byte>, lines: nat, stream: seq<byte>, flushed: bool, t: nat, rest: nat, pos: LogPos)
    requires Holding(a, lines, stream, flushed) && AtFwd(pos, lines, t) && Readable(lines, |stream|, flushed, t, rest) && rest > 0
    ensures var l := Min(rest, 62 - Col(t));
      && 0 < l && t + l <= |stream| && 64 <= pos.nextline <= |a| == 64 * lines && pos.nextline % 64 == 0
      && 0 <= pos.next <= pos.next + l <= |a| && pos.nextline - pos.next == 62 - Col(t)
      && a[pos.next..pos.next + l] == stream[t..t + l] && Checked(a, pos.nextline / 64 - 1, pos.version)
    ensures (pos.nextline - 64) / 64 == pos.nextline / 64 - 1
    ensures Readable(lines, |stream|, flushed, t + Min(rest, 62 - Col(t)), rest - Min(rest, 62 - Col(t)))
  {
    var l := Min(rest, 62 - Col(t));
    LinesUp(t, t + l);
    ChunkHere(a, lines, stream, flushed, t, l, pos);
    AreaLines(a, lines, stream, flushed);
    hide Holding, AtFwd, Checked, LineNo, Col;
  }

  lemma {:induction false} ReadableIn(lines: nat, size: nat, flushed: bool, t: nat, len: nat)
    requires Readable(lines, size, flushed, t, len)
    ensures t + len <= size
  {
  }

  lemma {:induction false} AreaLines(a: seq<byte>, lines: nat, stream: seq<byte>, flushed: bool)
    requires Holding(a, lines, stream, flushed)
    ensures lines > 0 && |a| == 64 * lines
  {
  }

  lemma {:induction false} Regroup(stream: seq<byte>, rest: seq<byte>, l: int)
    requires 0 <= l <= |rest|
    ensures stream + rest == (stream + rest[..l]) + rest[l..]
  {
  }

  lemma {:induction false} SameLine(pos: LogPos, lines: nat, t: nat, l: nat)
    requires lines > 0 && AtFwd(pos, lines, t) && Col(t) + l < 62
    ensures AtFwd(pos.(next := pos.next + l), lines, t + l) && LineStart(t + l) == LineStart(t)
  {
    assert LineNo(t + l) == LineNo(t) && Col(t + l) == Col(t) + l;
    hide Slot, Flip;
  }

  lemma {:induction false} AppendedHere(a: seq<byte>, a': seq<byte>, lines: nat, stream: seq<byte>, part: seq<byte>, flushed: bool)
    requires Holding(a, lines, stream, flushed) && 0 < |part| && Col(|stream|) + |part| < 62
    requires var s := Slot(LineNo(|stream|), lines);
      0 <= s < lines && |a| == 64 * lines && a' == Patch(a, 64 * s + 2 + Col(|stream|), part)
    ensures Holding(a', lines, stream + part, false)
  {
    var s := Slot(LineNo(|stream|), lines);
    PatchHere(a, 64 * s + 2 + Col(|stream|), part, 64 * s + 2);
    SlotOnly(a, a', lines, s);
    hide Holding, OnlySlot, Patch;
    Appended(a, a', lines, stream, part, flushed);
  }

  lemma {:induction false} FlushedHere(a0: seq<byte>, a1: seq<byte>, a2: seq<byte>, lines: nat, stream: seq<byte>, flushed: bool)
    requires Holding(a0, lines, stream, flushed) && Col(|stream|) > 0 && |a0| == |a2| == 64 * lines
    requires var k, m := LineNo(|stream|), Col(|stream|);
      var s := Slot(k, lines);
      && 0 <= s < lines && a1 == a0[64 * s + 2 + m := NL_INVALID]
      && (forall i :: 0 <= i < |a1| && (i < 64 * s || 64 * s + 2 <= i) ==> a2[i] == a1[i]) && Checked(a2, s, Flip(k, lines))
    ensures Holding(a2, lines, stream, true)
  {
    var k, m := LineNo(|stream|), Col(|stream|);
    var s := Slot(k, lines);
    SlotOnly(a0, a2, lines, s);
    assert a2[64 * s + 2..64 * s + 2 + m] == a0[64 * s + 2..64 * s + 2 + m];
    hide Holding, OnlySlot, Checked;
    HeaderSet(a0, a2, lines, stream, flushed);
  }

  lemma {:induction false} AlreadyFlushed(a: seq<byte>, lines: nat, stream: seq<byte>, flushed: bool)
    requires Holding(a, lines, stream, flushed) && Col(|stream|) == 0
    ensures Holding(a, lines, stream, true)
  {
  }

  /** The write position in numbers. */
  lemma {:induction false} Cursor(a: seq<byte>, lines: nat, stream: seq<byte>, flushed: bool, pos: LogPos)
    requires Holding(a, lines, stream, flushed) && AtFwd(pos, lines, |stream|)
    ensures var s := Slot(LineNo(|stream|), lines);
      && 0 <= s < lines && |a| == 64 * lines && pos.nextline == 64 * s + 64 && pos.nextline / 64 - 1 == s && pos.nextline % 64 == 0
      && pos.next == 64 * s + 2 + Col(|stream|) && pos.version == Flip(LineNo(|stream|), lines)
    ensures 64 <= pos.nextline <= |a| && pos.nextline - 62 <= pos.next < pos.nextline && (pos.version == 0 || pos.version == VERSION_BIT)
  {
  }

  /** There is room for `n` bytes in the current line. */
  lemma {:induction false} PutReady(a: seq<byte>, lines: nat, stream: seq<byte>, flushed: bool, pos: LogPos, n: nat)
    requires Holding(a, lines, stream, flushed) && AtFwd(pos, lines, |stream|) && 0 < n < pos.nextline - pos.next
    ensures 0 <= Slot(LineNo(|stream|), lines) < lines && |a| == 64 * lines && Col(|stream|) + n < 62
    ensures 0 <= pos.next == 64 * Slot(LineNo(|stream|), lines) + 2 + Col(|stream|) && pos.next + n <= |a|
    ensures AtFwd(pos.(next := pos.next + n), lines, |stream| + n) && LineStart(|stream| + n) == LineStart(|stream|)
  {
    Cursor(a, lines, stream, flushed, pos);
    SameLine(pos, lines, |stream|, n);
    hide Holding, AtFwd, Slot, Flip, LineNo, Col, LineStart;
  }

  /** `n` bytes complete the current line. */
  lemma {:induction false} FillReady(a: seq<byte>, lines: nat, stream: seq<byte>, flushed: bool, pos: LogPos, n: nat)
    requires Holding(a, lines, stream, flushed) && AtFwd(pos, lines, |stream|) && n == pos.nextline - pos.next
    ensures AtFwd(ToNextLine(pos, lines, 0), lines, |stream| + n) && LineStart(|stream| + n) == |stream| + n && |a| == 64 * lines
    ensures pos.next >= 0
  {
    Cursor(a, lines, stream, flushed, pos);
    Advance(pos, lines, |stream|, n, 0);
    hide Holding, AtFwd, Slot, Flip, LineNo, Col, LineStart;
  }

  lemma {:induction false} Filled(a0: seq<byte>, a1: seq<byte>, a2: seq<byte>, lines: nat, stream: seq<byte>, part: seq<byte>, flushed: bool)
    requires Holding(a0, lines, stream, flushed) && Col(|stream|) + |part| == 62
    requires |a0| == |a2| == 64 * lines
    requires var s := Slot(LineNo(|stream|), lines);
      && 0 <= s < lines && a1 == Patch(a0, 64 * s + 2 + Col(|stream|), part)
      && (forall i :: 0 <= i < |a1| && (i < 64 * s || 64 * s + 2 <= i) ==> a2[i] == a1[i])
      && Checked(a2, s, Flip(LineNo(|stream|), lines))
    ensures Holding(a2, lines, stream + part, true)
  {
    var s := Slot(LineNo(|stream|), lines);
    var next := 64 * s + 2 + Col(|stream|);
    PatchHere(a0, next, part, 64 * s + 2);
    FilledFrame(a0, a1, a2, lines, s, next, part);
    hide Holding, Checked, OnlySlot, Patch;
    Completed(a0, a2, lines, stream, part, flushed, true);
  }

  lemma {:induction false} LineOnly(a0: seq<byte>, a1: seq<byte>, a2: seq<byte>, lines: nat, s: int, next: int, part: seq<byte>)
    requires |a0| == |a2| == 64 * lines && 0 <= s < lines && 64 * s + 2 <= next && next + |part| <= 64 * s + 64 && a1 == Patch(a0, next, part)
    requires forall i :: 0 <= i < |a1| && (i < 64 * s || 64 * s + 2 <= i) ==> a2[i] == a1[i]
    ensures forall i :: 0 <= i < |a0| && (i < 64 * s || 64 * s + 64 <= i) ==> a2[i] == a0[i]
  {
  }

  lemma {:induction false} FilledFrame(a0: seq<byte>, a1: seq<byte>, a2: seq<byte>, lines: nat, s: int, next: int, part: seq<byte>)
    requires |a0| == |a2| == 64 * lines && 0 <= s < lines && 64 * s + 2 <= next && next + |part| <= 64 * s + 64 && a1 == Patch(a0, next, part)
    requires forall i :: 0 <= i < |a1| && (i < 64 * s || 64 * s + 2 <= i) ==> a2[i] == a1[i]
    ensures OnlySlot(a0, a2, lines, s) && a2[64 * s + 2..next + |part|] == a1[64 * s + 2..next + |part|]
  {
    SlotOnly(a0, a2, lines, s);
  }
}
