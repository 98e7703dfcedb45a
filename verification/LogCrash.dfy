/**
 * What can be read back from the log after a crash. Every line but the unfinished one has been written back and fenced since its last
 * store. The unfinished line may show any bytes beyond those that were durable, under a header that is as old as the last flush.
 */
module LogCrash {
  import opened Types
  import opened Bytes
  import opened LogArea
  import opened LogCodec
  import opened LogUndo
  import opened MiniTransaction

  // ---------------------------------------------------------------- readLog on any contents

  predicate FwdPos(pos: LogPos, lines: nat) {
    64 <= pos.nextline <= 64 * lines && pos.nextline % 64 == 0 && pos.nextline - 62 <= pos.next < pos.nextline
  }

  lemma {:induction false} StepPos(pos: LogPos, lines: nat, l: nat)
    requires FwdPos(pos, lines) && 0 < l <= pos.nextline - pos.next
    ensures FwdPos(StepTo(pos, lines, l, 0), lines) && 0 <= pos.next && pos.nextline <= 64 * lines && 0 <= pos.nextline / 64 - 1 < lines
  {
  }

  /** What `readLog` reads on any buffer contents: it stops at a line that fails its check. */
  function ReadsFwd(a: seq<byte>, lines: nat, pos: LogPos, len: nat): (bs: seq<byte>)
    requires |a| == 64 * lines && FwdPos(pos, lines)
    ensures |bs| <= len
    decreases len
  {
    if len == 0 || !Checked(a, pos.nextline / 64 - 1, pos.version) then []
    else
      var l := Min(len, pos.nextline - pos.next);
      StepPos(pos, lines, l);
      a[pos.next..pos.next + l] + ReadsFwd(a, lines, StepTo(pos, lines, l, 0), len - l)
  }

  lemma {:induction false} PosOf(pos: LogPos, lines: nat, t: nat)
    requires lines > 0 && AtFwd(pos, lines, t)
    ensures FwdPos(pos, lines) && pos.nextline - pos.next == 62 - Col(t) && pos.next == 64 * Slot(LineNo(t), lines) + 2 + Col(t) && pos.nextline / 64 - 1 == Slot(LineNo(t), lines) && pos.version == Flip(LineNo(t), lines)
  {
    SlotRange(LineNo(t), lines);
    hide Slot, Flip, LineNo;
  }

  // ---------------------------------------------------------------- the image

  /** A crash image of the buffer: `durable` bytes of the stream are in it, those of the unfinished line at the start of that line. */
  ghost predicate CrashArea(a: seq<byte>, lines: nat, stream: seq<byte>, durable: nat) {
    && lines > 0 && |a| == 64 * lines && LineStart(|stream|) <= durable <= |stream|
    && var k := LineNo(|stream|);
      var s := Slot(k, lines);
      && 0 <= s < lines && (forall j: nat :: k - lines < j < k ==> LineHeld(a, lines, stream, j))
      && a[64 * s + 2..64 * s + 2 + (durable - 62 * k)] == stream[62 * k..durable]
  }

  /** What a crash can leave of the buffer: the current line as it was after some store since it was last written back, all else as it is. */
  ghost predicate LogImage(img: seq<byte>, a: seq<byte>, lines: nat, stream: seq<byte>, window: seq<seq<byte>>) {
    lines > 0 && OnlySlot(a, img, lines, Slot(LineNo(|stream|), lines)) && CurrentLine(img, lines, |stream|) in window
  }

  lemma {:induction false} ImageIs(img: seq<byte>, a: seq<byte>, lines: nat, stream: seq<byte>, durable: nat, window: seq<seq<byte>>)
    requires LinesHeld(a, lines, stream) && Windowed(a, lines, stream, durable, window) && LogImage(img, a, lines, stream, window)
    ensures CrashArea(img, lines, stream, durable)
  {
    hide LineHeld, Slot, LineNo, LinesHeld, LogImage, CurrentLine, Windowed;
    WindowLast(a, lines, stream, durable, window);
    ImageLines(img, a, lines, stream, window);
    ImageLast(img, a, lines, stream, durable, window);
  }

  lemma {:induction false} ImageLines(img: seq<byte>, a: seq<byte>, lines: nat, stream: seq<byte>, window: seq<seq<byte>>)
    requires LinesHeld(a, lines, stream) && LogImage(img, a, lines, stream, window)
    ensures lines > 0 && |img| == 64 * lines && forall j: nat :: LineNo(|stream|) - lines < j < LineNo(|stream|) ==> LineHeld(img, lines, stream, j)
  {
    var k := LineNo(|stream|);
    hide LineHeld, Slot, LineNo, OnlySlot;
    assert OnlySlot(a, img, lines, Slot(k, lines));
    assert |img| == 64 * lines by { SameSize(a, img, lines, Slot(k, lines)); }
    assert stream + [] == stream;
    forall j: nat | k - lines < j < k ensures LineHeld(img, lines, stream, j) {
      SlotApart(j, k, lines);
      HeldElse(a, img, lines, stream, [], Slot(k, lines), j);
    }
  }

  lemma {:induction false} SameSize(a: seq<byte>, img: seq<byte>, lines: nat, s: int)
    requires OnlySlot(a, img, lines, s)
    ensures |a| == |img| == 64 * lines && 0 <= s < lines
  {
  }

  lemma {:induction false} ImageLast(img: seq<byte>, a: seq<byte>, lines: nat, stream: seq<byte>, durable: nat, window: seq<seq<byte>>)
    requires Windowed(a, lines, stream, durable, window) && LogImage(img, a, lines, stream, window)
    ensures var s, n := Slot(LineNo(|stream|), lines), durable - LineStart(|stream|);
      0 <= s < lines && |img| == 64 * lines && 0 <= n <= 62 && img[64 * s + 2..64 * s + 2 + n] == stream[LineStart(|stream|)..durable]
  {
    hide Slot, LineNo, OnlySlot, Windowed, LineStart, Shows, Col, Passes, Flip;
    WindowLast(a, lines, stream, durable, window);
    LineAndCol(|stream|);
    SameSize(a, img, lines, Slot(LineNo(|stream|), lines));
    var i :| 0 <= i < |window| && window[i] == CurrentLine(img, lines, |stream|);
    WindowShows(a, lines, stream, durable, window, i);
    LineSlice(img, Slot(LineNo(|stream|), lines), stream[LineStart(|stream|)..durable]);
  }

  lemma {:induction false} WindowShows(a: seq<byte>, lines: nat, stream: seq<byte>, durable: nat, window: seq<seq<byte>>, i: nat)
    requires Windowed(a, lines, stream, durable, window) && i < |window|
    ensures LineStart(|stream|) <= durable <= |stream| && Shows(window[i], stream[LineStart(|stream|)..durable])
  {
  }

  lemma {:induction false} LineSlice(a: seq<byte>, s: int, bs: seq<byte>)
    requires 0 <= s && 64 * s + 64 <= |a| && Shows(LineAt(a, s), bs)
    ensures |bs| <= 62 && a[64 * s + 2..64 * s + 2 + |bs|] == bs
  {
    SubSlice(a, 64 * s, 64 * s + 64, 2, |bs|);
  }

  /** The buffer with another current line. */
  function WithLine(a: seq<byte>, s: int, l: seq<byte>): seq<byte>
    requires 0 <= s && 64 * s + 64 <= |a| && |l| == 64
  {
    a[..64 * s] + l + a[64 * s + 64..]
  }

  /** Every state of the window can be left. */
  lemma {:induction false} ImageFor(a: seq<byte>, lines: nat, stream: seq<byte>, durable: nat, window: seq<seq<byte>>, i: nat) returns (img: seq<byte>)
    requires Windowed(a, lines, stream, durable, window) && i < |window|
    ensures LogImage(img, a, lines, stream, window) && |img| == 64 * lines && CurrentLine(img, lines, |stream|) == window[i]
  {
    var s := Slot(LineNo(|stream|), lines);
    SlotRange(LineNo(|stream|), lines);
    assert Shows(window[i], stream[LineStart(|stream|)..durable]);
    img := WithLine(a, s, window[i]);
    assert LineAt(img, s) == window[i];
    SlotOnly(a, img, lines, s);
  }

  // ---------------------------------------------------------------- reading it

  /** The bytes of one line that are durable and whose line passes its check. */
  lemma {:induction false} LineRead(a: seq<byte>, lines: nat, stream: seq<byte>, durable: nat, t: nat, l: nat)
    requires CrashArea(a, lines, stream, durable) && t + l <= durable && Col(t) + l <= 62 && l > 0 && LineNo(|stream|) - lines < LineNo(t)
    ensures var s := Slot(LineNo(t), lines); 0 <= s < lines && a[64 * s + 2 + Col(t)..64 * s + 2 + Col(t) + l] == stream[t..t + l]
    ensures LineNo(t) < LineNo(|stream|) ==> Checked(a, Slot(LineNo(t), lines), Flip(LineNo(t), lines))
  {
    hide LineHeld, Checked, Slot, Flip, LineNo, Col, CrashArea;
    LineAndCol(t);
    AreaBounds(a, lines, stream, durable);
    LinesUp(t, |stream|);
    if LineNo(t) < LineNo(|stream|) { FullRead(a, lines, stream, durable, t, l); } else { UnfinishedRead(a, lines, stream, durable, t, l); }
  }

  lemma {:induction false} FullRead(a: seq<byte>, lines: nat, stream: seq<byte>, durable: nat, t: nat, l: nat)
    requires CrashArea(a, lines, stream, durable) && Col(t) + l <= 62 && LineNo(|stream|) - lines < LineNo(t) < LineNo(|stream|) && t + l <= |stream|
    ensures lines > 0
    ensures var s := Slot(LineNo(t), lines);
      0 <= s < lines && |a| == 64 * lines && a[64 * s + 2 + Col(t)..64 * s + 2 + Col(t) + l] == stream[t..t + l] && Checked(a, s, Flip(LineNo(t), lines))
  {
    hide LineHeld, Checked, Slot, Flip, LineNo, Col, CrashArea;
    LineAndCol(t);
    CrashLines(a, lines, stream, durable, LineNo(t));
    ChunkFull(a, lines, stream, LineNo(t), Col(t), l);
  }

  lemma {:induction false} UnfinishedRead(a: seq<byte>, lines: nat, stream: seq<byte>, durable: nat, t: nat, l: nat)
    requires CrashArea(a, lines, stream, durable) && t + l <= durable && LineNo(t) == LineNo(|stream|) && lines > 0
    ensures var s := Slot(LineNo(t), lines);
      0 <= s < lines && |a| == 64 * lines && 64 * s + 2 + Col(t) + l <= |a| && durable <= |stream| && a[64 * s + 2 + Col(t)..64 * s + 2 + Col(t) + l] == stream[t..t + l]
  {
    hide LineHeld, Checked, Slot, Flip, LineNo, Col, CrashArea;
    LineAndCol(t);
    CrashLines(a, lines, stream, durable, LineNo(t));
    LastRead(a, stream, Slot(LineNo(t), lines), 62 * LineNo(t), durable, Col(t), l);
  }

  lemma {:induction false} CrashLines(a: seq<byte>, lines: nat, stream: seq<byte>, durable: nat, k: nat)
    requires CrashArea(a, lines, stream, durable) && LineNo(|stream|) - lines < k <= LineNo(|stream|)
    ensures lines > 0 && |a| == 64 * lines && durable <= |stream| && (k < LineNo(|stream|) ==> LineHeld(a, lines, stream, k))
    ensures var s := Slot(k, lines); k == LineNo(|stream|) ==>
      0 <= s < lines && 62 * k <= durable && 64 * s + 2 + (durable - 62 * k) <= |a| && a[64 * s + 2..64 * s + 2 + (durable - 62 * k)] == stream[62 * k..durable]
  {
    hide LineHeld, Slot, Flip, Checked;
  }

  lemma {:induction false} LastRead(a: seq<byte>, stream: seq<byte>, s: nat, b: nat, durable: nat, i: nat, l: nat)
    requires b + i + l <= durable <= |stream| && 64 * s + 2 + (durable - b) <= |a| && a[64 * s + 2..64 * s + 2 + (durable - b)] == stream[b..durable]
    ensures a[64 * s + 2 + i..64 * s + 2 + i + l] == stream[b + i..b + i + l]
  {
    SubSlice(a, 64 * s + 2, 64 * s + 2 + (durable - b), i, l);
    SubSlice(stream, b, durable, i, l);
  }

  lemma {:induction false} OneRound(a: seq<byte>, lines: nat, pos: LogPos, len: nat)
    requires |a| == 64 * lines && FwdPos(pos, lines) && len > 0 && Checked(a, pos.nextline / 64 - 1, pos.version)
    requires FwdPos(StepTo(pos, lines, Min(len, pos.nextline - pos.next), 0), lines)
    ensures var l := Min(len, pos.nextline - pos.next);
      0 < l <= len && ReadsFwd(a, lines, pos, len) == a[pos.next..pos.next + l] + ReadsFwd(a, lines, StepTo(pos, lines, l, 0), len - l)
  {
  }

  lemma {:induction false} Joined(stream: seq<byte>, t: nat, l: nat, len: nat)
    requires l <= len && t + len <= |stream|
    ensures stream[t..t + l] + stream[t + l..t + len] == stream[t..t + len]
  {
  }

  /** One round of `readLog` over durable bytes. */
  lemma {:induction false} OneRead(a: seq<byte>, lines: nat, stream: seq<byte>, durable: nat, t: nat, len: nat, pos: LogPos)
    requires CrashArea(a, lines, stream, durable) && AtFwd(pos, lines, t) && len > 0 && t + len <= durable && LineNo(|stream|) - lines < LineNo(t)
    requires LineNo(t) < LineNo(|stream|) || Checked(a, Slot(LineNo(|stream|), lines), Flip(LineNo(|stream|), lines))
    ensures FwdPos(pos, lines) && Checked(a, pos.nextline / 64 - 1, pos.version)
    ensures var l := Min(len, pos.nextline - pos.next);
      && 0 < l == Min(len, 62 - Col(t)) && a[pos.next..pos.next + l] == stream[t..t + l]
      && AtFwd(StepTo(pos, lines, l, 0), lines, t + l) && LineNo(|stream|) - lines < LineNo(t + l)
  {
    hide CrashArea, LineNo, Slot, Flip, Checked, AtFwd, Col;
    AreaBounds(a, lines, stream, durable);
    PosOf(pos, lines, t);
    LineAndCol(t);
    var l := Min(len, 62 - Col(t));
    LineRead(a, lines, stream, durable, t, l);
    LinesUp(t, |stream|);
    StepFwd(pos, lines, t, l, StepTo(pos, lines, l, 0));
  }

  /** Reading forward over durable bytes gives them, unless it meets the unfinished line and that fails its check. */
  lemma {:induction false} ReadsAll(a: seq<byte>, lines: nat, stream: seq<byte>, durable: nat, t: nat, len: nat, pos: LogPos)
    requires CrashArea(a, lines, stream, durable) && AtFwd(pos, lines, t) && t + len <= durable && LineNo(|stream|) - lines < LineNo(t)
    requires t + len <= LineStart(|stream|) || Checked(a, Slot(LineNo(|stream|), lines), Flip(LineNo(|stream|), lines))
    ensures FwdPos(pos, lines) && ReadsFwd(a, lines, pos, len) == stream[t..t + len]
    decreases len
  {
    hide CrashArea, LineNo, Slot, Flip, Checked, AtFwd, Col, LineStart, FwdPos, StepTo, ReadsFwd;
    AreaBounds(a, lines, stream, durable);
    PosOf(pos, lines, t);
    if len == 0 {
      NoRound(a, lines, pos, len);
    } else {
      LineWithin(t, len, |stream|);
      OneRead(a, lines, stream, durable, t, len, pos);
      var l := Min(len, pos.nextline - pos.next);
      ReadsAll(a, lines, stream, durable, t + l, len - l, StepTo(pos, lines, l, 0));
      OneRound(a, lines, pos, len);
      Joined(stream, t, l, len);
    }
  }

  lemma {:induction false} LineWithin(t: nat, len: nat, size: nat)
    requires len > 0 && t + len <= size
    ensures LineNo(t) <= LineNo(size) && (t + len <= LineStart(size) ==> LineNo(t) < LineNo(size))
  {
  }

  /** If the unfinished line fails, reading stops before it. */
  lemma {:induction false} ReadsLess(a: seq<byte>, lines: nat, stream: seq<byte>, durable: nat, t: nat, len: nat, pos: LogPos)
    requires CrashArea(a, lines, stream, durable) && AtFwd(pos, lines, t) && t + len <= durable && LineNo(|stream|) - lines < LineNo(t)
    requires len > 0 && LineStart(|stream|) < t + len && !Checked(a, Slot(LineNo(|stream|), lines), Flip(LineNo(|stream|), lines))
    ensures FwdPos(pos, lines) && |ReadsFwd(a, lines, pos, len)| < len
    decreases len
  {
    hide CrashArea, LineNo, Slot, Flip, Checked, AtFwd, Col, LineStart, FwdPos, StepTo, ReadsFwd;
    AreaBounds(a, lines, stream, durable);
    PosOf(pos, lines, t);
    if LineNo(t) < LineNo(|stream|) {
      LineShorter(t, len, |stream|);
      OneRead(a, lines, stream, durable, t, len, pos);
      var l := Min(len, pos.nextline - pos.next);
      ReadsLess(a, lines, stream, durable, t + l, len - l, StepTo(pos, lines, l, 0));
      OneRound(a, lines, pos, len);
    } else {
      LineAtEnd(t, len, |stream|);
      NoRound(a, lines, pos, len);
    }
  }

  lemma {:induction false} NoRound(a: seq<byte>, lines: nat, pos: LogPos, len: nat)
    requires |a| == 64 * lines && FwdPos(pos, lines) && (len == 0 || !Checked(a, pos.nextline / 64 - 1, pos.version))
    ensures ReadsFwd(a, lines, pos, len) == []
  {
  }

  lemma {:induction false} LineShorter(t: nat, len: nat, size: nat)
    requires LineNo(t) < LineNo(size) && LineStart(size) < t + len
    ensures 62 - Col(t) < len && len > 0
  {
  }

  lemma {:induction false} LineAtEnd(t: nat, len: nat, size: nat)
    requires LineNo(t) >= LineNo(size) && t + len <= size
    ensures LineNo(t) == LineNo(size) && (LineStart(size) < t + len ==> len > 0 || t > LineStart(size))
  {
  }

  /**
   * When flushed records survive a crash. From position `t`, `readLog` reads all durable bytes back from the image exactly if none of
   * them is in the unfinished line, or the image of that line passes its check.
   */
  lemma {:induction false} DurableRead(a: seq<byte>, lines: nat, stream: seq<byte>, durable: nat, t: nat, pos: LogPos)
    requires CrashArea(a, lines, stream, durable) && AtFwd(pos, lines, t) && t < durable && LineNo(|stream|) - lines < LineNo(t)
    ensures FwdPos(pos, lines)
    ensures ReadsFwd(a, lines, pos, durable - t) == stream[t..durable] <==>
      durable == LineStart(|stream|) || Checked(a, Slot(LineNo(|stream|), lines), Flip(LineNo(|stream|), lines))
  {
    hide LineNo, Slot, Flip, Checked, AtFwd, Col, CrashArea, ReadsFwd, FwdPos, LineStart;
    AreaBounds(a, lines, stream, durable);
    PosOf(pos, lines, t);
    if durable == LineStart(|stream|) || Checked(a, Slot(LineNo(|stream|), lines), Flip(LineNo(|stream|), lines)) {
      ReadsAll(a, lines, stream, durable, t, durable - t, pos);
    } else {
      ReadsLess(a, lines, stream, durable, t, durable - t, pos);
    }
  }

  lemma {:induction false} AreaBounds(a: seq<byte>, lines: nat, stream: seq<byte>, durable: nat)
    requires CrashArea(a, lines, stream, durable)
    ensures LineStart(|stream|) <= durable <= |stream| && lines > 0 && 0 <= Slot(LineNo(|stream|), lines) < lines && |a| == 64 * lines
  {
  }

  // ---------------------------------------------------------------- when what was flushed survives

  lemma {:induction false} PassesIf(img: seq<byte>, lines: nat, t: nat)
    requires lines > 0 && |img| == 64 * lines
    ensures 0 <= Slot(LineNo(t), lines) < lines
    ensures Checked(img, Slot(LineNo(t), lines), Flip(LineNo(t), lines)) <==> Passes(CurrentLine(img, lines, t), Flip(LineNo(t), lines))
  {
    SlotRange(LineNo(t), lines);
    hide Slot, Flip, LineNo;
  }

  /** One image: all durable bytes from `t` on are read back exactly if none is in the unfinished line, or its state has a right header. */
  lemma {:induction false} OneImage(a: seq<byte>, lines: nat, stream: seq<byte>, durable: nat, window: seq<seq<byte>>, img: seq<byte>, t: nat, pos: LogPos)
    requires LinesHeld(a, lines, stream) && Windowed(a, lines, stream, durable, window) && LogImage(img, a, lines, stream, window)
    requires AtFwd(pos, lines, t) && t < durable && LineNo(|stream|) - lines < LineNo(t)
    ensures FwdPos(pos, lines) && |img| == 64 * lines
    ensures ReadsFwd(img, lines, pos, durable - t) == stream[t..durable] <==>
      durable == LineStart(|stream|) || Passes(CurrentLine(img, lines, |stream|), Flip(LineNo(|stream|), lines))
  {
    hide LinesHeld, Checked, AtFwd, LogImage, ReadsFwd, Col, Slot, Flip, Passes, CurrentLine, CrashArea;
    ImageIs(img, a, lines, stream, durable, window);
    AreaBounds(img, lines, stream, durable);
    DurableRead(img, lines, stream, durable, t, pos);
    PassesIf(img, lines, |stream|);
  }

  lemma {:induction false} WindowAt(img: seq<byte>, a: seq<byte>, lines: nat, stream: seq<byte>, window: seq<seq<byte>>)
    requires LogImage(img, a, lines, stream, window)
    ensures lines > 0 && |img| == 64 * lines && exists i :: 0 <= i < |window| && window[i] == CurrentLine(img, lines, |stream|)
  {
  }

  /** From position `t`, `readLog` reads all durable bytes back from every image a crash can leave. */
  ghost predicate ReadsBack(a: seq<byte>, lines: nat, stream: seq<byte>, durable: nat, window: seq<seq<byte>>, t: nat, pos: LogPos) {
    && FwdPos(pos, lines) && t <= durable <= |stream|
    && forall img :: LogImage(img, a, lines, stream, window) ==> |img| == 64 * lines && ReadsFwd(img, lines, pos, durable - t) == stream[t..durable]
  }

  /**
   * When flushed records survive a crash. From position `t`, `readLog` reads all durable bytes back from every image a crash can leave
   * exactly if none of them is in the unfinished line, or that line has had a right header after every store since it was last written back.
   */
  lemma {:induction false} EveryImage(a: seq<byte>, lines: nat, stream: seq<byte>, durable: nat, window: seq<seq<byte>>, t: nat, pos: LogPos)
    requires LinesHeld(a, lines, stream) && Windowed(a, lines, stream, durable, window)
    requires AtFwd(pos, lines, t) && t < durable && LineNo(|stream|) - lines < LineNo(t)
    ensures lines > 0
    ensures ReadsBack(a, lines, stream, durable, window, t, pos) <==>
      durable == LineStart(|stream|) || forall i :: 0 <= i < |window| ==> Passes(window[i], Flip(LineNo(|stream|), lines))
  {
    hide LinesHeld, AtFwd, ReadsFwd, Col, Slot, Flip, LineNo, Passes, CurrentLine, LineStart, FwdPos, Windowed;
    WindowLast(a, lines, stream, durable, window);
    PosOf(pos, lines, t);
    var version := Flip(LineNo(|stream|), lines);
    if durable == LineStart(|stream|) || forall i :: 0 <= i < |window| ==> Passes(window[i], version) {
      forall img | LogImage(img, a, lines, stream, window) ensures |img| == 64 * lines && ReadsFwd(img, lines, pos, durable - t) == stream[t..durable] {
        WindowAt(img, a, lines, stream, window);
        OneImage(a, lines, stream, durable, window, img, t, pos);
      }
    } else {
      var i :| 0 <= i < |window| && !Passes(window[i], version);
      var img := ImageFor(a, lines, stream, durable, window, i);
      OneImage(a, lines, stream, durable, window, img, t, pos);
    }
  }

  /** After a flush every image gives everything back. */
  lemma {:induction false} FlushedReads(a: seq<byte>, lines: nat, stream: seq<byte>, window: seq<seq<byte>>, t: nat, pos: LogPos)
    requires LinesHeld(a, lines, stream) && Windowed(a, lines, stream, |stream|, window) && |window| == 1
    requires AtFwd(pos, lines, t) && t < |stream| && LineNo(|stream|) - lines < LineNo(t)
    ensures ReadsBack(a, lines, stream, |stream|, window, t, pos)
  {
    hide LinesHeld, AtFwd, ReadsFwd, Col, Slot, Flip, LineNo, CurrentLine, LineStart, FwdPos, Windowed, Passes, LogImage, ReadsBack;
    FirstPasses(a, lines, stream, |stream|, window);
    EveryImage(a, lines, stream, |stream|, window, t, pos);
  }

  lemma {:induction false} FirstPasses(a: seq<byte>, lines: nat, stream: seq<byte>, durable: nat, window: seq<seq<byte>>)
    requires Windowed(a, lines, stream, durable, window)
    ensures lines > 0 && |window| > 0 && |window[0]| == 64
    ensures durable == LineStart(|stream|) || Passes(window[0], Flip(LineNo(|stream|), lines))
  {
    assert Shows(window[0], stream[LineStart(|stream|)..durable]);
  }

  /** Bytes written after a flush leave the header alone, so the line passes exactly when they do not change its checksum. */
  lemma {:induction false} ExtendedPass(first: seq<byte>, window: seq<seq<byte>>, at: int, rec: seq<byte>, version: int, i: nat)
    requires Extended([first], window, at, rec) && at >= 2 && Passes(first, version) && i < |window|
    ensures |window[i]| == 64 && (Passes(window[i], version) <==> checkSum(window[i][1..]) == checkSum(first[1..]))
  {
    if i > 0 { assert window[i] == Patch(first, at, rec[..i]); }
  }

  /** The line keeps its checksum. */
  predicate SameSums(window: seq<seq<byte>>) {
    forall i :: 0 <= i < |window| ==> |window[i]| == 64 && |window[0]| == 64 && checkSum(window[i][1..]) == checkSum(window[0][1..])
  }

  /**
   * A record is flushed, and another one goes to the same line without a flush. A crash then can lose the first one, and every earlier
   * record in the line, exactly if the second one, or a part of it, has another checksum than none of it.
   */
  method FlushThenWrite(log: LogBuffer, r1: seq<byte>, r2: seq<byte>, ghost t: nat, ghost pos: LogPos)
    requires log.Valid() && r1 != [] && r2 != [] && Col(|log.stream|) + |r1| + |r2| < 62
    requires AtFwd(pos, log.lines, t) && t < |log.stream| + |r1| && LineNo(|log.stream|) - log.lines < LineNo(t)
    modifies log, log.area
    ensures log.Valid() && log.stream == old(log.stream) + r1 + r2 && log.durable == |old(log.stream)| + |r1|
    ensures Extended([log.window[0]], log.window, 2 + Col(log.durable), r2)
    ensures ReadsBack(log.area[..], log.lines, log.stream, log.durable, log.window, t, pos) <==> SameSums(log.window)
  {
    hide ReadsBack, SameSums, LogBuffer.Valid, AtFwd, LogImage, ReadsFwd, Slot, Flip, LineNo, Col, LineStart, Extended, Passes, Flushing, FwdPos, LinesHeld, Windowed;
    SameLineStill(|log.stream|, |r1|, |r2|);
    log.WriteLog(r1);
    log.FlushLog();
    ghost var first := log.window[0];
    Only(log.window);
    log.WriteLog(r2);
    Crashable(log);
    ExtendedImages(log.area[..], log.lines, log.stream, log.durable, log.window, first, r2, t, pos);
  }

  lemma {:induction false} ExtendedImages(a: seq<byte>, lines: nat, stream: seq<byte>, durable: nat, window: seq<seq<byte>>, first: seq<byte>, rec: seq<byte>,
                                          t: nat, pos: LogPos)
    requires LinesHeld(a, lines, stream) && Windowed(a, lines, stream, durable, window) && Extended([first], window, 2 + Col(durable), rec)
    requires AtFwd(pos, lines, t) && t < durable && LineNo(|stream|) - lines < LineNo(t) && LineStart(|stream|) < durable
    ensures |window| > 0 && window[0] == first
    ensures ReadsBack(a, lines, stream, durable, window, t, pos) <==> SameSums(window)
  {
    hide ReadsBack, LinesHeld, Windowed, AtFwd, LogImage, ReadsFwd, Slot, Flip, LineNo, Col, LineStart, Extended, Passes, FwdPos;
    EveryImage(a, lines, stream, durable, window, t, pos);
    FirstPasses(a, lines, stream, durable, window);
    ExtendedFirst(first, window, 2 + Col(durable), rec);
    LineAndCol(durable);
    var version := Flip(LineNo(|stream|), lines);
    forall i | 0 <= i < |window| ensures |window[i]| == 64 && (Passes(window[i], version) <==> checkSum(window[i][1..]) == checkSum(first[1..])) {
      ExtendedPass(first, window, 2 + Col(durable), rec, version, i);
    }
  }

  lemma {:induction false} Only(window: seq<seq<byte>>)
    requires |window| == 1
    ensures window == [window[0]]
  {
  }

  lemma {:induction false} ExtendedFirst(first: seq<byte>, window: seq<seq<byte>>, at: int, rec: seq<byte>)
    requires Extended([first], window, at, rec)
    ensures |window| > 0 && window[0] == first
  {
  }

  lemma {:induction false} Crashable(log: LogBuffer)
    requires log.Valid()
    ensures LinesHeld(log.area[..], log.lines, log.stream) && Windowed(log.area[..], log.lines, log.stream, log.durable, log.window)
    ensures log.flushed ==> |log.window| == 1
  {
  }

  lemma {:induction false} SameLineStill(t: nat, m: nat, n: nat)
    requires Col(t) + m + n < 62
    ensures Col(t + m) == Col(t) + m && LineNo(t + m) == LineNo(t) && Col(t + m + n) == Col(t) + m + n && LineNo(t + m + n) == LineNo(t)
    ensures m > 0 ==> LineStart(t + m + n) < t + m
  {
  }

  // ---------------------------------------------------------------- transactions

  /** What is durable of a transaction's records: the first `n` of them. */
  predicate DurableRecs(rs: seq<Rec>, t0: nat, durable: nat, n: nat) {
    n <= |rs| && t0 + |EncodeAll(rs[..n])| <= durable && (n < |rs| ==> durable < t0 + |EncodeAll(rs[..n + 1])|)
  }

  /**
   * A crash during a transaction, with log and data both as the crash left them. If the header of the unfinished line survived right,
   * `readLog` from the transaction's position gives its durable records, and undoing them restores every byte that is not a fresh write.
   */
  lemma {:induction false} CrashRecovers(a: seq<byte>, lines: nat, stream: seq<byte>, durable: nat, window: seq<seq<byte>>, img: seq<byte>, pos: LogPos,
                                         m: seq<byte>, t0: nat, base: seq<byte>, rs: seq<Rec>, done: nat, upto: nat, n: nat, mem: seq<byte>)
    requires LinesHeld(a, lines, stream) && Windowed(a, lines, stream, durable, window) && LogImage(img, a, lines, stream, window)
    requires durable == LineStart(|stream|) || Passes(CurrentLine(img, lines, |stream|), Flip(LineNo(|stream|), lines))
    requires AtFwd(pos, lines, t0) && LineNo(|stream|) - lines < LineNo(t0)
    requires TxOk(stream, durable, m, t0, base, rs, done) && upto <= |rs| && WriteAhead(rs, upto, t0, durable) && Mixture(base, rs, upto, mem)
    requires DurableRecs(rs, t0, durable, n)
    ensures FwdPos(pos, lines) && |img| == 64 * lines && ParseForward(ReadsFwd(img, lines, pos, |EncodeAll(rs[..n])|)) == Some(rs[..n])
    ensures forall a :: 0 <= a < |base| && NotFresh(rs, a) ==> UndoAll(mem, rs[..n])[a] == base[a]
  {
    hide LinesHeld, Windowed, LogImage, Passes, CurrentLine, Flip, Slot, LineNo, LineStart, AtFwd, FwdPos, TxOk, WriteAhead, Mixture, EncodeAll, ParseForward,
      ReadsFwd, CrashArea, Checked, UndoAll, NotFresh;
    ImageIs(img, a, lines, stream, durable, window);
    AreaBounds(img, lines, stream, durable);
    PassesIf(img, lines, |stream|);
    ReadsAll(img, lines, stream, durable, t0, |EncodeAll(rs[..n])|, pos);
    CrashUndo(stream, durable, m, t0, base, rs, done, upto, n, mem);
  }

  // ---------------------------------------------------------------- with the program's checksum

  const WORD: int := 0x1_0000_0000_0000_0000

  /** The eight words of a line, its first byte masked out, of which `line` is the rest. */
  function LineWord(line: seq<byte>, i: nat): nat
    requires |line| == 63 && i < 8
  {
    if i == 0 then 256 * UnLE(line[..7]) else UnLE(line[8 * i - 1..8 * i + 7])
  }

  /** `computeCheckSum`, of which the lowest seven bits are kept */
  function ComputeCheckSum(line: seq<byte>): byte7
    requires |line| == 63
  {
    var v := (LineWord(line, 0) + LineWord(line, 1) + LineWord(line, 2) + LineWord(line, 3)
              + LineWord(line, 4) + LineWord(line, 5) + LineWord(line, 6) + LineWord(line, 7)) % WORD;
    Folded(v)
  }

  function Folded(v: nat): byte7 {
    var v1 := (v + v / 0x1_0000_0000) % WORD;
    var v2 := (v1 + v1 / 0x1_0000) % WORD;
    ((v2 + v2 / 0x100) % WORD) % 128
  }

  /** The log is checked with the program's checksum. */
  ghost predicate ProgramSum() {
    forall line: seq<byte> :: |line| == 63 ==> checkSum(line) == ComputeCheckSum(line)
  }

  lemma {:induction false} UnLEZero(bs: seq<byte>)
    requires forall i :: 0 <= i < |bs| ==> bs[i] == 0
    ensures UnLE(bs) == 0
  {
    if bs != [] { UnLEZero(bs[1..]); }
  }

  lemma {:induction false} UnLEThree(bs: seq<byte>, a: int, b: int, c: int)
    requires |bs| == 7 && bs[0] == a && bs[1] == b && bs[2] == c && forall i :: 3 <= i < 7 ==> bs[i] == 0
    ensures UnLE(bs) == a + 256 * b + 65536 * c
  {
    UnLEZero(bs[3..]);
    UnLENext(bs);
    UnLENext(bs[1..]);
    UnLENext(bs[2..]);
    hide UnLE;
    assert bs[1..][1..] == bs[2..] && bs[2..][1..] == bs[3..];
  }

  lemma {:induction false} UnLENext(bs: seq<byte>)
    requires bs != []
    ensures UnLE(bs) == bs[0] + 256 * UnLE(bs[1..])
  {
  }

  lemma {:induction false} SmallWord(v: int)
    requires 0 <= v < WORD
    ensures v % WORD == v
  {
  }

  lemma {:induction false} Divided(q: int, n: int, r: int)
    requires n > 0 && 0 <= r < n
    ensures (q * n + r) / n == q && (q * n + r) % n == r
  {
    DivUnique(q * n + r, n, q, r);
  }

  lemma {:induction false} FoldedThree(a: int, b: int, c: int)
    requires 0 <= a < 256 && 0 <= b < 256 && 0 <= c < 256
    ensures Folded(256 * (a + 256 * b + 65536 * c)) == (a + b + c) % 128
  {
    var v := 256 * (a + 256 * b + 65536 * c);
    var v2 := v + (b + 256 * c);
    var v3 := v2 + (a + c + 256 * b + 65536 * c);
    Divided(0, 0x1_0000_0000, v);
    Divided(b + 256 * c, 0x1_0000, 256 * a);
    Divided(a + c + 256 * b + 65536 * c, 0x100, b);
    SmallWord(v);
    SmallWord(v2);
    SmallWord(v3);
    var k := 2 * a + 514 * b + 131586 * c;
    assert v3 == k * 128 + (a + b + c);
    assert v3 % 128 == (a + b + c) % 128 by { Divided(k + (a + b + c) / 128, 128, (a + b + c) % 128); }
  }

  /** The checksum of a line with nothing after its first four bytes. */
  lemma {:induction false} SumThree(line: seq<byte>, a: int, b: int, c: int)
    requires |line| == 63 && line[0] == a && line[1] == b && line[2] == c && forall i :: 3 <= i < 63 ==> line[i] == 0
    ensures ComputeCheckSum(line) == (a + b + c) % 128
  {
    hide UnLE, Folded;
    UnLEThree(line[..7], a, b, c);
    FoldedThree(a, b, c);
    forall i | 1 <= i < 8 ensures LineWord(line, i) == 0 { UnLEZero(line[8 * i - 1..8 * i + 7]); }
    SmallWord(256 * (a + 256 * b + 65536 * c));
  }

  /** The first line of a cleared buffer after one byte, flushed. */
  function FirstLine(x: byte): (l: seq<byte>)
    ensures |l| == 64
  {
    Flushing(seq(64, _ => 0)[2 := x], 3, 2, VERSION_BIT)[2]
  }

  lemma {:induction false} FirstLineIs(x: byte)
    ensures FirstLine(x)[1] == 2 && FirstLine(x)[2] == x && forall i :: 3 <= i < 64 ==> FirstLine(x)[i] == 0
  {
  }

  /** A second byte changes its checksum, unless it is 0 or 128. */
  lemma {:induction false} TwoSums(x: byte, y: byte)
    requires ProgramSum()
    ensures checkSum(FirstLine(x)[3 := y][1..]) == checkSum(FirstLine(x)[1..]) <==> y % 128 == 0
  {
    FirstLineIs(x);
    hide FirstLine, ComputeCheckSum;
    SumThree(FirstLine(x)[1..], 2, x, 0);
    SumThree(FirstLine(x)[3 := y][1..], 2, x, y);
    assert (2 + x + y) % 128 == (2 + x) % 128 <==> y % 128 == 0;
  }

  /**
   * One byte is written to a new log and flushed, and another one is written: if the power fails then, the flushed byte can no longer be
   * read, unless the second one is 0 or 128.
   */
  method LostByte(n: nat, x: byte, y: byte) returns (log: LogBuffer)
    requires n > 0 && ProgramSum()
    ensures fresh(log) && log.Valid() && log.stream == [x, y] && log.durable == 1 && log.area.Length == 64 * n
    ensures LogImage(log.area[..], log.area[..], n, log.stream, log.window)
    ensures ReadsFwd(log.area[..], n, LogPos(VERSION_BIT, 0, 64, 2), 1) == [x] <==> y % 128 == 0
  {
    hide LogBuffer.Valid, AtFwd, LogImage, ReadsFwd, Slot, Flip, LineNo, Col, LineStart, Extended, Passes, Flushing, FwdPos, LinesHeld, Windowed, CurrentLine,
      Patch, FirstLine, Filling;
    Start(n);
    log := new LogBuffer(n);
    Crashable(log);
    WindowLast(log.area[..], n, [], 0, log.window);
    ZeroLine(log.area[..], n);
    Only(log.window);
    log.WriteLog([x]);
    assert log.stream == [x];
    OneByteMore(seq(64, _ => 0), log.window, 2, x);
    log.FlushLog();
    FlushedFirst(x);
    Only(log.window);
    log.WriteLog([y]);
    assert log.stream == [x, y];
    OneByteMore(FirstLine(x), log.window, 3, y);
    Crashable(log);
    Itself(log.area[..], n, log.stream, 1, log.window);
    OneImage(log.area[..], n, log.stream, 1, log.window, log.area[..], 0, LogPos(VERSION_BIT, 0, 64, 2));
    FirstPasses(log.area[..], n, log.stream, 1, log.window);
    ExtendedPass(FirstLine(x), log.window, 3, [y], VERSION_BIT, 1);
    TwoSums(x, y);
    assert log.stream[0..1] == [x];
  }

  /** The numbers of the first line. */
  lemma {:induction false} Start(n: nat)
    requires n > 0
    ensures AtFwd(LogPos(VERSION_BIT, 0, 64, 2), n, 0) && LineNo(0) == LineNo(1) == LineNo(2) == 0 && Col(0) == 0 && Col(1) == 1 && Col(2) == 2
    ensures LineStart(2) == 0 && Flip(0, n) == VERSION_BIT && LineStart(1) == LineStart(0) == 0
  {
    SlotFirst(0, n);
  }

  lemma {:induction false} ZeroLine(a: seq<byte>, n: nat)
    requires n > 0 && a == seq(64 * n, _ => 0)
    ensures CurrentLine(a, n, 0) == seq(64, _ => 0)
  {
    SlotFirst(0, n);
  }

  lemma {:induction false} OneByteMore(line: seq<byte>, window: seq<seq<byte>>, at: int, x: byte)
    requires Extended([line], window, at, [x])
    ensures |line| == 64 && 0 <= at < 64 && window == [line, line[at := x]]
  {
    assert [x][..1] == [x];
    assert Patch(line, at, [x]) == line[at := x];
  }

  lemma {:induction false} FlushedFirst(x: byte)
    ensures Flushing(seq(64, _ => 0)[2 := x], 3, 2, VERSION_BIT)[2..] == [FirstLine(x)]
  {
  }

  /** The buffer as it is now is one of its images. */
  lemma {:induction false} Itself(a: seq<byte>, lines: nat, stream: seq<byte>, durable: nat, window: seq<seq<byte>>)
    requires Windowed(a, lines, stream, durable, window)
    ensures LogImage(a, a, lines, stream, window) && |a| == 64 * lines && CurrentLine(a, lines, |stream|) == window[|window| - 1]
  {
    SlotRange(LineNo(|stream|), lines);
  }
}
