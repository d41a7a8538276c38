/**
  Splitting an MJPEG byte stream into JPEG frames.  The splitter drops its buffer
  whenever it holds no start marker, so a start marker cut in two between frames is
  lost: apart from exactly that, frames do not depend on how the stream is chunked.
*/
module Mjpeg {
  import opened Octets

  const FF: byte := 0xff
  const D8: byte := 0xd8
  const D9: byte := 0xd9

  predicate MarkerAt(s: Bytes, i: nat, code: byte) {
    i + 1 < |s| && s[i] == FF && s[i + 1] == code
  }

  /** `buffer.indexOf(marker, from)`; the length where that is -1. */
  function IndexOfMarker(s: Bytes, from: nat, code: byte): (i: nat)
    ensures i < |s| ==> from <= i && MarkerAt(s, i, code)
    ensures i >= |s| ==> i == |s|
    ensures forall j :: from <= j < i ==> !MarkerAt(s, j, code)
    decreases |s| - from
  {
    if from >= |s| then |s|
    else if MarkerAt(s, from, code) then from
    else IndexOfMarker(s, from + 1, code)
  }

  datatype Result = Result(frames: seq<Bytes>, rest: Bytes)

  /** The first frame of a buffer, as far as it goes. */
  datatype Found = NoStart | NoEnd(start: nat) | Frame(start: nat, end: nat)

  function Find(buffer: Bytes): (f: Found)
    ensures f.NoEnd? ==> MarkerAt(buffer, f.start, D8)
    ensures f.Frame? ==> MarkerAt(buffer, f.start, D8) && f.start + 2 <= f.end && MarkerAt(buffer, f.end, D9)
  {
    var start := IndexOfMarker(buffer, 0, D8);
    if start == |buffer| then NoStart
    else
      var end := IndexOfMarker(buffer, start + 2, D9);
      if end == |buffer| then NoEnd(start) else Frame(start, end)
  }

  /** What the loop of `push` makes of a buffer. */
  function Extract(buffer: Bytes): Result
    decreases |buffer|
  {
    match Find(buffer)
    case NoStart => Result([], [])
    case NoEnd(start) => Result([], buffer[start..])
    case Frame(start, end) => Prefixed([buffer[start..end + 2]], Extract(buffer[end + 2..]))
  }

  function Prefixed(frames: seq<Bytes>, r: Result): Result { Result(frames + r.frames, r.rest) }

  lemma PrefixMore(all: Result, frames: seq<Bytes>, frame: Bytes, r: Result, r': Result)
    requires all == Prefixed(frames, r) && r == Prefixed([frame], r')
    ensures all == Prefixed(frames + [frame], r')
  {
    assert frames + ([frame] + r'.frames) == (frames + [frame]) + r'.frames;
  }

  class MjpegFrameSplitter {
    var buffer: Bytes

    constructor ()
      ensures buffer == []
    {
      buffer := [];
    }

    method Push(chunk: Bytes) returns (frames: seq<Bytes>)
      modifies this
      ensures Result(frames, buffer) == Extract(old(buffer) + chunk)
    {
      buffer := if |buffer| == 0 then chunk else buffer + chunk;
      assert buffer == old(buffer) + chunk;
      ghost var all := Extract(buffer);
      ghost var left := all;
      frames := [];
      var more := true;
      while more
        invariant all == Prefixed(frames, left)
        invariant left == if more then Extract(buffer) else Result([], buffer)
        decreases more, |buffer|
      {
        ghost var found := Find(buffer);
        var start := IndexOfMarker(buffer, 0, D8);
        if start == |buffer| {
          assert found == NoStart;
          buffer, more := [], false;
        } else {
          var end := IndexOfMarker(buffer, start + 2, D9);
          if end == |buffer| {
            assert found == NoEnd(start);
            buffer, more := buffer[start..], false;
          } else {
            assert found == Frame(start, end);
            ExtractFrame(buffer, start, end);
            var frame, rest := buffer[start..end + 2], buffer[end + 2..];
            PrefixMore(all, frames, frame, left, Extract(rest));
            left := Extract(rest);
            frames := frames + [frame];
            buffer := rest;
          }
        }
      }
      PrefixNone(frames, buffer);
    }
  }

  lemma ExtractFrame(buffer: Bytes, start: nat, end: nat)
    requires Find(buffer) == Frame(start, end)
    ensures Extract(buffer) == Prefixed([buffer[start..end + 2]], Extract(buffer[end + 2..]))
  {}

  lemma PrefixNone(frames: seq<Bytes>, rest: Bytes)
    ensures Prefixed(frames, Result([], rest)) == Result(frames, rest)
  {}

  // ------------------------------------------------------ one pass over the bytes

  /** Between frames, remembering whether the last byte was FF; or inside one, with its bytes so far. */
  datatype Mode = Outside(ff: bool) | Inside(acc: Bytes)
  datatype Scan = Scan(frames: seq<Bytes>, mode: Mode)

  const START: Scan := Scan([], Outside(false))

  function EndsFF(s: Bytes): bool { s != [] && s[|s| - 1] == FF }

  function Step(st: Scan, b: byte): Scan {
    match st.mode
    case Outside(ff) => st.(mode := if ff && b == D8 then Inside([FF, D8]) else Outside(b == FF))
    case Inside(acc) => if EndsFF(acc) && b == D9 then Scan(st.frames + [acc + [b]], Outside(false))
        else st.(mode := Inside(acc + [b]))
  }

  function RunFrom(st: Scan, s: Bytes): Scan {
    if s == [] then st else Step(RunFrom(st, s[..|s| - 1]), s[|s| - 1])
  }

  function ScanAll(s: Bytes): Scan { RunFrom(START, s) }

  /** What the splitter would hold on to. */
  function Retained(m: Mode): Bytes { if m.Inside? then m.acc else [] }

  lemma RunSnoc(st: Scan, s: Bytes, b: byte)
    ensures RunFrom(st, s + [b]) == Step(RunFrom(st, s), b)
  {
    assert (s + [b])[..|s|] == s;
  }

  lemma {:induction false} RunAppend(st: Scan, a: Bytes, b: Bytes)
    ensures RunFrom(st, a + b) == RunFrom(RunFrom(st, a), b)
  {
    if b == [] {
      assert a + b == a;
    } else {
      var init, last := b[..|b| - 1], b[|b| - 1];
      RunAppend(st, a, init);
      assert a + b == (a + init) + [last];
      RunSnoc(st, a + init, last);
    }
  }

  /** A run only adds frames. */
  lemma {:induction false} RunFrames(st: Scan, s: Bytes)
    ensures RunFrom(st, s) == Scan(st.frames + RunFrom(Scan([], st.mode), s).frames, RunFrom(Scan([], st.mode), s).mode)
  {
    if s != [] { RunFrames(st, s[..|s| - 1]); }
  }

  ghost predicate NoMarker(s: Bytes, from: nat, code: byte) {
    forall i: nat :: from <= i ==> !MarkerAt(s, i, code)
  }

  /** Without a start marker a scan stays outside. */
  lemma {:induction false} RunOutside(s: Bytes)
    requires NoMarker(s, 0, D8)
    ensures ScanAll(s) == Scan([], Outside(EndsFF(s)))
  {
    if s != [] {
      var init := s[..|s| - 1];
      forall i: nat ensures !MarkerAt(init, i, D8) { assert MarkerAt(init, i, D8) ==> MarkerAt(s, i, D8); }
      RunOutside(init);
      assert init != [] ==> !MarkerAt(s, |init| - 1, D8);
    }
  }

  /** A frame that has begun: start marker first, no end marker after it. */
  ghost predicate Begun(acc: Bytes) {
    |acc| >= 2 && acc[0] == FF && acc[1] == D8 && NoMarker(acc, 2, D9)
  }

  /** Without an end marker a scan stays inside. */
  lemma {:induction false} RunInside(st: Scan, s: Bytes)
    requires st.mode.Inside? && Begun(st.mode.acc) && Begun(st.mode.acc + s)
    ensures RunFrom(st, s) == st.(mode := Inside(st.mode.acc + s))
  {
    var acc := st.mode.acc;
    if s == [] {
      assert acc + s == acc;
    } else {
      var init, b := s[..|s| - 1], s[|s| - 1];
      BegunPrefix(acc + s, |acc + init|);
      assert (acc + s)[..|acc + init|] == acc + init;
      RunInside(st, init);
      assert acc + s == (acc + init) + [b];
      BegunEnds(acc + init, b);
    }
  }

  lemma BegunPrefix(acc: Bytes, n: nat)
    requires Begun(acc) && 2 <= n <= |acc|
    ensures Begun(acc[..n])
  {
    forall i: nat | 2 <= i ensures !MarkerAt(acc[..n], i, D9) {
      assert MarkerAt(acc[..n], i, D9) ==> MarkerAt(acc, i, D9);
    }
  }

  /** The one way a begun frame ends. */
  lemma BegunEnds(acc: Bytes, b: byte)
    requires Begun(acc)
    ensures Begun(acc + [b]) <==> !(EndsFF(acc) && b == D9)
  {
    var s, n := acc + [b], |acc|;
    forall i: nat | 2 <= i && i != n - 1 ensures !MarkerAt(s, i, D9) {
      assert MarkerAt(s, i, D9) ==> MarkerAt(acc, i, D9);
    }
    assert MarkerAt(s, n - 1, D9) <==> EndsFF(acc) && b == D9;
    assert EndsFF(acc) ==> n - 1 >= 2;
  }

  // ------------------------------------------------------- the loop is that scan

  lemma StartFound(s: Bytes, start: nat)
    requires MarkerAt(s, start, D8) && forall j :: 0 <= j < start ==> !MarkerAt(s, j, D8)
    ensures ScanAll(s[..start + 2]) == Scan([], Inside(s[start..start + 2]))
  {
    var gap := s[..start + 1];
    forall i: nat ensures !MarkerAt(gap, i, D8) { assert MarkerAt(gap, i, D8) ==> MarkerAt(s, i, D8); }
    RunOutside(gap);
    assert s[..start + 2] == gap + [D8];
    RunSnoc(START, gap, D8);
    assert s[start..start + 2] == [FF, D8];
  }

  /** From a start marker to position `n`, if no end marker is complete before it. */
  lemma StillInside(s: Bytes, start: nat, n: nat)
    requires MarkerAt(s, start, D8) && forall j :: 0 <= j < start ==> !MarkerAt(s, j, D8)
    requires start + 2 <= n <= |s| && forall j :: start + 2 <= j < n - 1 ==> !MarkerAt(s, j, D9)
    ensures Begun(s[start..n]) && ScanAll(s[..n]) == Scan([], Inside(s[start..n]))
  {
    var acc := s[start..n];
    forall i: nat | 2 <= i ensures !MarkerAt(acc, i, D9) { assert MarkerAt(acc, i, D9) ==> MarkerAt(s, start + i, D9); }
    StartFound(s, start);
    BegunPrefix(acc, 2);
    assert acc[..2] == s[start..start + 2];
    assert s[..n] == s[..start + 2] + s[start + 2..n];
    assert acc == s[start..start + 2] + s[start + 2..n];
    RunAppend(START, s[..start + 2], s[start + 2..n]);
    RunInside(ScanAll(s[..start + 2]), s[start + 2..n]);
  }

  /** A complete frame, then whatever follows. */
  lemma FrameFound(s: Bytes, start: nat, end: nat)
    requires MarkerAt(s, start, D8) && forall j :: 0 <= j < start ==> !MarkerAt(s, j, D8)
    requires start + 2 <= end && MarkerAt(s, end, D9) && forall j :: start + 2 <= j < end ==> !MarkerAt(s, j, D9)
    ensures var rest := ScanAll(s[end + 2..]);
      ScanAll(s) == Scan([s[start..end + 2]] + rest.frames, rest.mode)
  {
    FrameEnds(s, start, end);
    assert s == s[..end + 2] + s[end + 2..];
    RunAppend(START, s[..end + 2], s[end + 2..]);
    RunFrames(ScanAll(s[..end + 2]), s[end + 2..]);
  }

  lemma FrameEnds(s: Bytes, start: nat, end: nat)
    requires MarkerAt(s, start, D8) && forall j :: 0 <= j < start ==> !MarkerAt(s, j, D8)
    requires start + 2 <= end && MarkerAt(s, end, D9) && forall j :: start + 2 <= j < end ==> !MarkerAt(s, j, D9)
    ensures ScanAll(s[..end + 2]) == Scan([s[start..end + 2]], Outside(false))
  {
    StillInside(s, start, end + 1);
    RunSnoc(START, s[..end + 1], D9);
    assert s[..end + 2] == s[..end + 1] + [D9];
    assert s[start..end + 2] == s[start..end + 1] + [D9];
  }

  /** The splitter's loop finds what one pass over the bytes finds; it keeps nothing, or a frame that has begun. */
  lemma {:induction false} ExtractIsScan(s: Bytes)
    ensures Extract(s) == Result(ScanAll(s).frames, Retained(ScanAll(s).mode))
    ensures ScanAll(s).mode.Inside? ==> Begun(ScanAll(s).mode.acc)
    decreases |s|
  {
    match Find(s)
    case NoStart =>
      RunOutside(s);
    case NoEnd(start) =>
      StillInside(s, start, |s|);
      assert s[..|s|] == s;
    case Frame(start, end) =>
      FrameFound(s, start, end);
      ExtractIsScan(s[end + 2..]);
  }

  // ---------------------------------------------------------------- any chunking

  function Concat(chunks: seq<Bytes>): Bytes {
    if chunks == [] then [] else Concat(chunks[..|chunks| - 1]) + chunks[|chunks| - 1]
  }

  /** All frames and the buffer after some pushes. */
  ghost function Pushed(chunks: seq<Bytes>): Result {
    if chunks == [] then Result([], [])
    else
      var before := Pushed(chunks[..|chunks| - 1]);
      Prefixed(before.frames, Extract(before.rest + chunks[|chunks| - 1]))
  }

  /** The end of a push forgets an FF between frames. */
  function Dropped(st: Scan): Scan { if st.mode.Outside? then st.(mode := Outside(false)) else st }

  /** The same as a scan that forgets at each cut. */
  ghost function ScanChunks(chunks: seq<Bytes>): Scan {
    if chunks == [] then START else Dropped(RunFrom(ScanChunks(chunks[..|chunks| - 1]), chunks[|chunks| - 1]))
  }

  lemma RetainedResumes(m: Mode, s: Bytes)
    requires m.Inside? ==> Begun(m.acc)
    requires m.Outside? ==> !m.ff
    ensures RunFrom(Scan([], m), s) == ScanAll(Retained(m) + s)
  {
    if m.Outside? {
      assert [] + s == s;
    } else {
      var acc := m.acc;
      assert !MarkerAt(acc, 2, D9);
      BegunPrefix(acc, 2);
      StillInside(acc, 0, |acc|);
      assert acc[..|acc|] == acc && acc[0..|acc|] == acc;
      RunAppend(START, acc, s);
    }
  }

  lemma {:induction false} PushedIsScan(chunks: seq<Bytes>)
    ensures Pushed(chunks) == Result(ScanChunks(chunks).frames, Retained(ScanChunks(chunks).mode))
    ensures ScanChunks(chunks).mode.Inside? ==> Begun(ScanChunks(chunks).mode.acc)
    ensures ScanChunks(chunks).mode.Outside? ==> !ScanChunks(chunks).mode.ff
  {
    if chunks != [] {
      var init, last := chunks[..|chunks| - 1], chunks[|chunks| - 1];
      PushedIsScan(init);
      var before := ScanChunks(init);
      RetainedResumes(before.mode, last);
      RunFrames(before, last);
      ExtractIsScan(Retained(before.mode) + last);
    }
  }

  /** The cut before chunk `k` separates FF from D8 of a start marker between frames. */
  ghost predicate LossyCut(chunks: seq<Bytes>, k: nat) {
    && k < |chunks| && chunks[k] != [] && chunks[k][0] == D8
    && ScanAll(Concat(chunks[..k])).mode == Outside(true)
  }

  function Size(frames: seq<Bytes>): nat {
    if frames == [] then 0 else Size(frames[..|frames| - 1]) + |frames[|frames| - 1]|
  }

  /** Bytes in frames, and in the frame that has begun. */
  function Kept(st: Scan): nat { Size(st.frames) + |Retained(st.mode)| }

  /** One pass `w`, cut scan `c`: the same but for a forgotten FF. */
  predicate InStep(w: Scan, c: Scan) {
    c == w || (w.mode == Outside(true) && c == w.(mode := Outside(false)))
  }

  /** The cut scan has missed a start marker, and can never make up for its two bytes. */
  predicate Fallen(w: Scan, c: Scan) {
    && (c.mode.Inside? ==> w.mode.Inside? && EndsFF(c.mode.acc) == EndsFF(w.mode.acc))
    && (c.mode == Outside(true) ==> w.mode == Outside(true) || (w.mode.Inside? && EndsFF(w.mode.acc)))
    && Kept(c) + 2 + (if w.mode.Inside? && c.mode == Outside(true) then 1 else 0) <= Kept(w)
  }

  lemma SizeSnoc(frames: seq<Bytes>, f: Bytes)
    ensures Size(frames + [f]) == Size(frames) + |f|
  {
    assert (frames + [f])[..|frames|] == frames;
  }

  lemma StepSize(st: Scan, b: byte)
    ensures Kept(Step(st, b)) == Kept(st) + (if st.mode.Inside? then 1 else if st.mode.ff && b == D8 then 2 else 0)
  {
    if st.mode.Inside? { SizeSnoc(st.frames, st.mode.acc + [b]); }
  }

  lemma FallenStep(w: Scan, c: Scan, b: byte)
    requires Fallen(w, c)
    ensures Fallen(Step(w, b), Step(c, b))
  {
    StepSize(w, b);
    StepSize(c, b);
  }

  lemma InStepStep(w: Scan, c: Scan, b: byte)
    requires InStep(w, c)
    ensures if c != w && b == D8 then Fallen(Step(w, b), Step(c, b)) else Step(w, b) == Step(c, b)
  {
    StepSize(w, b);
    StepSize(c, b);
  }

  lemma {:induction false} FallenRun(w: Scan, c: Scan, s: Bytes)
    requires Fallen(w, c)
    ensures Fallen(RunFrom(w, s), RunFrom(c, s))
  {
    if s != [] {
      FallenRun(w, c, s[..|s| - 1]);
      FallenStep(RunFrom(w, s[..|s| - 1]), RunFrom(c, s[..|s| - 1]), s[|s| - 1]);
    }
  }

  lemma RunCons(st: Scan, s: Bytes)
    requires s != []
    ensures RunFrom(st, s) == RunFrom(Step(st, s[0]), s[1..])
  {
    assert s == [s[0]] + s[1..];
    RunAppend(st, [s[0]], s[1..]);
    assert [s[0]][..0] == [];
  }

  /** Up to the end of the chunks the cut scan is in step, unless some cut was lossy. */
  lemma {:induction false} InStepOrFallen(chunks: seq<Bytes>)
    ensures var w, c := ScanAll(Concat(chunks)), ScanChunks(chunks);
      if exists k: nat :: LossyCut(chunks, k) then Fallen(w, c) else InStep(w, c)
  {
    if chunks != [] {
      var n := |chunks| - 1;
      var init, last := chunks[..n], chunks[n];
      assert chunks[..n] == init;
      InStepOrFallen(init);
      CutsOfPrefix(chunks);
      var w, c := ScanAll(Concat(init)), ScanChunks(init);
      RunAppend(START, Concat(init), last);
      PushedIsScan(init);
      if exists k: nat :: LossyCut(init, k) {
        var k: nat :| LossyCut(init, k);
        assert LossyCut(chunks, k);
        FallenRun(w, c, last);
      } else {
        ChunkInStep(w, c, last);
        assert LossyCut(chunks, n) <==> last != [] && last[0] == D8 && w.mode == Outside(true);
      }
    }
  }

  /** One chunk: what matters is its first byte. */
  lemma ChunkInStep(w: Scan, c: Scan, s: Bytes)
    requires InStep(w, c) && c.mode != Outside(true)
    ensures var w', c' := RunFrom(w, s), Dropped(RunFrom(c, s));
      if s != [] && s[0] == D8 && w.mode == Outside(true) then Fallen(w', c') else InStep(w', c')
  {
    if s != [] {
      InStepStep(w, c, s[0]);
      RunCons(w, s);
      RunCons(c, s);
      if s[0] == D8 && w.mode == Outside(true) { FallenRun(Step(w, s[0]), Step(c, s[0]), s[1..]); }
    }
  }

  lemma CutsOfPrefix(chunks: seq<Bytes>)
    requires chunks != []
    ensures forall k: nat :: LossyCut(chunks, k) <==>
        LossyCut(chunks[..|chunks| - 1], k) || (k == |chunks| - 1 && LossyCut(chunks, k))
  {
    var init := chunks[..|chunks| - 1];
    forall k: nat ensures LossyCut(chunks, k) <==> LossyCut(init, k) || (k == |chunks| - 1 && LossyCut(chunks, k)) {
      if k < |init| { assert init[..k] == chunks[..k]; }
    }
  }

  /**
    Chunking does not matter exactly when no cut is lossy: then, and only then, the
    frames and the buffer after any sequence of pushes are those of one pass over the
    whole stream.
  */
  lemma ChunkIndependent(chunks: seq<Bytes>)
    ensures var w := ScanAll(Concat(chunks));
      Pushed(chunks) == Result(w.frames, Retained(w.mode)) <==> !exists k: nat :: LossyCut(chunks, k)
  {
    InStepOrFallen(chunks);
    PushedIsScan(chunks);
    var w, c := ScanAll(Concat(chunks)), ScanChunks(chunks);
    if exists k: nat :: LossyCut(chunks, k) {
      assert Kept(c) < Kept(w);
    }
  }

  /** A cut inside the start marker of the first frame: one frame in one pass, none in two pushes. */
  lemma CutLosesFrame()
    ensures var chunks := [[FF], [D8, FF, D9]];
      && LossyCut(chunks, 1) && Pushed(chunks) == Result([], [])
      && ScanAll(Concat(chunks)) == Scan([[FF, D8, FF, D9]], Outside(false))
  {
    var chunks := [[FF], [D8, FF, D9]];
    assert chunks[..1] == [[FF]] && Concat([[FF]]) == [FF];
    assert Concat(chunks) == [FF] + [D8] + [FF] + [D9];
    CutScan();
    CutPushes();
  }

  lemma CutScan()
    ensures ScanAll([FF]).mode == Outside(true)
    ensures ScanAll([FF] + [D8] + [FF] + [D9]) == Scan([[FF, D8, FF, D9]], Outside(false))
  {
    RunSnoc(START, [], FF);
    assert [] + [FF] == [FF];
    RunSnoc(START, [FF], D8);
    RunSnoc(START, [FF] + [D8], FF);
    RunSnoc(START, [FF] + [D8] + [FF], D9);
    assert [FF, D8] + [FF] + [D9] == [FF, D8, FF, D9];
    assert ScanAll([FF] + [D8] + [FF]) == Scan([], Inside([FF, D8] + [FF]));
  }

  lemma CutPushes()
    ensures Pushed([[FF], [D8, FF, D9]]) == Result([], [])
  {
    var chunks := [[FF], [D8, FF, D9]];
    assert chunks[..1] == [[FF]];
    assert Find([FF]) == NoStart && Find([D8, FF, D9]) == NoStart;
    assert Pushed([[FF]]) == Result([], []);
  }

  // -------------------------------------------------------------- what frames are

  /** Start marker, no end marker inside, end marker. */
  ghost predicate IsFrame(f: Bytes) {
    |f| >= 4 && Begun(f[..|f| - 1]) && f[|f| - 2] == FF && f[|f| - 1] == D9
  }

  /** The stream laid out: before each frame a stretch without a start marker. */
  function Interleave(gaps: seq<Bytes>, frames: seq<Bytes>): Bytes
    requires |gaps| == |frames|
  {
    if gaps == [] then []
    else Interleave(gaps[..|gaps| - 1], frames[..|gaps| - 1]) + gaps[|gaps| - 1] + frames[|gaps| - 1]
  }

  /** Stretches without a start marker, and frames. */
  ghost predicate Tiles(gaps: seq<Bytes>, frames: seq<Bytes>) {
    |gaps| == |frames| && forall i :: 0 <= i < |gaps| ==> NoMarker(gaps[i], 0, D8) && IsFrame(frames[i])
  }

  lemma TilesSnoc(gaps: seq<Bytes>, frames: seq<Bytes>, gap: Bytes, acc: Bytes)
    requires Tiles(gaps, frames) && NoMarker(gap, 0, D8) && Begun(acc) && EndsFF(acc)
    ensures Tiles(gaps + [gap], frames + [acc + [D9]])
    ensures Interleave(gaps + [gap], frames + [acc + [D9]]) == Interleave(gaps, frames) + gap + (acc + [D9])
  {
    var f := acc + [D9];
    assert f[..|f| - 1] == acc;
    assert |acc| > 2;
    assert IsFrame(f);
    assert (gaps + [gap])[..|gaps|] == gaps && (frames + [f])[..|gaps|] == frames;
  }

  lemma NoMarkerSnoc(s: Bytes, b: byte, from: nat, code: byte)
    requires NoMarker(s, from, code) && !(EndsFF(s) && b == code)
    ensures NoMarker(s + [b], from, code)
  {
    forall i: nat | from <= i ensures !MarkerAt(s + [b], i, code) {
      assert MarkerAt(s + [b], i, code) ==> i == |s| - 1 || MarkerAt(s, i, code);
    }
  }

  lemma NoMarkerPrefix(s: Bytes, n: nat, from: nat, code: byte)
    requires NoMarker(s, from, code) && n <= |s|
    ensures NoMarker(s[..n], from, code)
  {
    forall i: nat | from <= i ensures !MarkerAt(s[..n], i, code) {
      assert MarkerAt(s[..n], i, code) ==> MarkerAt(s, i, code);
    }
  }

  /** What a scan has found is laid out in the stream, up to a tail without a start marker or a frame that has begun. */
  ghost predicate LaidOut(s: Bytes, st: Scan, gaps: seq<Bytes>, tail: Bytes) {
    && Tiles(gaps, st.frames) && s == Interleave(gaps, st.frames) + tail + Retained(st.mode) && NoMarker(tail, 0, D8)
    && (if st.mode.Inside? then Begun(st.mode.acc) else st.mode.ff == EndsFF(tail))
  }

  lemma LaidOutStep(s: Bytes, st: Scan, gaps: seq<Bytes>, tail: Bytes, b: byte)
    returns (gaps': seq<Bytes>, tail': Bytes)
    requires LaidOut(s, st, gaps, tail)
    ensures LaidOut(s + [b], Step(st, b), gaps', tail')
  {
    gaps', tail' := gaps, tail;
    if st.mode == Outside(true) && b == D8 {
      tail' := FrameBegins(s, st, gaps, tail);
    } else if st.mode.Outside? {
      GapGrows(s, st, gaps, tail, b);
      tail' := tail + [b];
    } else if EndsFF(st.mode.acc) && b == D9 {
      FrameCloses(s, st, gaps, tail);
      gaps', tail' := gaps + [tail], [];
    } else {
      FrameGrows(s, st, gaps, tail, b);
    }
  }

  lemma GapGrows(s: Bytes, st: Scan, gaps: seq<Bytes>, tail: Bytes, b: byte)
    requires LaidOut(s, st, gaps, tail) && st.mode.Outside? && !(st.mode.ff && b == D8)
    ensures LaidOut(s + [b], Step(st, b), gaps, tail + [b])
  {
    NoMarkerSnoc(tail, b, 0, D8);
    Regroup(s, Interleave(gaps, st.frames), tail, [], b);
  }

  lemma FrameGrows(s: Bytes, st: Scan, gaps: seq<Bytes>, tail: Bytes, b: byte)
    requires LaidOut(s, st, gaps, tail) && st.mode.Inside? && !(EndsFF(st.mode.acc) && b == D9)
    ensures LaidOut(s + [b], Step(st, b), gaps, tail)
  {
    BegunEnds(st.mode.acc, b);
    Regroup(s, Interleave(gaps, st.frames), tail, st.mode.acc, b);
  }

  lemma FrameCloses(s: Bytes, st: Scan, gaps: seq<Bytes>, tail: Bytes)
    requires LaidOut(s, st, gaps, tail) && st.mode.Inside? && EndsFF(st.mode.acc)
    ensures LaidOut(s + [D9], Step(st, D9), gaps + [tail], [])
  {
    TilesSnoc(gaps, st.frames, tail, st.mode.acc);
    Regroup(s, Interleave(gaps, st.frames), tail, st.mode.acc, D9);
  }

  lemma Regroup(s: Bytes, front: Bytes, tail: Bytes, acc: Bytes, b: byte)
    requires s == front + tail + acc
    ensures s + [b] == front + tail + (acc + [b])
    ensures acc == [] ==> s + [b] == front + (tail + [b]) + []
  {}

  lemma FrameBegins(s: Bytes, st: Scan, gaps: seq<Bytes>, tail: Bytes) returns (tail': Bytes)
    requires LaidOut(s, st, gaps, tail) && st.mode == Outside(true)
    ensures LaidOut(s + [D8], Step(st, D8), gaps, tail')
  {
    tail' := tail[..|tail| - 1];
    NoMarkerPrefix(tail, |tail| - 1, 0, D8);
    assert tail == tail' + [FF];
    assert s + [D8] == Interleave(gaps, st.frames) + tail' + [FF, D8];
  }

  /**
    Frames are disjoint, in order and maximal: between them, and after the last, only
    stretches without a start marker.
  */
  lemma {:induction false} Tiling(s: Bytes) returns (gaps: seq<Bytes>, tail: Bytes)
    ensures LaidOut(s, ScanAll(s), gaps, tail)
  {
    if s == [] {
      gaps, tail := [], [];
    } else {
      gaps, tail := Tiling(s[..|s| - 1]);
      gaps, tail := LaidOutStep(s[..|s| - 1], ScanAll(s[..|s| - 1]), gaps, tail, s[|s| - 1]);
      assert s == s[..|s| - 1] + [s[|s| - 1]];
    }
  }
}
