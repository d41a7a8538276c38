/**
  Reading a frame's size from its header (section B.2.2 of ITU-T T.81): the walk over
  the marker segments up to the baseline frame header SOF0.
*/
module Jpeg {
  import opened Octets
  import opened Wrappers

  datatype Dimensions = Dimensions(width: nat, height: nat)

  const MARKER_SOF0: byte := 0xc0

  /** Markers with no segment to skip. */
  predicate Standalone(m: byte) {
    || m == 0xd8 || m == 0x01 || m == 0xd0 || m == 0xd1 || m == 0xd2
    || m == 0xd3 || m == 0xd4 || m == 0xd5 || m == 0xd6 || m == 0xd7
  }

  /** Big-endian. */
  function UInt16(hi: byte, lo: byte): nat { 256 * (hi as nat) + lo as nat }

  function ReadUInt16BE(s: Bytes, i: nat): nat
    requires i + 1 < |s|
  {
    UInt16(s[i], s[i + 1])
  }

  /** What the walk finds from some position on. */
  function Walk(frame: Bytes, offset: nat): Option<Dimensions>
    decreases |frame| - offset
  {
    if offset + 1 >= |frame| then None
    else if frame[offset] != 0xff then Walk(frame, offset + 1)
    else
      var marker := frame[offset + 1];
      if marker == MARKER_SOF0 then
        if offset + 9 > |frame| then None
        else Some(Dimensions(ReadUInt16BE(frame, offset + 7), ReadUInt16BE(frame, offset + 5)))
      else if Standalone(marker) then Walk(frame, offset + 2)
      else if offset + 4 > |frame| then None
      else Walk(frame, offset + 2 + ReadUInt16BE(frame, offset + 2))
  }

  /** Every read is in bounds and the walk ends, whatever the bytes. */
  method ParseJpegDimensions(frame: Bytes) returns (r: Option<Dimensions>)
    ensures r == Walk(frame, 2)
  {
    var offset := 2;
    while offset + 1 < |frame|
      invariant offset >= 2 && Walk(frame, offset) == Walk(frame, 2)
      decreases |frame| - offset
    {
      if frame[offset] != 0xff {
        offset := offset + 1;
        continue;
      }
      var marker := frame[offset + 1];
      if marker == MARKER_SOF0 {
        if offset + 9 > |frame| { return None; }
        var height := ReadUInt16BE(frame, offset + 5);
        var width := ReadUInt16BE(frame, offset + 7);
        return Some(Dimensions(width, height));
      }
      if Standalone(marker) {
        offset := offset + 2;
        continue;
      }
      if offset + 4 > |frame| { return None; }
      var segmentLength := ReadUInt16BE(frame, offset + 2);
      offset := offset + 2 + segmentLength;
    }
    return None;
  }

  // --------------------------------------------------------- well-formed headers

  /**
    What may stand before the frame header: a marker alone, or a segment whose length
    counts itself and its parameters.
  */
  datatype Part = Alone(marker: byte) | Segment(marker: byte, length: nat)

  function Extent(p: Part): nat { if p.Alone? then 2 else 2 + p.length }

  ghost predicate PartAt(s: Bytes, i: nat, p: Part) {
    && i + Extent(p) <= |s| && i + 1 < |s| && s[i] == 0xff && s[i + 1] == p.marker
    && match p
       case Alone(m) => Standalone(m)
       case Segment(m, length) =>
         !Standalone(m) && m != MARKER_SOF0 && length >= 2 && ReadUInt16BE(s, i + 2) == length
  }

  /** These parts stand one after the other from `i` up to `end`. */
  ghost predicate HeaderAt(s: Bytes, i: nat, parts: seq<Part>, end: nat)
    decreases |parts|
  {
    if parts == [] then i == end
    else PartAt(s, i, parts[0]) && HeaderAt(s, i + Extent(parts[0]), parts[1..], end)
  }

  /** A frame header, complete up to its dimensions. */
  ghost predicate FrameHeaderAt(s: Bytes, i: nat, d: Dimensions) {
    && i + 9 <= |s| && s[i] == 0xff && s[i + 1] == MARKER_SOF0
    && UInt16(s[i + 5], s[i + 6]) == d.height && UInt16(s[i + 7], s[i + 8]) == d.width
  }

  lemma WalkPart(s: Bytes, i: nat, p: Part)
    requires PartAt(s, i, p)
    ensures Walk(s, i) == Walk(s, i + Extent(p))
  {}

  /**
    After SOI and any mix of standalone markers and well-formed other segments, the walk
    returns the dimensions of the first complete SOF0, whatever the segments hold and
    whatever comes behind it.
  */
  lemma {:induction false} FindsDimensions(s: Bytes, i: nat, parts: seq<Part>, end: nat, d: Dimensions)
    requires HeaderAt(s, i, parts, end) && FrameHeaderAt(s, end, d)
    ensures Walk(s, i) == Some(d)
    decreases |parts|
  {
    if parts != [] {
      WalkPart(s, i, parts[0]);
      FindsDimensions(s, i + Extent(parts[0]), parts[1..], end, d);
    }
  }

  /** Whatever the bytes, dimensions that are returned stand in a complete SOF0. */
  lemma {:induction false} DimensionsStandThere(s: Bytes, i: nat) returns (j: nat)
    requires Walk(s, i).Some?
    ensures j >= i && FrameHeaderAt(s, j, Walk(s, i).value)
    decreases |s| - i
  {
    if s[i] != 0xff {
      j := DimensionsStandThere(s, i + 1);
    } else if s[i + 1] == MARKER_SOF0 {
      j := i;
    } else if Standalone(s[i + 1]) {
      j := DimensionsStandThere(s, i + 2);
    } else {
      j := DimensionsStandThere(s, i + 2 + ReadUInt16BE(s, i + 2));
    }
  }

  // ------------------------------------------------------------------ fill bytes

  /** A part behind the fill bytes (FF) that section B.1.1.2 of ITU-T T.81 allows before any marker. */
  datatype FilledPart = FilledPart(fill: nat, part: Part)

  ghost predicate FillAt(s: Bytes, i: nat, fill: nat) {
    i + fill <= |s| && forall k :: i <= k < i + fill ==> s[k] == 0xff
  }

  /** All markers but TEM and the reserved ones below SOF0. */
  predicate Common(p: Part) { p.marker as nat >= 0xc0 }

  /** These parts, each behind its fill bytes, stand one after the other from `i` up to `end`. */
  ghost predicate FilledHeaderAt(s: Bytes, i: nat, parts: seq<FilledPart>, end: nat)
    decreases |parts|
  {
    if parts == [] then i == end
    else
      var p := parts[0];
      && FillAt(s, i, p.fill) && PartAt(s, i + p.fill, p.part)
      && (p.fill == 1 ==> Common(p.part))
      && FilledHeaderAt(s, i + p.fill + Extent(p.part), parts[1..], end)
  }

  ghost predicate NoFill(parts: seq<FilledPart>) {
    forall k :: 0 <= k < |parts| ==> parts[k].fill == 0
  }

  /** No frame header from `from` on, as behind any 0xc000 bytes of a smaller frame. */
  ghost predicate NoFrameHeaderFrom(s: Bytes, from: nat) {
    forall j, d :: j >= from ==> !FrameHeaderAt(s, j, d)
  }

  /** A filled marker reads as a segment of at least 0xc000 bytes. */
  lemma FillMisread(s: Bytes, i: nat, fill: nat)
    requires fill > 0 && FillAt(s, i, fill)
    requires i + fill + 1 < |s| && s[i + fill] == 0xff && (fill == 1 ==> s[i + fill + 1] as nat >= 0xc0)
    requires NoFrameHeaderFrom(s, i + 0xc000)
    ensures Walk(s, i) == None
  {
    assert s[i] == 0xff && s[i + 1] == 0xff;
    if i + 4 <= |s| {
      assert s[i + 2] == if fill == 1 then s[i + fill + 1] else 0xff;
      var next := i + 2 + ReadUInt16BE(s, i + 2);
      assert next >= i + 0xc000;
      assert Walk(s, i) == Walk(s, next);
      if Walk(s, next).Some? { var j := DimensionsStandThere(s, next); }
    }
  }

  /**
    The header walk survives exactly the headers without fill bytes.  It finds the first
    complete SOF0 behind any mix of markers and segments if and only if neither they nor
    SOF0 are filled; otherwise it finds nothing, unless a segment that the fill makes up
    leads it to a frame header more than 0xc000 bytes further.
  */
  lemma {:induction false} FoundIffUnfilled(s: Bytes, i: nat, parts: seq<FilledPart>, end: nat, fill: nat,
                                            d: Dimensions)
    requires FilledHeaderAt(s, i, parts, end)
    requires FillAt(s, end, fill) && FrameHeaderAt(s, end + fill, d)
    requires NoFrameHeaderFrom(s, i + 0xc000)
    ensures Walk(s, i) == if NoFill(parts) && fill == 0 then Some(d) else None
    decreases |parts|
  {
    if parts == [] {
      if fill > 0 { FillMisread(s, i, fill); }
    } else if parts[0].fill > 0 {
      FillMisread(s, i, parts[0].fill);
    } else {
      var next := i + Extent(parts[0].part);
      WalkPart(s, i, parts[0].part);
      FoundIffUnfilled(s, next, parts[1..], end, fill, d);
      assert NoFill(parts) <==> NoFill(parts[1..]) by {
        assert forall k :: 1 <= k < |parts| ==> parts[k] == parts[1..][k - 1];
      }
    }
  }

  /** In frames of at most 0xc000 bytes the size of the frame settles the last condition. */
  lemma FoundIffUnfilledSmall(s: Bytes, parts: seq<FilledPart>, end: nat, fill: nat, d: Dimensions)
    requires FilledHeaderAt(s, 2, parts, end)
    requires FillAt(s, end, fill) && FrameHeaderAt(s, end + fill, d) && |s| <= 0xc000
    ensures Walk(s, 2) == Some(d) <==> NoFill(parts) && fill == 0
    ensures Walk(s, 2).Some? ==> Walk(s, 2) == Some(d)
  {
    FoundIffUnfilled(s, 2, parts, end, fill, d);
  }

  /** A 16 by 32 frame header with one fill byte before it. */
  const FILLED_FRAME: Bytes :=
    [0xff, 0xd8, 0xff, 0xff, 0xc0, 0x00, 0x11, 0x08, 0x00, 0x20, 0x00, 0x10]

  /** A frame that fails, and the same frame without its fill byte. */
  lemma FillByteHides()
    ensures Walk(FILLED_FRAME, 2) == None
    ensures Walk(FILLED_FRAME[..2] + FILLED_FRAME[3..], 2) == Some(Dimensions(16, 32))
  {
    var d := Dimensions(16, 32);
    assert FillAt(FILLED_FRAME, 2, 1) && FrameHeaderAt(FILLED_FRAME, 3, d);
    FoundIffUnfilledSmall(FILLED_FRAME, [], 2, 1, d);
    var plain := FILLED_FRAME[..2] + FILLED_FRAME[3..];
    assert FrameHeaderAt(plain, 2, d);
    FoundIffUnfilledSmall(plain, [], 2, 0, d);
  }
}
