/**
  Lines out of a TCP stream (AIS and ADS-B).  The adapters append each chunk to a
  buffer, split it at `\r?\n` and keep the last piece.  However the stream is cut,
  even between `\r` and `\n`, the lines are those of the whole text.
*/
module LineFraming {
  import opened Wrappers
  import Aivdm
  import Text

  // ------------------------------------------------- the split the adapters use

  /** Where the first match of `\r?\n` at or after `from` starts; the length if there is none. */
  function NextBreak(s: string, from: nat): (i: nat)
    requires from <= |s|
    ensures from <= i <= |s| && (i < |s| ==> BreakAt(s, i))
    ensures forall j :: from <= j < i ==> !BreakAt(s, j)
    decreases |s| - from
  {
    if from == |s| || BreakAt(s, from) then from else NextBreak(s, from + 1)
  }

  predicate BreakAt(s: string, i: nat)
    requires i < |s|
  {
    s[i] == '\n' || (s[i] == '\r' && i + 1 < |s| && s[i + 1] == '\n')
  }

  /** `s.split(/\r?\n/)`. */
  function SplitLines(s: string): (r: seq<string>)
    ensures r != []
  {
    var i := NextBreak(s, 0);
    if i == |s| then [s]
    else [s[..i]] + SplitLines(s[if s[i] == '\r' then i + 2 else i + 1..])
  }

  /** An adapter: its handler turns a line into an event, or ignores it. */
  class LineAdapter<T> {
    const handle: string -> Option<T>
    var buffer: string

    constructor (handle: string -> Option<T>)
      ensures this.handle == handle && buffer == ""
    {
      this.handle := handle;
      buffer := "";
    }

    /** The `data` handler. */
    method Data(chunk: string) returns (events: seq<T>)
      modifies this
      ensures buffer == Framed(old(buffer) + chunk).rest
      ensures events == Events(handle, Framed(old(buffer) + chunk).lines)
    {
      buffer := buffer + chunk;
      SplitIsFramed(buffer);
      var lines := SplitLines(buffer);
      buffer := lines[|lines| - 1];
      lines := lines[..|lines| - 1];
      events := [];
      for i := 0 to |lines|
        invariant buffer == Framed(old(buffer) + chunk).rest
        invariant events == Events(handle, lines[..i])
      {
        assert lines[..i + 1][..i] == lines[..i];
        if Text.Trim(lines[i]) == "" { continue; }
        var e := handle(lines[i]);
        if e.Some? { events := events + [e.value]; }
      }
      assert lines[..|lines|] == lines;
    }
  }

  /** What the handler makes of the lines that are not blank. */
  function Events<T>(handle: string -> Option<T>, lines: seq<string>): seq<T> {
    if lines == [] then []
    else
      var line := lines[|lines| - 1];
      var before := Events(handle, lines[..|lines| - 1]);
      if Text.Trim(line) != "" && handle(line).Some? then before + [handle(line).value] else before
  }

  // ------------------------------------------------ one pass over the characters

  datatype Frames = Frames(lines: seq<string>, rest: string)

  function StripCr(s: string): string {
    if s != "" && s[|s| - 1] == '\r' then s[..|s| - 1] else s
  }

  /** The complete lines of a text, without their ends, and what comes after the last. */
  function Framed(s: string): (r: Frames)
    ensures '\n' !in r.rest
  {
    if s == "" then Frames([], "")
    else
      var before, c := Framed(s[..|s| - 1]), s[|s| - 1];
      if c == '\n' then Frames(before.lines + [StripCr(before.rest)], "") else Frames(before.lines, before.rest + [c])
  }

  /** Carrying on from what was left over is as good as starting again. */
  lemma {:induction false} FramedAppend(a: string, b: string)
    ensures var first := Framed(a);
      var second := Framed(first.rest + b);
      Framed(a + b) == Frames(first.lines + second.lines, second.rest)
  {
    if b == "" {
      assert a + b == a;
      FramedNoBreak(Framed(a).rest);
      assert Framed(a).rest + b == Framed(a).rest;
    } else {
      var init, rest := b[..|b| - 1], Framed(a).rest;
      FramedAppend(a, init);
      var c := b[|b| - 1];
      FramedSnoc(a + init, c);
      FramedSnoc(rest + init, c);
      assert a + b == (a + init) + [c] && rest + b == (rest + init) + [c];
    }
  }

  lemma FramedSnoc(s: string, c: char)
    ensures var f := Framed(s);
      Framed(s + [c]) == if c == '\n' then Frames(f.lines + [StripCr(f.rest)], "") else Frames(f.lines, f.rest + [c])
  {
    assert (s + [c])[..|s|] == s;
  }

  lemma {:induction false} FramedNoBreak(s: string)
    requires '\n' !in s
    ensures Framed(s) == Frames([], s)
  {
    if s != "" {
      var init := s[..|s| - 1];
      assert '\n' !in init;
      FramedNoBreak(init);
      assert s == init + [s[|s| - 1]];
    }
  }

  /** A first line. */
  lemma FramedLine(line: string, more: string)
    requires '\n' !in line
    ensures Framed(line + "\n" + more) == Frames([StripCr(line)] + Framed(more).lines, Framed(more).rest)
  {
    FramedNoBreak(line);
    var s := line + "\n";
    assert s[..|line|] == line;
    assert Framed(s) == Frames([StripCr(line)], "");
    FramedAppend(s, more);
    assert "" + more == more;
  }

  /** The regular expression's split finds the same lines as reading character by character. */
  lemma {:induction false} SplitIsFramed(s: string)
    ensures SplitLines(s) == Framed(s).lines + [Framed(s).rest]
  {
    var i := NextBreak(s, 0);
    if i == |s| {
      SplitNone(s);
    } else {
      var n := if s[i] == '\r' then i + 1 else i;
      var more := s[n + 1..];
      FirstLine(s, i, n);
      SplitStep(s, i, n);
      FramedAt(s, n);
      SplitIsFramed(more);
    }
  }

  lemma SplitNone(s: string)
    requires NextBreak(s, 0) == |s|
    ensures SplitLines(s) == [s] && Framed(s) == Frames([], s)
  {
    NoLineEnd(s, |s|);
    assert s[..|s|] == s;
    FramedNoBreak(s);
  }

  lemma FramedAt(s: string, n: nat)
    requires n < |s| && s[n] == '\n' && '\n' !in s[..n]
    ensures Framed(s) == Frames([StripCr(s[..n])] + Framed(s[n + 1..]).lines, Framed(s[n + 1..]).rest)
  {
    FramedLine(s[..n], s[n + 1..]);
    Recombine(s, n);
  }

  lemma Recombine(s: string, n: nat)
    requires n < |s| && s[n] == '\n'
    ensures s[..n] + "\n" + s[n + 1..] == s
  {}

  lemma SplitStep(s: string, i: nat, n: nat)
    requires i == NextBreak(s, 0) && i < |s| && n == if s[i] == '\r' then i + 1 else i
    ensures SplitLines(s) == [s[..i]] + SplitLines(s[n + 1..])
  {}

  lemma NoLineEnd(s: string, i: nat)
    requires i <= |s| && forall j :: 0 <= j < i ==> !BreakAt(s, j)
    ensures '\n' !in s[..i]
  {
    forall j | 0 <= j < i ensures s[j] != '\n' { assert !BreakAt(s, j); }
  }

  /** Up to the first break at `i`, whose line feed is at `n`. */
  lemma FirstLine(s: string, i: nat, n: nat)
    requires i < |s| && BreakAt(s, i) && n == if s[i] == '\r' then i + 1 else i
    requires forall j :: 0 <= j < i ==> !BreakAt(s, j)
    ensures n < |s| && s[n] == '\n' && '\n' !in s[..n] && StripCr(s[..n]) == s[..i]
  {
    NoLineEnd(s, i);
    if n == i {
      assert i > 0 ==> !BreakAt(s, i - 1);
    } else {
      assert s[..n] == s[..i] + ['\r'];
    }
  }

  // ----------------------------------------------------------------- any chunking

  function Concat(chunks: seq<string>): string {
    if chunks == [] then "" else Concat(chunks[..|chunks| - 1]) + chunks[|chunks| - 1]
  }

  /** The buffer and every event so far, after some chunks. */
  datatype Received<T> = Received(buffer: string, events: seq<T>)

  ghost function Receive<T>(handle: string -> Option<T>, chunks: seq<string>): Received<T> {
    if chunks == [] then Received("", [])
    else
      var before := Receive(handle, chunks[..|chunks| - 1]);
      var f := Framed(before.buffer + chunks[|chunks| - 1]);
      Received(f.rest, before.events + Events(handle, f.lines))
  }

  lemma {:induction false} EventsAppend<T>(handle: string -> Option<T>, a: seq<string>, b: seq<string>)
    ensures Events(handle, a + b) == Events(handle, a) + Events(handle, b)
  {
    if b == [] {
      assert a + b == a;
    } else {
      assert (a + b)[..|a + b| - 1] == a + b[..|b| - 1];
      EventsAppend(handle, a, b[..|b| - 1]);
    }
  }

  /** However a stream is cut into chunks, its events and what is left over are those of the whole text. */
  lemma {:induction false} ChunkIndependent<T>(handle: string -> Option<T>, chunks: seq<string>)
    ensures var text, r := Concat(chunks), Receive(handle, chunks);
      r == Received(Framed(text).rest, Events(handle, Framed(text).lines))
  {
    if chunks != [] {
      var init, last := chunks[..|chunks| - 1], chunks[|chunks| - 1];
      ChunkIndependent(handle, init);
      FramedAppend(Concat(init), last);
      var f := Framed(Concat(init));
      EventsAppend(handle, f.lines, Framed(f.rest + last).lines);
    }
  }

  // --------------------------------------------------------------- an AIS stream

  function AisHandler(number: string -> Option<real>): string -> Option<Aivdm.Report> {
    (line: string) => Aivdm.Decode(number, line)
  }

  /** Encoded reports, each with a CRLF. */
  function AisText(fs: seq<Aivdm.Fields>): string {
    if fs == [] then ""
    else
      var e := Aivdm.Encode(fs[|fs| - 1]);
      AisText(fs[..|fs| - 1]) + (if e.Some? then e.value + "\r\n" else "")
  }

  /** What the reports mean, those that mean nothing left out. */
  function Meanings(fs: seq<Aivdm.Fields>): seq<Aivdm.Report> {
    if fs == [] then []
    else
      var m := Aivdm.Meaning(fs[|fs| - 1]);
      Meanings(fs[..|fs| - 1]) + (if m.Some? then [m.value] else [])
  }

  lemma EncodedLine(f: Aivdm.Fields)
    requires Aivdm.InRange(f)
    ensures var e := Aivdm.Encode(f);
      e.Some? && '\n' !in e.value && e.value != "" && Text.Trim(e.value) != ""
  {
    Aivdm.EncodedChars(f);
    var e := Aivdm.Encode(f).value;
    assert e[0] == '!' && e[|e| - 1] == '0';
  }

  lemma {:induction false} AisLines(number: string -> Option<real>, fs: seq<Aivdm.Fields>)
    requires number("1") == Some(1.0) && forall f :: f in fs ==> Aivdm.InRange(f)
    ensures Framed(AisText(fs)).rest == ""
    ensures Events(AisHandler(number), Framed(AisText(fs)).lines) == Meanings(fs)
  {
    if fs != [] {
      var init, f := fs[..|fs| - 1], fs[|fs| - 1];
      AisLines(number, init);
      EncodedLine(f);
      Aivdm.RoundTrip(number, f);
      OneMoreLine(AisHandler(number), AisText(init), Aivdm.Encode(f).value);
    }
  }

  /** A CRLF-ended line after complete lines. */
  lemma OneMoreLine<T>(handle: string -> Option<T>, text: string, line: string)
    requires Framed(text).rest == "" && '\n' !in line
    ensures var f := Framed(text + (line + "\r\n"));
      f.rest == "" && f.lines == Framed(text).lines + [line] &&
      Events(handle, f.lines) == Events(handle, Framed(text).lines) +
        (if Text.Trim(line) != "" && handle(line).Some? then [handle(line).value] else [])
  {
    FramedAppend(text, line + "\r\n");
    assert "" + (line + "\r\n") == line + "\r\n";
    FramedCrLf(line);
    EventsSnoc(handle, Framed(text).lines, line);
  }

  lemma FramedCrLf(line: string)
    requires '\n' !in line
    ensures Framed(line + "\r\n") == Frames([line], "")
  {
    var cr := line + "\r";
    assert line + "\r\n" == cr + "\n" + "";
    FramedLine(cr, "");
    assert StripCr(cr) == line;
  }

  lemma EventsSnoc<T>(handle: string -> Option<T>, lines: seq<string>, line: string)
    ensures Events(handle, lines + [line]) == Events(handle, lines) +
      (if Text.Trim(line) != "" && handle(line).Some? then [handle(line).value] else [])
  {
    assert (lines + [line])[..|lines|] == lines;
  }

  /**
    The encoded reports reach the decoder once each, in order, whatever the chunks: the
    events are what the reports mean.
  */
  lemma AisStream(number: string -> Option<real>, fs: seq<Aivdm.Fields>, chunks: seq<string>)
    requires number("1") == Some(1.0) && (forall f :: f in fs ==> Aivdm.InRange(f)) && Concat(chunks) == AisText(fs)
    ensures Receive(AisHandler(number), chunks) == Received("", Meanings(fs))
  {
    ChunkIndependent(AisHandler(number), chunks);
    AisLines(number, fs);
  }
}
