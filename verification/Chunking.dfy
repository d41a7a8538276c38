/**
  Cutting a document into chunks of at most `maxChars` characters, only ever breaking
  between paragraphs.  Nothing that can be seen is lost, and no packing of the
  paragraphs that keeps their order and the size rule gets by with fewer chunks.
*/
module Chunking {
  import opened Filtering
  import opened Text

  datatype DoctrineChunk = DoctrineChunk(text: string, index: nat)

  const SEPARATOR: string := "\n\n"

  /** `paragraphs.join("\n\n")`. */
  function Join(ps: seq<string>): string {
    if ps == [] then ""
    else if |ps| == 1 then ps[0]
    else Join(ps[..|ps| - 1]) + SEPARATOR + ps[|ps| - 1]
  }

  function Concat(groups: seq<seq<string>>): seq<string> {
    if groups == [] then [] else Concat(groups[..|groups| - 1]) + groups[|groups| - 1]
  }

  /** A chunk is small enough, or a single paragraph, which is never cut. */
  predicate Fits(group: seq<string>, maxChars: int) {
    group != [] && (|Join(group)| <= maxChars || |group| == 1)
  }

  /** An order-preserving division of the paragraphs into chunks that meet the rule. */
  ghost predicate IsPacking(groups: seq<seq<string>>, ps: seq<string>, maxChars: int) {
    Concat(groups) == ps && forall i :: 0 <= i < |groups| ==> Fits(groups[i], maxChars)
  }

  /** A chunk could not have taken the first paragraph of the next. */
  ghost predicate NoRoom(group: seq<string>, next: seq<string>, maxChars: int) {
    next != [] && |Join(group + [next[0]])| > maxChars
  }

  ghost predicate Tight(groups: seq<seq<string>>, maxChars: int) {
    forall i, j :: 0 <= i < j < |groups| && j == i + 1 ==> NoRoom(groups[i], groups[j], maxChars)
  }

  ghost predicate Texts(chunks: seq<DoctrineChunk>, groups: seq<seq<string>>) {
    |chunks| == |groups| && forall i :: 0 <= i < |chunks| ==> chunks[i] == DoctrineChunk(Join(groups[i]), i)
  }

  /** The chunks are numbered, and are a packing in which no chunk had room for the paragraph after it. */
  ghost predicate IsChunking(chunks: seq<DoctrineChunk>, ps: seq<string>, maxChars: int) {
    exists groups :: Texts(chunks, groups) && IsPacking(groups, ps, maxChars) && Tight(groups, maxChars)
  }

  ghost predicate NonEmpty(ps: seq<string>) { forall i :: 0 <= i < |ps| ==> ps[i] != "" }

  /** Halfway through: the finished chunks and the one being filled hold the paragraphs seen so far. */
  ghost predicate Filling(groups: seq<seq<string>>, group: seq<string>, seen: seq<string>, maxChars: int) {
    && Concat(groups) + group == seen
    && (forall i :: 0 <= i < |groups| ==> Fits(groups[i], maxChars))
    && (if group == [] then groups == [] else Fits(group, maxChars) && Tight(groups + [group], maxChars))
  }

  /** The packing loop, over the trimmed paragraphs with the empty ones dropped. */
  method ChunkParagraphs(paragraphs: seq<string>, maxChars: int) returns (chunks: seq<DoctrineChunk>)
    requires NonEmpty(paragraphs)
    ensures IsChunking(chunks, paragraphs, maxChars)
  {
    chunks := [];
    ghost var groups: seq<seq<string>> := [];
    var current := "";
    ghost var group: seq<string> := [];
    for i := 0 to |paragraphs|
      invariant current == Join(group) && (current == "" <==> group == [])
      invariant Filling(groups, group, paragraphs[..i], maxChars)
      invariant Texts(chunks, groups)
    {
      var paragraph := paragraphs[i];
      var candidate := if current != "" then current + SEPARATOR + paragraph else paragraph;
      JoinNext(group, paragraph);
      assert candidate == Join(group + [paragraph]);
      ghost var seen := paragraphs[..i];
      assert paragraphs[..i + 1] == seen + [paragraph];
      if |candidate| > maxChars && current != "" {
        FillNext(groups, group, seen, paragraph, maxChars);
        TextsSnoc(chunks, groups, group);
        chunks := chunks + [DoctrineChunk(current, |chunks|)];
        current := paragraph;
        groups, group := groups + [group], [paragraph];
      } else {
        FillMore(groups, group, seen, paragraph, maxChars);
        current := candidate;
        group := group + [paragraph];
      }
    }
    assert paragraphs[..|paragraphs|] == paragraphs;
    if current != "" {
      Filled(groups, group, paragraphs, maxChars);
      TextsSnoc(chunks, groups, group);
      chunks := chunks + [DoctrineChunk(current, |chunks|)];
      groups := groups + [group];
    }
  }

  lemma TextsSnoc(chunks: seq<DoctrineChunk>, groups: seq<seq<string>>, group: seq<string>)
    requires Texts(chunks, groups)
    ensures Texts(chunks + [DoctrineChunk(Join(group), |chunks|)], groups + [group])
  {}

  lemma JoinNext(group: seq<string>, paragraph: string)
    ensures Join(group + [paragraph]) == if group == [] then paragraph else Join(group) + SEPARATOR + paragraph
    ensures paragraph != "" ==> Join(group + [paragraph]) != "" && Join([paragraph]) != ""
  {
    assert (group + [paragraph])[..|group|] == group;
  }

  lemma FillNext(groups: seq<seq<string>>, group: seq<string>, seen: seq<string>, paragraph: string, maxChars: int)
    requires Filling(groups, group, seen, maxChars) && group != [] && |Join(group + [paragraph])| > maxChars
    ensures Filling(groups + [group], [paragraph], seen + [paragraph], maxChars)
  {
    assert (groups + [group])[..|groups|] == groups;
    StaysTight(groups, group, paragraph, maxChars);
  }

  lemma FillMore(groups: seq<seq<string>>, group: seq<string>, seen: seq<string>, paragraph: string, maxChars: int)
    requires Filling(groups, group, seen, maxChars) && (group != [] ==> |Join(group + [paragraph])| <= maxChars)
    ensures Filling(groups, group + [paragraph], seen + [paragraph], maxChars)
  {
    assert Concat(groups) + (group + [paragraph]) == (Concat(groups) + group) + [paragraph];
    GrowsTight(groups, group, paragraph, maxChars);
  }

  lemma Filled(groups: seq<seq<string>>, group: seq<string>, seen: seq<string>, maxChars: int)
    requires Filling(groups, group, seen, maxChars) && group != []
    ensures IsPacking(groups + [group], seen, maxChars) && Tight(groups + [group], maxChars)
  {
    assert (groups + [group])[..|groups|] == groups;
  }

  lemma StaysTight(groups: seq<seq<string>>, group: seq<string>, paragraph: string, maxChars: int)
    requires Tight(groups + [group], maxChars) && |Join(group + [paragraph])| > maxChars
    ensures Tight(groups + [group] + [[paragraph]], maxChars)
  {
    var all := groups + [group] + [[paragraph]];
    forall i, j | 0 <= i < j < |all| && j == i + 1 ensures NoRoom(all[i], all[j], maxChars) {
      if i < |groups| { assert (groups + [group])[i] == all[i] && (groups + [group])[j] == all[j]; }
    }
  }

  lemma GrowsTight(groups: seq<seq<string>>, group: seq<string>, paragraph: string, maxChars: int)
    requires group != [] ==> Tight(groups + [group], maxChars)
    requires group == [] ==> groups == []
    ensures Tight(groups + [group + [paragraph]], maxChars)
  {
    var was, now := groups + [group], groups + [group + [paragraph]];
    forall i, j | 0 <= i < j < |now| && j == i + 1 ensures NoRoom(now[i], now[j], maxChars) {
      assert was[i] == now[i] && NoRoom(was[i], was[j], maxChars) && was[j][0] == now[j][0];
    }
  }

  // ------------------------------------------------------------------ lossless

  /** The texts of the chunks. */
  function JoinEach(groups: seq<seq<string>>): (r: seq<string>)
    ensures |r| == |groups|
  {
    seq(|groups|, i requires 0 <= i < |groups| => Join(groups[i]))
  }

  lemma {:induction false} JoinAppend(a: seq<string>, b: seq<string>)
    requires a != [] && b != []
    ensures Join(a + b) == Join(a) + SEPARATOR + Join(b)
  {
    var init, last := b[..|b| - 1], b[|b| - 1];
    assert (a + b)[..|a + b| - 1] == a + init;
    if init == [] {
      assert a + init == a;
    } else {
      JoinAppend(a, init);
    }
  }

  /** Rejoining the chunks gives the paragraphs rejoined. */
  lemma {:induction false} Lossless(groups: seq<seq<string>>, ps: seq<string>, maxChars: int)
    requires IsPacking(groups, ps, maxChars)
    ensures Join(JoinEach(groups)) == Join(ps)
  {
    if groups != [] {
      var n := |groups| - 1;
      assert Fits(groups[n], maxChars);
      Lossless(groups[..n], Concat(groups[..n]), maxChars);
      assert JoinEach(groups)[..n] == JoinEach(groups[..n]);
      if n == 0 {
        assert ps == groups[0];
      } else {
        assert Concat(groups[..n]) != [] by { assert Fits(groups[..n][n - 1], maxChars); }
        JoinAppend(Concat(groups[..n]), groups[n]);
      }
    }
  }

  // ------------------------------------------------------------- fewest chunks

  /** Characters with a separator counted for each paragraph. */
  function Total(ps: seq<string>): nat {
    if ps == [] then 0 else Total(ps[..|ps| - 1]) + |ps[|ps| - 1]| + |SEPARATOR|
  }

  lemma {:induction false} JoinLength(ps: seq<string>)
    requires ps != []
    ensures |Join(ps)| + |SEPARATOR| == Total(ps)
  {
    if |ps| > 1 { JoinLength(ps[..|ps| - 1]); }
  }

  lemma {:induction false} TotalAppend(a: seq<string>, b: seq<string>)
    ensures Total(a + b) == Total(a) + Total(b)
  {
    if b == [] {
      assert a + b == a;
    } else {
      assert (a + b)[..|a + b| - 1] == a + b[..|b| - 1];
      TotalAppend(a, b[..|b| - 1]);
    }
  }

  /** A longer run of paragraphs is no shorter when joined. */
  lemma JoinMonotone(ps: seq<string>, a: nat, b: nat, c: nat, d: nat)
    requires a <= b < c <= d <= |ps|
    ensures |Join(ps[b..c])| <= |Join(ps[a..d])|
  {
    assert ps[a..d] == ps[a..b] + (ps[b..c] + ps[c..d]);
    TotalAppend(ps[a..b], ps[b..c] + ps[c..d]);
    TotalAppend(ps[b..c], ps[c..d]);
    JoinLength(ps[b..c]);
    JoinLength(ps[a..d]);
  }

  /** How many paragraphs the first `j` chunks hold. */
  ghost function End(groups: seq<seq<string>>, j: nat): nat
    requires j <= |groups|
  {
    if j == 0 then 0 else End(groups, j - 1) + |groups[j - 1]|
  }

  lemma {:induction false} EndOfPrefix(groups: seq<seq<string>>, n: nat, j: nat)
    requires j <= n <= |groups|
    ensures End(groups[..n], j) == End(groups, j)
  {
    if j > 0 { EndOfPrefix(groups, n, j - 1); }
  }

  lemma {:induction false} EndOfAll(groups: seq<seq<string>>)
    ensures End(groups, |groups|) == |Concat(groups)|
  {
    if groups != [] {
      var n := |groups| - 1;
      EndOfAll(groups[..n]);
      EndOfPrefix(groups, n, n);
    }
  }

  /** `run` is what stands in `ps` from position `at`. */
  ghost predicate RunAt(ps: seq<string>, at: nat, run: seq<string>) {
    at + |run| <= |ps| && ps[at..at + |run|] == run
  }

  /** Chunk `j` is the run of paragraphs where the chunks before it end. */
  lemma {:induction false} GroupIsRun(groups: seq<seq<string>>, j: nat)
    requires j < |groups|
    ensures RunAt(Concat(groups), End(groups, j), groups[j])
  {
    var n := |groups| - 1;
    EndOfPrefix(groups, n, j);
    EndOfAll(groups[..n]);
    if j < n {
      GroupIsRun(groups[..n], j);
      RunInLonger(Concat(groups[..n]), groups[n], End(groups, j), groups[j]);
    } else {
      RunAtEnd(Concat(groups[..n]), groups[n]);
    }
  }

  lemma RunAtEnd(ps: seq<string>, run: seq<string>)
    ensures RunAt(ps + run, |ps|, run)
  {}

  lemma RunInLonger(ps: seq<string>, more: seq<string>, at: nat, run: seq<string>)
    requires RunAt(ps, at, run)
    ensures RunAt(ps + more, at, run)
  {
    assert (ps + more)[at..at + |run|] == ps[at..at + |run|];
  }

  /** Chunk `j` meets the rule and stands where the chunks before it end. */
  ghost predicate Piece(groups: seq<seq<string>>, ps: seq<string>, maxChars: int, j: nat) {
    j < |groups| && Fits(groups[j], maxChars) && RunAt(ps, End(groups, j), groups[j])
  }

  /** Chunks laid end to end over the paragraphs. */
  ghost predicate Covers(groups: seq<seq<string>>, ps: seq<string>, maxChars: int) {
    End(groups, |groups|) == |ps| && forall j: nat :: j < |groups| ==> Piece(groups, ps, maxChars, j)
  }

  lemma PackingCovers(groups: seq<seq<string>>, ps: seq<string>, maxChars: int)
    requires IsPacking(groups, ps, maxChars)
    ensures Covers(groups, ps, maxChars)
  {
    EndOfAll(groups);
    forall j: nat | j < |groups| ensures Piece(groups, ps, maxChars, j) {
      assert Fits(groups[j], maxChars);
      GroupIsRun(groups, j);
    }
  }

  /** The greedy packing stays ahead: its first `j` chunks hold at least as much as those of any other. */
  lemma {:induction false} StaysAhead(greedy: seq<seq<string>>, other: seq<seq<string>>, ps: seq<string>,
                                      maxChars: int, j: nat)
    requires Covers(greedy, ps, maxChars) && Tight(greedy, maxChars) && Covers(other, ps, maxChars)
    requires j <= |greedy| && j <= |other|
    ensures End(greedy, j) >= End(other, j)
  {
    if j > 0 {
      StaysAhead(greedy, other, ps, maxChars, j - 1);
      AheadNext(greedy, other, ps, maxChars, j - 1);
    }
  }

  lemma AheadNext(greedy: seq<seq<string>>, other: seq<seq<string>>, ps: seq<string>, maxChars: int, j: nat)
    requires Covers(greedy, ps, maxChars) && Tight(greedy, maxChars) && Covers(other, ps, maxChars)
    requires j < |greedy| && j < |other| && End(greedy, j) >= End(other, j)
    ensures End(greedy, j + 1) >= End(other, j + 1)
  {
    PieceEnds(other, ps, maxChars, j);
    PieceEnds(greedy, ps, maxChars, j);
    if j + 1 < |greedy| {
      assert Piece(greedy, ps, maxChars, j + 1) && NoRoom(greedy[j], greedy[j + 1], maxChars);
      AheadByOne(greedy, other, ps, maxChars, j);
    }
  }

  lemma PieceEnds(groups: seq<seq<string>>, ps: seq<string>, maxChars: int, j: nat)
    requires Covers(groups, ps, maxChars) && j < |groups|
    ensures Piece(groups, ps, maxChars, j) && End(groups, j + 1) == End(groups, j) + |groups[j]| <= |ps|
  {}

  lemma AheadByOne(greedy: seq<seq<string>>, other: seq<seq<string>>, ps: seq<string>, maxChars: int, j: nat)
    requires Piece(greedy, ps, maxChars, j) && Piece(greedy, ps, maxChars, j + 1) && Piece(other, ps, maxChars, j)
    requires NoRoom(greedy[j], greedy[j + 1], maxChars) && End(greedy, j) >= End(other, j)
    ensures End(greedy, j) + |greedy[j]| >= End(other, j) + |other[j]|
  {
    RunsCompared(ps, End(greedy, j), greedy[j], greedy[j + 1], End(other, j), other[j], maxChars);
  }

  lemma GroupAndNext(ps: seq<string>, g: nat, group: seq<string>, next: seq<string>)
    requires RunAt(ps, g, group) && RunAt(ps, g + |group|, next) && next != []
    ensures ps[g..g + |group| + 1] == group + [next[0]]
  {
    assert ps[g + |group|] == ps[g + |group|..g + |group| + |next|][0];
  }

  /** A run that starts no later than a full chunk cannot end later. */
  lemma RunsCompared(ps: seq<string>, g: nat, group: seq<string>, next: seq<string>, o: nat, run: seq<string>,
                     maxChars: int)
    requires group != [] && NoRoom(group, next, maxChars) && Fits(run, maxChars)
    requires RunAt(ps, g, group) && RunAt(ps, g + |group|, next) && RunAt(ps, o, run) && o <= g
    ensures o + |run| <= g + |group|
  {
    var g', o' := g + |group|, o + |run|;
    GroupAndNext(ps, g, group, next);
    if o' > g' { JoinMonotone(ps, o, g, g' + 1, o'); }
  }

  /** No order-preserving packing that meets the rule has fewer chunks. */
  lemma FewestChunks(chunks: seq<DoctrineChunk>, other: seq<seq<string>>, ps: seq<string>, maxChars: int)
    requires IsChunking(chunks, ps, maxChars) && IsPacking(other, ps, maxChars)
    ensures |chunks| <= |other|
  {
    var groups :| Texts(chunks, groups) && IsPacking(groups, ps, maxChars) && Tight(groups, maxChars);
    FewestGroups(groups, other, ps, maxChars);
  }

  lemma FewestGroups(greedy: seq<seq<string>>, other: seq<seq<string>>, ps: seq<string>, maxChars: int)
    requires IsPacking(greedy, ps, maxChars) && Tight(greedy, maxChars) && IsPacking(other, ps, maxChars)
    ensures |greedy| <= |other|
  {
    PackingCovers(greedy, ps, maxChars);
    PackingCovers(other, ps, maxChars);
    FewestRuns(greedy, other, ps, maxChars);
  }

  lemma FewestRuns(greedy: seq<seq<string>>, other: seq<seq<string>>, ps: seq<string>, maxChars: int)
    requires Covers(greedy, ps, maxChars) && Tight(greedy, maxChars) && Covers(other, ps, maxChars)
    ensures |greedy| <= |other|
  {
    var m := |other|;
    if m < |greedy| {
      assert Piece(greedy, ps, maxChars, m);
      StaysAhead(greedy, other, ps, maxChars, m);
    }
  }

  // ---------------------------------------------------------------- paragraphs

  /** The first position from `i` on that is not white space. */
  function BlankUntil(s: string, i: nat): (n: nat)
    requires i <= |s|
    ensures i <= n <= |s| && (forall j :: i <= j < n ==> IsSpace(s[j])) && (n < |s| ==> !IsSpace(s[n]))
    decreases |s| - i
  {
    if i < |s| && IsSpace(s[i]) then BlankUntil(s, i + 1) else i
  }

  /** The last line feed between two positions; the lower one minus one if there is none. */
  function LastFeed(s: string, lo: nat, hi: nat): (j: int)
    requires lo <= hi <= |s|
    ensures lo - 1 <= j < hi && (j >= lo ==> s[j] == '\n')
  {
    if lo == hi then lo - 1 else if s[hi - 1] == '\n' then hi - 1 else LastFeed(s, lo, hi - 1)
  }

  /** Where the match of `/\n\s*\n/` that starts at `i` ends (it is greedy); `i` if there is none. */
  function MatchEnd(s: string, i: nat): (end: nat)
    requires i < |s|
    ensures end == i || (i + 2 <= end <= |s| && forall j :: i <= j < end ==> IsSpace(s[j]))
  {
    if s[i] != '\n' then i
    else
      var j := LastFeed(s, i + 1, BlankUntil(s, i + 1));
      if j == i then i else j + 1
  }

  /** `s.slice(from).split(/\n\s*\n/)`, having looked for a match up to position `i`. */
  function Pieces(s: string, from: nat, i: nat): (r: seq<string>)
    requires from <= i <= |s|
    ensures r != []
    decreases |s| - i
  {
    if i == |s| then [s[from..]]
    else if MatchEnd(s, i) == i then Pieces(s, from, i + 1)
    else [s[from..i]] + Pieces(s, MatchEnd(s, i), MatchEnd(s, i))
  }

  function TrimAll(ps: seq<string>): (r: seq<string>)
    ensures |r| == |ps|
  {
    seq(|ps|, i requires 0 <= i < |ps| => Trim(ps[i]))
  }

  function HasText(): string -> bool { (p: string) => |p| > 0 }

  function Paragraphs(source: string): seq<string> { Filter(HasText(), TrimAll(Pieces(source, 0, 0))) }

  method ChunkDoctrine(source: string, maxChars: int) returns (chunks: seq<DoctrineChunk>)
    ensures IsChunking(chunks, Paragraphs(source), maxChars)
    ensures Ink(Join(TextsOf(chunks))) == Ink(source)
  {
    var paragraphs := Paragraphs(source);
    forall i | 0 <= i < |paragraphs| ensures paragraphs[i] != "" {
      FilterMember(HasText(), TrimAll(Pieces(source, 0, 0)), paragraphs[i]);
    }
    chunks := ChunkParagraphs(paragraphs, maxChars);
    ChunksLossless(chunks, paragraphs, maxChars);
    NothingLost(source);
  }

  /** Rejoining the chunks gives the paragraphs rejoined. */
  lemma ChunksLossless(chunks: seq<DoctrineChunk>, ps: seq<string>, maxChars: int)
    requires IsChunking(chunks, ps, maxChars)
    ensures Join(TextsOf(chunks)) == Join(ps)
  {
    var groups :| Texts(chunks, groups) && IsPacking(groups, ps, maxChars) && Tight(groups, maxChars);
    Lossless(groups, ps, maxChars);
    assert TextsOf(chunks) == JoinEach(groups);
  }

  function TextsOf(chunks: seq<DoctrineChunk>): (r: seq<string>)
    ensures |r| == |chunks|
  {
    seq(|chunks|, i requires 0 <= i < |chunks| => chunks[i].text)
  }

  /** What can be seen of several texts. */
  function InkAll(ps: seq<string>): string {
    if ps == [] then "" else InkAll(ps[..|ps| - 1]) + Ink(ps[|ps| - 1])
  }

  lemma {:induction false} InkJoin(ps: seq<string>)
    ensures Ink(Join(ps)) == InkAll(ps)
  {
    if |ps| == 1 {
      assert ps[..0] == [];
    } else if ps != [] {
      var init, last := ps[..|ps| - 1], ps[|ps| - 1];
      InkJoin(init);
      InkAppend(Join(init) + SEPARATOR, last);
      InkAppend(Join(init), SEPARATOR);
      InkBlank(SEPARATOR);
    }
  }

  lemma {:induction false} InkAllAppend(a: seq<string>, b: seq<string>)
    ensures InkAll(a + b) == InkAll(a) + InkAll(b)
  {
    if b == [] {
      assert a + b == a;
    } else {
      assert (a + b)[..|a + b| - 1] == a + b[..|b| - 1];
      InkAllAppend(a, b[..|b| - 1]);
    }
  }

  lemma InkAllCons(p: string, ps: seq<string>)
    ensures InkAll([p] + ps) == Ink(p) + InkAll(ps)
  {
    InkAllAppend([p], ps);
    assert [p][..0] == [];
  }

  /** The separators between pieces are blank. */
  lemma {:induction false} InkPieces(s: string, from: nat, i: nat)
    requires from <= i <= |s|
    ensures InkAll(Pieces(s, from, i)) == Ink(s[from..])
    decreases |s| - i
  {
    if i == |s| {
      InkAllCons(s[from..], []);
      assert [s[from..]] + [] == [s[from..]];
    } else {
      var end := MatchEnd(s, i);
      if end == i {
        InkPieces(s, from, i + 1);
      } else {
        InkPieces(s, end, end);
        InkAllCons(s[from..i], Pieces(s, end, end));
        InkSplit(s, from, i, end);
      }
    }
  }

  lemma InkSplit(s: string, from: nat, i: nat, end: nat)
    requires from <= i <= end <= |s| && forall j :: i <= j < end ==> IsSpace(s[j])
    ensures Ink(s[from..]) == Ink(s[from..i]) + Ink(s[end..])
  {
    assert s[from..] == s[from..i] + (s[i..end] + s[end..]);
    InkAppend(s[from..i], s[i..end] + s[end..]);
    InkAppend(s[i..end], s[end..]);
    InkBlank(s[i..end]);
  }

  lemma InkAllSnoc(ps: seq<string>, p: string)
    ensures InkAll(ps + [p]) == InkAll(ps) + Ink(p)
  {
    assert (ps + [p])[..|ps|] == ps;
  }

  lemma {:induction false} InkTrimAll(ps: seq<string>)
    ensures InkAll(Filter(HasText(), TrimAll(ps))) == InkAll(ps)
  {
    if ps != [] {
      var init, last := ps[..|ps| - 1], ps[|ps| - 1];
      InkTrimAll(init);
      assert TrimAll(ps) == TrimAll(init) + [Trim(last)];
      FilterSnoc(HasText(), TrimAll(init), Trim(last));
      InkTrim(last);
      InkAllSnoc(Filter(HasText(), TrimAll(init)), Trim(last));
    }
  }

  /** Splitting, trimming and dropping empty paragraphs loses nothing but white space. */
  lemma NothingLost(source: string)
    ensures Ink(Join(Paragraphs(source))) == Ink(source)
  {
    InkJoin(Paragraphs(source));
    InkTrimAll(Pieces(source, 0, 0));
    InkPieces(source, 0, 0);
    assert source[0..] == source;
  }
}
