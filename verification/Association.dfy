/**
  Greedy IoU association of predicted track boxes with detections.  The loop's
  result is stated as `Greedy` over the candidates in stable descending order, and
  three things are proved of it: it is a one-to-one pairing that blocks every pair
  it leaves out, it is the only such pairing when scores differ, and its total IoU
  is at least half that of any other pairing.
*/
module Association {
  import opened Filtering
  import opened Reals
  import opened StableSort
  import opened TrackerFilter

  // --------------------------------------------------------------------- iou

  /** Overlap of two centred intervals; zero when either has negative length. */
  function Overlap(c: real, l: real, c': real, l': real): (o: real)
    ensures o >= 0.0
    ensures l >= 0.0 && l' >= 0.0 ==> o <= l && o <= l'
    ensures l < 0.0 || l' < 0.0 ==> o == 0.0
  {
    Max(0.0, Min(c + l / 2.0, c' + l' / 2.0) - Max(c - l / 2.0, c' - l' / 2.0))
  }

  function Area(b: BBox): real { b.w * b.h }

  function InterArea(a: BBox, b: BBox): real {
    Overlap(a.cx, a.w, b.cx, b.w) * Overlap(a.cy, a.h, b.cy, b.h)
  }

  function Iou(a: BBox, b: BBox): real {
    var inter := InterArea(a, b);
    var union := Area(a) + Area(b) - inter;
    if union <= 0.0 then 0.0 else inter / union
  }

  lemma MulMonotone(x: real, y: real, x': real, y': real, p: real, p': real)
    requires 0.0 <= x <= x' && 0.0 <= y <= y' && p == x * y && p' == x' * y'
    ensures 0.0 <= p <= p'
  {
    assert x * y <= x * y' by { Gap(x, y, y'); }
    assert x * y' <= x' * y' by { Gap(y', x, x'); }
  }

  lemma Gap(k: real, y: real, y': real)
    requires 0.0 <= k && y <= y'
    ensures k * y <= k * y'
  {
    assert k * (y' - y) >= 0.0;
  }

  lemma OverlapSymmetric(c: real, l: real, c': real, l': real)
    ensures Overlap(c, l, c', l') == Overlap(c', l', c, l)
  {}

  lemma InterFacts(a: BBox, b: BBox)
    ensures InterArea(a, b) == InterArea(b, a) >= 0.0
    ensures a.w < 0.0 || a.h < 0.0 || b.w < 0.0 || b.h < 0.0 ==> InterArea(a, b) == 0.0
    ensures a.w >= 0.0 && a.h >= 0.0 && b.w >= 0.0 && b.h >= 0.0 ==>
      InterArea(a, b) <= Area(a) && InterArea(a, b) <= Area(b)
  {
    OverlapSymmetric(a.cx, a.w, b.cx, b.w);
    OverlapSymmetric(a.cy, a.h, b.cy, b.h);
    ProductFacts(Overlap(a.cx, a.w, b.cx, b.w), Overlap(a.cy, a.h, b.cy, b.h), a, b, InterArea(a, b));
  }

  lemma ProductFacts(x: real, y: real, a: BBox, b: BBox, p: real)
    requires x >= 0.0 && y >= 0.0 && p == x * y
    requires a.w < 0.0 || b.w < 0.0 ==> x == 0.0
    requires a.h < 0.0 || b.h < 0.0 ==> y == 0.0
    requires a.w >= 0.0 && b.w >= 0.0 ==> x <= a.w && x <= b.w
    requires a.h >= 0.0 && b.h >= 0.0 ==> y <= a.h && y <= b.h
    ensures p >= 0.0
    ensures a.w < 0.0 || a.h < 0.0 || b.w < 0.0 || b.h < 0.0 ==> p == 0.0
    ensures a.w >= 0.0 && a.h >= 0.0 && b.w >= 0.0 && b.h >= 0.0 ==> p <= Area(a) && p <= Area(b)
  {
    MulMonotone(0.0, 0.0, x, y, 0.0, p);
    if a.w >= 0.0 && a.h >= 0.0 && b.w >= 0.0 && b.h >= 0.0 {
      MulMonotone(x, y, a.w, a.h, p, Area(a));
      MulMonotone(x, y, b.w, b.h, p, Area(b));
    }
  }

  /** For all boxes, predicted ones with negative sizes included, IoU is symmetric and in [0, 1]. */
  lemma IouRange(a: BBox, b: BBox)
    ensures Iou(a, b) == Iou(b, a) && 0.0 <= Iou(a, b) <= 1.0
  {
    InterFacts(a, b);
    var inter := InterArea(a, b);
    var union := Area(a) + Area(b) - inter;
    if union > 0.0 {
      assert inter <= union;
      Quotient(inter, union, inter / union);
    }
  }

  lemma Quotient(n: real, d: real, q: real)
    requires 0.0 <= n <= d && d > 0.0 && q == n / d
    ensures 0.0 <= q <= 1.0
  {
    assert q * d == n;
  }

  // -------------------------------------------------------------- candidates

  datatype Pair = Pair(track: nat, detection: nat, score: real)

  /** Descending score is ascending negated score. */
  const BY_SCORE: Pair -> real := (p: Pair) => 0.0 - p.score

  predicate Conflict(p: Pair, q: Pair) { p.track == q.track || p.detection == q.detection }

  ghost predicate OneToOne(ps: seq<Pair>) {
    forall i, j :: 0 <= i < j < |ps| ==> !Conflict(ps[i], ps[j])
  }

  lemma IndexOf<T>(x: T, s: seq<T>) returns (k: nat)
    requires x in s
    ensures k < |s| && s[k] == x
  {
    k :| 0 <= k < |s| && s[k] == x;
  }

  /** The scan over sorted candidates, skipping used tracks and detections. */
  function Greedy(cs: seq<Pair>, usedT: set<nat>, usedD: set<nat>): seq<Pair> {
    if cs == [] then []
    else if cs[0].track in usedT || cs[0].detection in usedD then Greedy(cs[1..], usedT, usedD)
    else [cs[0]] + Greedy(cs[1..], usedT + {cs[0].track}, usedD + {cs[0].detection})
  }

  function Tracks(ps: seq<Pair>): set<nat> { set i | 0 <= i < |ps| :: ps[i].track }
  function Detections(ps: seq<Pair>): set<nat> { set i | 0 <= i < |ps| :: ps[i].detection }

  ghost function Total(ps: seq<Pair>): real {
    if ps == [] then 0.0 else ps[0].score + Total(ps[1..])
  }

  // ------------------------------------------------------------- greedy facts

  lemma {:induction false} GreedyFacts(cs: seq<Pair>, usedT: set<nat>, usedD: set<nat>)
    ensures var m := Greedy(cs, usedT, usedD);
      && OneToOne(m)
      && (forall p :: p in m ==> p in cs && p.track !in usedT && p.detection !in usedD)
      && |m| <= |cs|
  {
    if cs != [] {
      if cs[0].track in usedT || cs[0].detection in usedD {
        GreedyFacts(cs[1..], usedT, usedD);
      } else {
        GreedyFacts(cs[1..], usedT + {cs[0].track}, usedD + {cs[0].detection});
        var rest := Greedy(cs[1..], usedT + {cs[0].track}, usedD + {cs[0].detection});
        assert forall i :: 0 <= i < |rest| ==> rest[i] in rest;
      }
    }
  }

  /** A candidate is matched, or its track or detection was taken by a match at least as good. */
  ghost predicate Blocked(p: Pair, m: seq<Pair>) {
    exists q :: q in m && Conflict(p, q) && q.score >= p.score
  }

  lemma {:induction false} GreedyBlocks(cs: seq<Pair>, usedT: set<nat>, usedD: set<nat>, p: Pair)
    requires Sorted(BY_SCORE, cs) && p in cs && p.track !in usedT && p.detection !in usedD
    ensures p in Greedy(cs, usedT, usedD) || Blocked(p, Greedy(cs, usedT, usedD))
  {
    var m := Greedy(cs, usedT, usedD);
    assert Sorted(BY_SCORE, cs[1..]);
    if cs[0].track in usedT || cs[0].detection in usedD {
      GreedyBlocks(cs[1..], usedT, usedD, p);
    } else if Conflict(p, cs[0]) {
      var k :| 0 <= k < |cs| && cs[k] == p;
      assert BY_SCORE(cs[0]) <= BY_SCORE(cs[k]);
      assert cs[0] in m;
    } else {
      GreedyBlocks(cs[1..], usedT + {cs[0].track}, usedD + {cs[0].detection}, p);
      var rest := Greedy(cs[1..], usedT + {cs[0].track}, usedD + {cs[0].detection});
      if Blocked(p, rest) {
        var q :| q in rest && Conflict(p, q) && q.score >= p.score;
        assert q in m;
      }
    }
  }

  // --------------------------------------------------------------- factor two

  ghost predicate Available(ns: seq<Pair>, cs: seq<Pair>, usedT: set<nat>, usedD: set<nat>) {
    OneToOne(ns) && forall i :: 0 <= i < |ns| ==> ns[i] in cs && ns[i].track !in usedT && ns[i].detection !in usedD
  }

  /** `ns` without the pairs that share an endpoint with `c`. */
  ghost function Compatible(ns: seq<Pair>, c: Pair): seq<Pair> {
    if ns == [] then []
    else (if Conflict(ns[0], c) then [] else [ns[0]]) + Compatible(ns[1..], c)
  }

  lemma {:induction false} CompatibleFacts(ns: seq<Pair>, c: Pair)
    requires OneToOne(ns)
    ensures OneToOne(Compatible(ns, c))
    ensures forall p :: p in Compatible(ns, c) <==> p in ns && !Conflict(p, c)
  {
    if ns != [] {
      assert OneToOne(ns[1..]);
      CompatibleFacts(ns[1..], c);
      var rest := Compatible(ns[1..], c);
      assert forall i :: 0 <= i < |rest| ==> rest[i] in rest;
      assert forall i :: 1 <= i < |ns| ==> ns[1..][i - 1] == ns[i];
      forall i | 0 <= i < |rest| ensures !Conflict(ns[0], rest[i]) {
        var k :| 0 <= k < |ns[1..]| && ns[1..][k] == rest[i];
        assert !Conflict(ns[0], ns[k + 1]);
      }
    }
  }

  /**
    A one-to-one pairing loses at most one pair through `c`'s track and one through
    its detection, each worth at most `c`; `left` is how many may still be lost.
  */
  lemma {:induction false} LoseAtMostTwo(ns: seq<Pair>, c: Pair, trackFree: bool, detectionFree: bool)
    requires OneToOne(ns) && c.score >= 0.0
    requires forall i :: 0 <= i < |ns| && Conflict(ns[i], c) ==> ns[i].score <= c.score
    requires !trackFree ==> forall i :: 0 <= i < |ns| ==> ns[i].track != c.track
    requires !detectionFree ==> forall i :: 0 <= i < |ns| ==> ns[i].detection != c.detection
    ensures Total(ns) <= Total(Compatible(ns, c)) + (if trackFree then c.score else 0.0) +
        (if detectionFree then c.score else 0.0)
  {
    if ns != [] {
      assert OneToOne(ns[1..]);
      var n := ns[0];
      forall i | 0 <= i < |ns[1..]| ensures !Conflict(n, ns[1..][i]) { assert ns[1..][i] == ns[i + 1]; }
      if !Conflict(n, c) {
        LoseAtMostTwo(ns[1..], c, trackFree, detectionFree);
        assert Compatible(ns, c) == [n] + Compatible(ns[1..], c);
      } else {
        LoseAtMostTwo(ns[1..], c, trackFree && n.track != c.track, detectionFree && n.detection != c.detection);
        assert Compatible(ns, c) == Compatible(ns[1..], c);
      }
    }
  }

  /** Greedy on the rest of a sorted list is worth at least half of any pairing still available. */
  lemma {:induction false} GreedyHalf(cs: seq<Pair>, usedT: set<nat>, usedD: set<nat>, ns: seq<Pair>)
    requires Sorted(BY_SCORE, cs) && (forall i :: 0 <= i < |cs| ==> cs[i].score >= 0.0)
    requires Available(ns, cs, usedT, usedD)
    ensures Total(ns) <= 2.0 * Total(Greedy(cs, usedT, usedD))
    decreases |cs|
  {
    assert ns == [] || ns[0] in cs;
    if cs != [] {
      var c := cs[0];
      assert Sorted(BY_SCORE, cs[1..]);
      if c.track in usedT || c.detection in usedD {
        forall i | 0 <= i < |ns| ensures ns[i] in cs[1..] { InTail(ns[i], cs); }
        GreedyHalf(cs[1..], usedT, usedD, ns);
      } else {
        var rest := Compatible(ns, c);
        CompatibleFacts(ns, c);
        forall i | 0 <= i < |rest|
          ensures rest[i] in cs[1..] && rest[i].track !in usedT + {c.track}
          ensures rest[i].detection !in usedD + {c.detection}
        {
          assert rest[i] in rest;
          assert rest[i] in ns;
          InTail(rest[i], cs);
        }
        GreedyHalf(cs[1..], usedT + {c.track}, usedD + {c.detection}, rest);
        forall i | 0 <= i < |ns| ensures ns[i].score <= c.score { HeadBest(ns[i], cs); }
        LoseAtMostTwo(ns, c, true, true);
      }
    }
  }

  lemma InTail(p: Pair, cs: seq<Pair>)
    requires p in cs && p != cs[0]
    ensures p in cs[1..]
  {
    var k :| 0 <= k < |cs| && cs[k] == p;
    assert cs[1..][k - 1] == p;
  }

  lemma HeadBest(p: Pair, cs: seq<Pair>)
    requires Sorted(BY_SCORE, cs) && p in cs
    ensures p.score <= cs[0].score
  {
    var k :| 0 <= k < |cs| && cs[k] == p;
    assert k == 0 || BY_SCORE(cs[0]) <= BY_SCORE(cs[k]);
  }

  // --------------------------------------------------------------- uniqueness

  /** `m` is a one-to-one choice from `cs` in which every candidate left out is blocked. */
  ghost predicate Stable(m: seq<Pair>, cs: seq<Pair>, usedT: set<nat>, usedD: set<nat>) {
    Available(m, cs, usedT, usedD) &&
    forall p :: p in cs && p.track !in usedT && p.detection !in usedD ==> p in m || Blocked(p, m)
  }

  /** With distinct scores greedy's result is the only stable pairing. */
  lemma {:induction false} GreedyUnique(cs: seq<Pair>, usedT: set<nat>, usedD: set<nat>, m: seq<Pair>, p: Pair)
    requires Sorted(BY_SCORE, cs)
    requires forall i, j :: 0 <= i < j < |cs| ==> cs[i].score != cs[j].score
    requires Stable(m, cs, usedT, usedD)
    ensures p in m <==> p in Greedy(cs, usedT, usedD)
    decreases |cs|
  {
    assert p in m ==> p in cs;
    if cs != [] {
      var c := cs[0];
      assert Sorted(BY_SCORE, cs[1..]);
      if c.track in usedT || c.detection in usedD {
        assert Stable(m, cs[1..], usedT, usedD) by {
          forall i | 0 <= i < |m| ensures m[i] in cs[1..] { InTail(m[i], cs); }
        }
        GreedyUnique(cs[1..], usedT, usedD, m, p);
      } else {
        HeadChosen(cs, usedT, usedD, m);
        DropHead(cs, usedT, usedD, m);
        CompatibleFacts(m, c);
        GreedyUnique(cs[1..], usedT + {c.track}, usedD + {c.detection}, Compatible(m, c), p);
        ConflictsOnlyWithItself(m, c, p);
      }
    }
  }

  lemma ConflictsOnlyWithItself(m: seq<Pair>, c: Pair, p: Pair)
    requires OneToOne(m) && c in m
    ensures p in m && Conflict(p, c) ==> p == c
  {
    if p in m {
      var i := IndexOf(c, m);
      var j := IndexOf(p, m);
      assert i < j ==> !Conflict(m[i], m[j]);
      assert j < i ==> !Conflict(m[j], m[i]);
    }
  }

  /** The best candidate cannot be blocked by anything but itself. */
  lemma HeadChosen(cs: seq<Pair>, usedT: set<nat>, usedD: set<nat>, m: seq<Pair>)
    requires cs != [] && cs[0].track !in usedT && cs[0].detection !in usedD
    requires Sorted(BY_SCORE, cs)
    requires forall i, j :: 0 <= i < j < |cs| ==> cs[i].score != cs[j].score
    requires Stable(m, cs, usedT, usedD)
    ensures cs[0] in m
  {
    if Blocked(cs[0], m) {
      var q :| q in m && Conflict(cs[0], q) && q.score >= cs[0].score;
      var i := IndexOf(q, m);
      assert m[i] in cs;
      HeadBest(q, cs);
      var k := IndexOf(q, cs);
      assert cs[k].score == cs[0].score ==> k == 0;
    }
  }

  lemma DropHead(cs: seq<Pair>, usedT: set<nat>, usedD: set<nat>, m: seq<Pair>)
    requires cs != [] && cs[0] in m && Stable(m, cs, usedT, usedD)
    ensures Stable(Compatible(m, cs[0]), cs[1..], usedT + {cs[0].track}, usedD + {cs[0].detection})
  {
    var c := cs[0];
    var m' := Compatible(m, c);
    CompatibleFacts(m, c);
    forall i | 0 <= i < |m'|
      ensures m'[i] in cs[1..] && m'[i].track !in usedT + {c.track} && m'[i].detection !in usedD + {c.detection}
    {
      assert m'[i] in m';
      var k :| 0 <= k < |m| && m[k] == m'[i];
      InTail(m'[i], cs);
    }
    forall p | p in cs[1..] && p.track !in usedT + {c.track} && p.detection !in usedD + {c.detection}
      ensures p in m' || Blocked(p, m')
    {
      assert p in cs;
      if p !in m {
        var q :| q in m && Conflict(p, q) && q.score >= p.score;
        ConflictsOnlyWithItself(m, c, q);
        assert q != c;
        assert q in m';
      }
    }
  }

  // -------------------------------------------------------------- the method

  datatype Result = Result(matches: seq<Pair>, unmatchedTracks: seq<nat>, unmatchedDetections: seq<nat>)

  /** The indices below `n` outside `used`, in increasing order. */
  function Unused(n: nat, used: set<nat>): seq<nat> {
    if n == 0 then [] else Unused(n - 1, used) + (if n - 1 in used then [] else [n - 1])
  }

  lemma {:induction false} UnusedFacts(n: nat, used: set<nat>)
    ensures forall i: nat :: i in Unused(n, used) <==> i < n && i !in used
    ensures forall i, j :: 0 <= i < j < |Unused(n, used)| ==> Unused(n, used)[i] < Unused(n, used)[j]
  {
    if n > 0 {
      UnusedFacts(n - 1, used);
      var u, last: seq<nat> := Unused(n - 1, used), if n - 1 in used then [] else [n - 1];
      assert Unused(n, used) == u + last;
      assert forall i :: 0 <= i < |u| ==> u[i] in u;
      assert forall i: nat :: i in last <==> i == n - 1 && i !in used;
    }
  }

  /** The IoU table, 0 off the two lists. */
  function Scores(tracks: seq<BBox>, detections: seq<BBox>): (nat, nat) -> real {
    (t: nat, d: nat) => if t < |tracks| && d < |detections| then Iou(tracks[t], detections[d]) else 0.0
  }

  /** The two candidate loops: the first `n` detections of track `t`, and the first `n` tracks. */
  function Row(score: (nat, nat) -> real, threshold: real, t: nat, n: nat): seq<Pair> {
    if n == 0 then []
    else Row(score, threshold, t, n - 1) +
         (if score(t, n - 1) >= threshold then [Pair(t, n - 1, score(t, n - 1))] else [])
  }

  function Candidates(score: (nat, nat) -> real, threshold: real, n: nat, detections: nat): seq<Pair> {
    if n == 0 then []
    else Candidates(score, threshold, n - 1, detections) + Row(score, threshold, n - 1, detections)
  }

  /** A pair of indices that scores high enough to be matched. */
  predicate Candidate(p: Pair, score: (nat, nat) -> real, threshold: real, tracks: nat, detections: nat) {
    p.track < tracks && p.detection < detections && p.score == score(p.track, p.detection) && p.score >= threshold
  }

  lemma {:induction false} RowMember(score: (nat, nat) -> real, threshold: real, t: nat, n: nat, p: Pair)
    ensures p in Row(score, threshold, t, n) <==> p.track == t && Candidate(p, score, threshold, t + 1, n)
  {
    if n > 0 { RowMember(score, threshold, t, n - 1, p); }
  }

  lemma {:induction false} CandidatesMember(score: (nat, nat) -> real, threshold: real, n: nat, detections: nat,
                                           p: Pair)
    ensures p in Candidates(score, threshold, n, detections) <==> Candidate(p, score, threshold, n, detections)
  {
    if n > 0 {
      var k := n - 1;
      CandidatesMember(score, threshold, k, detections, p);
      RowMember(score, threshold, k, detections, p);
      var cs, row := Candidates(score, threshold, k, detections), Row(score, threshold, k, detections);
      assert p in cs + row <==> p in cs || p in row;
      assert Candidate(p, score, threshold, n, detections) <==>
             Candidate(p, score, threshold, k, detections) ||
               (p.track == k && Candidate(p, score, threshold, k + 1, detections));
    }
  }

  lemma NoRepeatsConcat(a: seq<Pair>, b: seq<Pair>)
    requires NoRepeats(a) && NoRepeats(b) && forall i, j :: 0 <= i < |a| && 0 <= j < |b| ==> a[i] != b[j]
    ensures NoRepeats(a + b)
  {}

  lemma {:induction false} RowDistinct(score: (nat, nat) -> real, threshold: real, t: nat, n: nat)
    ensures NoRepeats(Row(score, threshold, t, n))
  {
    if n > 0 {
      RowDistinct(score, threshold, t, n - 1);
      var row := Row(score, threshold, t, n - 1);
      var last := if score(t, n - 1) >= threshold then [Pair(t, n - 1, score(t, n - 1))] else [];
      forall i, j | 0 <= i < |row| && 0 <= j < |last| ensures row[i] != last[j] {
        RowMember(score, threshold, t, n - 1, row[i]);
      }
      NoRepeatsConcat(row, last);
    }
  }

  lemma {:induction false} CandidatesDistinct(score: (nat, nat) -> real, threshold: real, n: nat, detections: nat)
    ensures NoRepeats(Candidates(score, threshold, n, detections))
  {
    if n > 0 {
      CandidatesDistinct(score, threshold, n - 1, detections);
      RowDistinct(score, threshold, n - 1, detections);
      var cs, row := Candidates(score, threshold, n - 1, detections), Row(score, threshold, n - 1, detections);
      forall i, j | 0 <= i < |cs| && 0 <= j < |row| ensures cs[i] != row[j] {
        CandidatesMember(score, threshold, n - 1, detections, cs[i]);
        RowMember(score, threshold, n - 1, detections, row[j]);
      }
      NoRepeatsConcat(cs, row);
    }
  }

  /** What `associate` returns. */
  function Associated(tracks: seq<BBox>, detections: seq<BBox>, threshold: real): (r: Result)
  {
    var m := Greedy(Sort(BY_SCORE, Candidates(Scores(tracks, detections), threshold, |tracks|, |detections|)), {}, {});
    Result(m, Unused(|tracks|, Tracks(m)), Unused(|detections|, Detections(m)))
  }

  method Associate(trackBoxes: seq<BBox>, detectionBoxes: seq<BBox>, iouThreshold: real) returns (r: Result)
    ensures r == Associated(trackBoxes, detectionBoxes, iouThreshold)
  {
    var candidates := CandidateLoops(trackBoxes, detectionBoxes, iouThreshold);
    candidates := Sort(BY_SCORE, candidates);
    var matches, matchedTracks, matchedDetections := GreedyLoop(candidates);
    var unmatchedTracks := UnusedLoop(|trackBoxes|, matchedTracks);
    var unmatchedDetections := UnusedLoop(|detectionBoxes|, matchedDetections);
    return Result(matches, unmatchedTracks, unmatchedDetections);
  }

  method CandidateLoops(trackBoxes: seq<BBox>, detectionBoxes: seq<BBox>, iouThreshold: real)
    returns (candidates: seq<Pair>)
    ensures candidates == Candidates(Scores(trackBoxes, detectionBoxes), iouThreshold, |trackBoxes|, |detectionBoxes|)
  {
    ghost var table := Scores(trackBoxes, detectionBoxes);
    candidates := [];
    for t := 0 to |trackBoxes|
      invariant candidates == Candidates(table, iouThreshold, t, |detectionBoxes|)
    {
      ghost var before := candidates;
      for d := 0 to |detectionBoxes|
        invariant candidates == before + Row(table, iouThreshold, t, d)
      {
        var score := Iou(trackBoxes[t], detectionBoxes[d]);
        assert score == table(t, d);
        if score >= iouThreshold { candidates := candidates + [Pair(t, d, score)]; }
      }
    }
  }

  method GreedyLoop(candidates: seq<Pair>)
    returns (matches: seq<Pair>, matchedTracks: set<nat>, matchedDetections: set<nat>)
    ensures matches == Greedy(candidates, {}, {})
    ensures matchedTracks == Tracks(matches) && matchedDetections == Detections(matches)
  {
    matchedTracks, matchedDetections, matches := {}, {}, [];
    for i := 0 to |candidates|
      invariant matches + Greedy(candidates[i..], matchedTracks, matchedDetections) == Greedy(candidates, {}, {})
      invariant matchedTracks == Tracks(matches) && matchedDetections == Detections(matches)
    {
      var candidate := candidates[i];
      GreedyNext(candidates, i, matches, matchedTracks, matchedDetections);
      if candidate.track in matchedTracks || candidate.detection in matchedDetections { continue; }
      EndpointsSnoc(matches, candidate);
      matches := matches + [candidate];
      matchedTracks := matchedTracks + {candidate.track};
      matchedDetections := matchedDetections + {candidate.detection};
    }
  }

  /** One turn of the loop. */
  lemma GreedyNext(cs: seq<Pair>, i: nat, m: seq<Pair>, usedT: set<nat>, usedD: set<nat>)
    requires i < |cs|
    ensures m + Greedy(cs[i..], usedT, usedD) ==
      if cs[i].track in usedT || cs[i].detection in usedD then m + Greedy(cs[i + 1..], usedT, usedD)
      else (m + [cs[i]]) + Greedy(cs[i + 1..], usedT + {cs[i].track}, usedD + {cs[i].detection})
  {
    assert cs[i..][1..] == cs[i + 1..];
  }

  lemma EndpointsSnoc(m: seq<Pair>, c: Pair)
    ensures Tracks(m + [c]) == Tracks(m) + {c.track} && Detections(m + [c]) == Detections(m) + {c.detection}
  {
    var m' := m + [c];
    assert forall i :: 0 <= i < |m| ==> m'[i] == m[i];
    assert m'[|m|] == c;
  }

  method UnusedLoop(n: nat, used: set<nat>) returns (r: seq<nat>)
    ensures r == Unused(n, used)
  {
    r := [];
    for i := 0 to n
      invariant r == Unused(i, used)
    {
      if i !in used { r := r + [i]; }
    }
  }

  // ------------------------------------------------------------ main results

  /** A pair of indices, and the IoU of their boxes, which is enough for a match. */
  ghost predicate Eligible(p: Pair, tracks: seq<BBox>, detections: seq<BBox>, threshold: real) {
    p.track < |tracks| && p.detection < |detections| &&
    p.score == Iou(tracks[p.track], detections[p.detection]) && p.score >= threshold
  }

  /** The candidates in the order the greedy scan sees them. */
  function Ranked(tracks: seq<BBox>, detections: seq<BBox>, threshold: real): seq<Pair> {
    Sort(BY_SCORE, Candidates(Scores(tracks, detections), threshold, |tracks|, |detections|))
  }

  lemma RankedFacts(tracks: seq<BBox>, detections: seq<BBox>, threshold: real)
    ensures var cs := Ranked(tracks, detections, threshold);
      && Sorted(BY_SCORE, cs)
      && (forall p :: p in cs <==> Eligible(p, tracks, detections, threshold))
      && (forall i :: 0 <= i < |cs| ==> cs[i].score >= 0.0)
  {
    var cs := Ranked(tracks, detections, threshold);
    SortSpec(BY_SCORE, Candidates(Scores(tracks, detections), threshold, |tracks|, |detections|));
    forall p ensures p in cs <==> Eligible(p, tracks, detections, threshold) {
      CandidatesMember(Scores(tracks, detections), threshold, |tracks|, |detections|, p);
    }
    forall i | 0 <= i < |cs| ensures cs[i].score >= 0.0 {
      assert cs[i] in cs;
      assert Eligible(cs[i], tracks, detections, threshold);
      IouRange(tracks[cs[i].track], detections[cs[i].detection]);
    }
  }

  /**
    The result is a one-to-one pairing of eligible pairs; each eligible pair left
    out shares a track or a detection with a match of at least its IoU; and the
    unmatched lists are exactly the other indices, in order.
  */
  lemma AssociateIsStable(tracks: seq<BBox>, detections: seq<BBox>, threshold: real)
    ensures var r := Associated(tracks, detections, threshold);
      && OneToOne(r.matches)
      && (forall p :: p in r.matches ==> Eligible(p, tracks, detections, threshold))
      && (forall p :: Eligible(p, tracks, detections, threshold) ==> p in r.matches || Blocked(p, r.matches))
      && (forall t: nat :: t in r.unmatchedTracks <==> t < |tracks| && t !in Tracks(r.matches))
      && (forall d: nat :: d in r.unmatchedDetections <==> d < |detections| && d !in Detections(r.matches))
      && (forall i, j :: 0 <= i < j < |r.unmatchedTracks| ==> r.unmatchedTracks[i] < r.unmatchedTracks[j])
      && (forall i, j :: 0 <= i < j < |r.unmatchedDetections| ==> r.unmatchedDetections[i] < r.unmatchedDetections[j])
  {
    var cs := Ranked(tracks, detections, threshold);
    RankedFacts(tracks, detections, threshold);
    GreedyFacts(cs, {}, {});
    var m := Greedy(cs, {}, {});
    UnusedFacts(|tracks|, Tracks(m));
    UnusedFacts(|detections|, Detections(m));
    forall p | Eligible(p, tracks, detections, threshold) ensures p in m || Blocked(p, m) {
      GreedyBlocks(cs, {}, {}, p);
    }
  }

  /** Greedy matching is within a factor two of the best pairing. */
  lemma AssociateHalfOptimal(tracks: seq<BBox>, detections: seq<BBox>, threshold: real, ns: seq<Pair>)
    requires OneToOne(ns) && forall i :: 0 <= i < |ns| ==> Eligible(ns[i], tracks, detections, threshold)
    ensures Total(ns) <= 2.0 * Total(Associated(tracks, detections, threshold).matches)
  {
    RankedFacts(tracks, detections, threshold);
    GreedyHalf(Ranked(tracks, detections, threshold), {}, {}, ns);
  }

  ghost predicate NoTies(tracks: seq<BBox>, detections: seq<BBox>, threshold: real) {
    forall p, q ::
      p != q && Eligible(p, tracks, detections, threshold) && Eligible(q, tracks, detections, threshold) ==>
      p.score != q.score
  }

  /** When no two eligible pairs tie, no other pairing blocks everything it leaves out. */
  lemma AssociateUnique(tracks: seq<BBox>, detections: seq<BBox>, threshold: real, m: seq<Pair>)
    requires NoTies(tracks, detections, threshold)
    requires OneToOne(m) && forall i :: 0 <= i < |m| ==> Eligible(m[i], tracks, detections, threshold)
    requires forall p :: Eligible(p, tracks, detections, threshold) ==> p in m || Blocked(p, m)
    ensures forall p :: p in m <==> p in Associated(tracks, detections, threshold).matches
  {
    var cs := Ranked(tracks, detections, threshold);
    RankedFacts(tracks, detections, threshold);
    DistinctScores(tracks, detections, threshold);
    forall p ensures p in m <==> p in Associated(tracks, detections, threshold).matches {
      GreedyUnique(cs, {}, {}, m, p);
    }
  }

  lemma DistinctScores(tracks: seq<BBox>, detections: seq<BBox>, threshold: real)
    requires NoTies(tracks, detections, threshold)
    ensures var cs := Ranked(tracks, detections, threshold);
      forall i, j :: 0 <= i < j < |cs| ==> cs[i].score != cs[j].score
  {
    var raw := Candidates(Scores(tracks, detections), threshold, |tracks|, |detections|);
    var cs := Ranked(tracks, detections, threshold);
    RankedFacts(tracks, detections, threshold);
    SortSpec(BY_SCORE, raw);
    CandidatesDistinct(Scores(tracks, detections), threshold, |tracks|, |detections|);
    forall i, j | 0 <= i < j < |cs| ensures cs[i].score != cs[j].score {
      assert cs[i] in cs && cs[j] in cs;
      SameClassesPermute(BY_SCORE, cs, raw, cs[i]);
      OnceEach(raw, cs[i]);
      Repeats(cs, i, j);
    }
  }

  lemma Repeats(s: seq<Pair>, i: nat, j: nat)
    requires i < j < |s|
    ensures s[i] == s[j] ==> multiset(s)[s[i]] >= 2
  {
    assert s == s[..j] + s[j..];
    assert s[..j][i] == s[i] && s[j..][0] == s[j];
    assert s[i] in s[..j] && s[j] in s[j..];
  }

  lemma {:induction false} OnceEach(s: seq<Pair>, p: Pair)
    requires NoRepeats(s)
    ensures multiset(s)[p] <= 1
  {
    if s != [] {
      var n := |s| - 1;
      assert s == s[..n] + [s[n]];
      OnceEach(s[..n], p);
      if p in s[..n] {
        var k := IndexOf(p, s[..n]);
        assert s[k] != s[n];
      }
    }
  }
}
