/**
  Decoding the detector's output tensor: per anchor the best-scoring class, its box
  back in frame coordinates, then non-maximum suppression.
*/
module Yolo {
  import opened Wrappers
  import opened Suppression
  import TrackerFilter
  import Text

  /** The tensor, row by row: four coordinates, then one row of scores per class. */
  datatype RawModelOutput = RawModelOutput(data: seq<real>, numClasses: nat, numAnchors: nat) {
    predicate Ok() { |data| == (4 + numClasses) * numAnchors }
  }

  /** How preprocessing fitted the frame into the model's input. */
  datatype Preprocessed = Preprocessed(scale: real, padX: real, padY: real)

  function Cell(o: RawModelOutput, row: nat, a: nat): real
    requires o.Ok() && row < 4 + o.numClasses && a < o.numAnchors
  {
    CellInside(row, o.numAnchors, a, 4 + o.numClasses);
    o.data[row * o.numAnchors + a]
  }

  lemma CellInside(row: nat, n: nat, a: nat, rows: nat)
    requires row < rows && a < n
    ensures row * n + a < rows * n
  {
    assert (row + 1) * n <= rows * n;
  }

  function Scores(o: RawModelOutput, a: nat): (s: seq<real>)
    requires o.Ok() && a < o.numAnchors
    ensures |s| == o.numClasses
  {
    seq(o.numClasses, c requires 0 <= c < o.numClasses => Cell(o, 4 + c, a))
  }

  /** The class whose score is positive and the greatest, the first of them on ties. */
  ghost predicate IsBest(scores: seq<real>, c: nat) {
    && c < |scores| && scores[c] > 0.0
    && (forall d :: 0 <= d < c ==> scores[d] < scores[c]) && (forall d :: c < d < |scores| ==> scores[d] <= scores[c])
  }

  function BestClass(scores: seq<real>): (r: Option<nat>)
    ensures if r.None? then forall c :: 0 <= c < |scores| ==> scores[c] <= 0.0 else IsBest(scores, r.value)
  {
    if scores == [] then None
    else
      var n := |scores| - 1;
      var r := BestClass(scores[..n]);
      if scores[n] > (if r.None? then 0.0 else scores[r.value]) then Some(n) else r
  }

  /** There is only one such class. */
  lemma BestIsUnique(scores: seq<real>, c: nat)
    ensures BestClass(scores) == Some(c) <==> IsBest(scores, c)
  {
    var r := BestClass(scores);
    if r.Some? && c < |scores| { assert scores[c] <= scores[r.value]; }
  }

  function ClassName(names: seq<string>, c: nat): string {
    if c < |names| then names[c] else "class_" + Text.ToString(c, 10)
  }

  /** From model input coordinates to frame coordinates. */
  function Unfit(p: Preprocessed, b: TrackerFilter.BBox): TrackerFilter.BBox
    requires p.scale != 0.0
  {
    TrackerFilter.BBox((b.cx - p.padX) / p.scale, (b.cy - p.padY) / p.scale, b.w / p.scale, b.h / p.scale)
  }

  /** The letterbox transform it undoes. */
  function Fit(p: Preprocessed, b: TrackerFilter.BBox): TrackerFilter.BBox {
    TrackerFilter.BBox(b.cx * p.scale + p.padX, b.cy * p.scale + p.padY, b.w * p.scale, b.h * p.scale)
  }

  lemma UnfitFit(p: Preprocessed, b: TrackerFilter.BBox)
    requires p.scale != 0.0
    ensures Unfit(p, Fit(p, b)) == b
  {
    Undo(b.cx, p.scale); Undo(b.cy, p.scale); Undo(b.w, p.scale); Undo(b.h, p.scale);
  }

  lemma Undo(x: real, k: real)
    requires k != 0.0
    ensures (x * k) / k == x
  {}

  /** The detection at an anchor, if its best class is good enough. */
  function DetectionAt(o: RawModelOutput, p: Preprocessed, names: seq<string>, threshold: real,
                       a: nat): Option<Detection>
    requires o.Ok() && a < o.numAnchors && p.scale != 0.0
  {
    var best := BestClass(Scores(o, a));
    if best.None? || Scores(o, a)[best.value] < threshold then None
    else Some(Detection(Unfit(p, TrackerFilter.BBox(Cell(o, 0, a), Cell(o, 1, a), Cell(o, 2, a), Cell(o, 3, a))),
                        best.value, ClassName(names, best.value), Scores(o, a)[best.value]))
  }

  function Candidates(o: RawModelOutput, p: Preprocessed, names: seq<string>, threshold: real, n: nat): seq<Detection>
    requires o.Ok() && n <= o.numAnchors && p.scale != 0.0
  {
    if n == 0 then []
    else
      var d := DetectionAt(o, p, names, threshold, n - 1);
      if d.Some? then Candidates(o, p, names, threshold, n - 1) + [d.value]
        else Candidates(o, p, names, threshold, n - 1)
  }

  /** The tensor holds `x` in this row at this anchor. */
  predicate Reads(o: RawModelOutput, row: nat, a: nat, x: real) {
    row * o.numAnchors + a < |o.data| && o.data[row * o.numAnchors + a] == x
  }

  predicate ReadsScore(o: RawModelOutput, c: nat, a: nat, x: real) { Reads(o, 4 + c, a, x) }

  /** A detection is what an anchor's column says, its box moved back into the frame. */
  ghost predicate FromAnchor(o: RawModelOutput, p: Preprocessed, names: seq<string>, d: Detection, a: nat) {
    && Reads(o, 0, a, d.bbox.cx * p.scale + p.padX) && Reads(o, 1, a, d.bbox.cy * p.scale + p.padY)
    && Reads(o, 2, a, d.bbox.w * p.scale) && Reads(o, 3, a, d.bbox.h * p.scale)
    && d.classIndex < o.numClasses && ReadsScore(o, d.classIndex, a, d.confidence) && d.confidence > 0.0
    && (forall c, x :: 0 <= c < o.numClasses && ReadsScore(o, c, a, x) ==>
          x <= d.confidence && (c < d.classIndex ==> x < d.confidence))
    && (d.classIndex < |names| ==> d.className == names[d.classIndex])
  }

  /** Some class scores high enough at the anchor. */
  ghost predicate Passes(o: RawModelOutput, threshold: real, a: nat) {
    exists c, x :: 0 <= c < o.numClasses && ReadsScore(o, c, a, x) && x > 0.0 && x >= threshold
  }

  lemma CellReads(o: RawModelOutput, row: nat, a: nat)
    requires o.Ok() && row < 4 + o.numClasses && a < o.numAnchors
    ensures Reads(o, row, a, Cell(o, row, a))
  {
    CellInside(row, o.numAnchors, a, 4 + o.numClasses);
  }

  lemma UnfitBack(p: Preprocessed, b: TrackerFilter.BBox)
    requires p.scale != 0.0
    ensures var u := Unfit(p, b);
      && u.cx * p.scale + p.padX == b.cx && u.cy * p.scale + p.padY == b.cy
      && u.w * p.scale == b.w && u.h * p.scale == b.h
  {}

  lemma ScoresRead(o: RawModelOutput, a: nat)
    requires o.Ok() && a < o.numAnchors
    ensures forall c, x :: 0 <= c < o.numClasses ==> (ReadsScore(o, c, a, x) <==> x == Scores(o, a)[c])
  {
    forall c, x | 0 <= c < o.numClasses ensures ReadsScore(o, c, a, x) <==> x == Scores(o, a)[c] {
      CellReads(o, 4 + c, a);
    }
  }

  lemma PassesByBest(o: RawModelOutput, threshold: real, a: nat)
    requires o.Ok() && a < o.numAnchors
    ensures var best := BestClass(Scores(o, a));
      Passes(o, threshold, a) <==> best.Some? && Scores(o, a)[best.value] >= threshold
  {
    var best := BestClass(Scores(o, a));
    ScoresRead(o, a);
    if best.Some? { assert ReadsScore(o, best.value, a, Scores(o, a)[best.value]); }
    if Passes(o, threshold, a) {
      var c, x :| 0 <= c < o.numClasses && ReadsScore(o, c, a, x) && x > 0.0 && x >= threshold;
      assert x == Scores(o, a)[c];
    }
  }

  lemma DetectionReads(o: RawModelOutput, p: Preprocessed, names: seq<string>, threshold: real, a: nat)
    requires o.Ok() && a < o.numAnchors && p.scale != 0.0
    ensures var d := DetectionAt(o, p, names, threshold, a);
      && (d.Some? <==> Passes(o, threshold, a))
      && (d.Some? ==> FromAnchor(o, p, names, d.value, a) && d.value.confidence >= threshold)
  {
    PassesByBest(o, threshold, a);
    var best := BestClass(Scores(o, a));
    if best.Some? {
      var b := Unfit(p, TrackerFilter.BBox(Cell(o, 0, a), Cell(o, 1, a), Cell(o, 2, a), Cell(o, 3, a)));
      BestReads(o, p, names, a,
        Detection(b, best.value, ClassName(names, best.value), Scores(o, a)[best.value]));
    }
  }

  lemma BestReads(o: RawModelOutput, p: Preprocessed, names: seq<string>, a: nat, d: Detection)
    requires o.Ok() && a < o.numAnchors && p.scale != 0.0 && IsBest(Scores(o, a), d.classIndex)
    requires d.bbox == Unfit(p, TrackerFilter.BBox(Cell(o, 0, a), Cell(o, 1, a), Cell(o, 2, a), Cell(o, 3, a)))
    requires d.className == ClassName(names, d.classIndex) && d.confidence == Scores(o, a)[d.classIndex]
    ensures FromAnchor(o, p, names, d, a)
  {
    ScoresRead(o, a);
    BoxReads(o, p, a, d.bbox);
  }

  lemma BoxReads(o: RawModelOutput, p: Preprocessed, a: nat, b: TrackerFilter.BBox)
    requires o.Ok() && a < o.numAnchors && p.scale != 0.0
    requires b == Unfit(p, TrackerFilter.BBox(Cell(o, 0, a), Cell(o, 1, a), Cell(o, 2, a), Cell(o, 3, a)))
    ensures Reads(o, 0, a, b.cx * p.scale + p.padX) && Reads(o, 1, a, b.cy * p.scale + p.padY)
    ensures Reads(o, 2, a, b.w * p.scale) && Reads(o, 3, a, b.h * p.scale)
  {
    CellReads(o, 0, a);
    CellReads(o, 1, a);
    CellReads(o, 2, a);
    CellReads(o, 3, a);
    UnfitBack(p, TrackerFilter.BBox(Cell(o, 0, a), Cell(o, 1, a), Cell(o, 2, a), Cell(o, 3, a)));
  }

  /** What is known of an anchor's own detection, whatever it is. */
  ghost predicate Judged(o: RawModelOutput, p: Preprocessed, names: seq<string>, threshold: real, a: nat,
                         good: (Detection, nat) -> bool, passes: nat -> bool)
    requires o.Ok() && a < o.numAnchors && p.scale != 0.0
  {
    var d := DetectionAt(o, p, names, threshold, a);
    (d.Some? <==> passes(a)) && (d.Some? ==> good(d.value, a))
  }

  /** Which anchors the candidates come from. */
  lemma {:induction false} CandidatesBy(o: RawModelOutput, p: Preprocessed, names: seq<string>, threshold: real, n: nat,
                                        good: (Detection, nat) -> bool, passes: nat -> bool) returns (at: seq<nat>)
    requires o.Ok() && n <= o.numAnchors && p.scale != 0.0
    requires forall a: nat :: a < o.numAnchors ==> Judged(o, p, names, threshold, a, good, passes)
    ensures |at| == |Candidates(o, p, names, threshold, n)|
    ensures forall j :: 0 <= j < |at| ==> at[j] < n
    ensures forall j :: 0 <= j < |at| ==> good(Candidates(o, p, names, threshold, n)[j], at[j])
    ensures forall i, j :: 0 <= i < j < |at| ==> at[i] < at[j]
    ensures forall a: nat :: a < n ==> (a in at <==> passes(a))
  {
    at := [];
    if n > 0 {
      at := CandidatesBy(o, p, names, threshold, n - 1, good, passes);
      assert Judged(o, p, names, threshold, n - 1, good, passes);
      assert forall a :: a in at ==> a < n - 1;
      if DetectionAt(o, p, names, threshold, n - 1).Some? { at := at + [n - 1]; }
    }
  }

  ghost function IsFrom(o: RawModelOutput, p: Preprocessed, names: seq<string>,
                        threshold: real): (Detection, nat) -> bool {
    (d: Detection, a: nat) => FromAnchor(o, p, names, d, a) && d.confidence >= threshold
  }

  ghost function IsPassing(o: RawModelOutput, threshold: real): nat -> bool { (a: nat) => Passes(o, threshold, a) }

  /** The candidates are the detections of exactly the anchors where some class scores high enough, in order. */
  lemma CandidatesAre(o: RawModelOutput, p: Preprocessed, names: seq<string>, threshold: real) returns (at: seq<nat>)
    requires o.Ok() && p.scale != 0.0
    ensures var ds := Candidates(o, p, names, threshold, o.numAnchors);
      && |at| == |ds|
      && (forall j :: 0 <= j < |at| ==> at[j] < o.numAnchors && FromAnchor(o, p, names, ds[j], at[j]))
      && (forall j :: 0 <= j < |at| ==> ds[j].confidence >= threshold)
      && (forall i, j :: 0 <= i < j < |at| ==> at[i] < at[j])
      && (forall a: nat :: a < o.numAnchors ==> (a in at <==> Passes(o, threshold, a)))
  {
    var good, passes := IsFrom(o, p, names, threshold), IsPassing(o, threshold);
    forall a: nat | a < o.numAnchors
      ensures Judged(o, p, names, threshold, a, good, passes)
    {
      DetectionReads(o, p, names, threshold, a);
    }
    at := CandidatesBy(o, p, names, threshold, o.numAnchors, good, passes);
    var ds := Candidates(o, p, names, threshold, o.numAnchors);
    assert forall j :: 0 <= j < |at| ==> good(ds[j], at[j]);
    assert forall a: nat :: a < o.numAnchors ==> (a in at <==> passes(a));
  }

  method DecodeYoloOutput(o: RawModelOutput, p: Preprocessed, classNames: seq<string>, confidenceThreshold: real,
                          nmsIouThreshold: real)
    returns (kept: seq<Detection>)
    requires o.Ok() && p.scale != 0.0
    ensures kept == Nms(Candidates(o, p, classNames, confidenceThreshold, o.numAnchors), nmsIouThreshold)
  {
    var candidates: seq<Detection> := [];
    for a := 0 to o.numAnchors
      invariant candidates == Candidates(o, p, classNames, confidenceThreshold, a)
    {
      var best, bestScore := ArgMax(o, a);
      if best.None? || bestScore < confidenceThreshold { continue; }
      var model := TrackerFilter.BBox(Cell(o, 0, a), Cell(o, 1, a), Cell(o, 2, a), Cell(o, 3, a));
      candidates := candidates + [Detection(Unfit(p, model), best.value, ClassName(classNames, best.value), bestScore)];
    }
    kept := NonMaxSuppression(candidates, nmsIouThreshold);
  }

  /** The inner loop over the classes. */
  method ArgMax(o: RawModelOutput, a: nat) returns (bestClass: Option<nat>, bestScore: real)
    requires o.Ok() && a < o.numAnchors
    ensures bestClass == BestClass(Scores(o, a))
    ensures bestScore == if bestClass.None? then 0.0 else Scores(o, a)[bestClass.value]
  {
    ghost var scores := Scores(o, a);
    bestClass, bestScore := None, 0.0;
    for c := 0 to o.numClasses
      invariant if bestClass.None? then bestScore == 0.0 && (forall d :: 0 <= d < c ==> scores[d] <= 0.0)
                else IsBest(scores[..c], bestClass.value) && bestScore == scores[bestClass.value]
    {
      var score := Cell(o, 4 + c, a);
      assert score == scores[c];
      if score > bestScore { bestClass, bestScore := Some(c), score; }
    }
    assert scores[..o.numClasses] == scores;
    BestIsUnique(scores, if bestClass.None? then 0 else bestClass.value);
  }
}
