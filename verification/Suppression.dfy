/**
  Per-class non-maximum suppression over detections in stable descending order of
  confidence.
*/
module Suppression {
  import opened StableSort
  import opened TrackerFilter
  import Association
  import Filtering

  datatype Detection = Detection(bbox: BBox, classIndex: nat, className: string, confidence: real)

  const BY_CONFIDENCE: Detection -> real := (d: Detection) => 0.0 - d.confidence

  /** The earlier, more confident `k` suppresses `d`. */
  predicate Suppresses(k: Detection, d: Detection, threshold: real) {
    k.classIndex == d.classIndex && Association.Iou(k.bbox, d.bbox) > threshold
  }

  predicate Overlapped(kept: seq<Detection>, d: Detection, threshold: real) {
    exists i :: 0 <= i < |kept| && Suppresses(kept[i], d, threshold)
  }

  /** The scan: what is kept in the end when `kept` is already kept and `rest` is still to come. */
  function Keep(rest: seq<Detection>, kept: seq<Detection>, threshold: real): seq<Detection> {
    if rest == [] then kept
    else Keep(rest[1..], KeepOne(kept, rest[0], threshold), threshold)
  }

  function Nms(detections: seq<Detection>, threshold: real): seq<Detection> {
    Keep(Sort(BY_CONFIDENCE, detections), [], threshold)
  }

  method NonMaxSuppression(detections: seq<Detection>, iouThreshold: real) returns (kept: seq<Detection>)
    ensures kept == Nms(detections, iouThreshold)
  {
    var sorted := Sort(BY_CONFIDENCE, detections);
    kept := [];
    for i := 0 to |sorted|
      invariant Keep(sorted[i..], kept, iouThreshold) == Nms(detections, iouThreshold)
    {
      var candidate := sorted[i];
      assert sorted[i..][0] == candidate && sorted[i..][1..] == sorted[i + 1..];
      var overlapsKept := Some(kept, candidate, iouThreshold);
      if !overlapsKept { kept := kept + [candidate]; }
    }
  }

  method Some(kept: seq<Detection>, candidate: Detection, threshold: real) returns (found: bool)
    ensures found <==> Overlapped(kept, candidate, threshold)
  {
    for i := 0 to |kept|
      invariant !Overlapped(kept[..i], candidate, threshold)
    {
      if Suppresses(kept[i], candidate, threshold) { return true; }
    }
    assert kept[..|kept|] == kept;
    return false;
  }

  // ---------------------------------------------------------- what is kept

  /** No kept detection suppresses a later one. */
  ghost predicate Clean(kept: seq<Detection>, threshold: real) {
    forall i, j :: 0 <= i < j < |kept| ==> !Suppresses(kept[i], kept[j], threshold)
  }

  lemma {:induction false} KeepFacts(rest: seq<Detection>, kept: seq<Detection>, threshold: real)
    requires Clean(kept, threshold) && Sorted(BY_CONFIDENCE, kept + rest)
    ensures var k := Keep(rest, kept, threshold);
      && Clean(k, threshold) && Sorted(BY_CONFIDENCE, k) && kept <= k
      && (forall d :: d in k ==> d in kept || d in rest)
      && (forall d :: d in rest && d !in k ==>
        exists e :: e in k && Suppresses(e, d, threshold) && e.confidence >= d.confidence)
  {
    if rest == [] {
      assert kept + rest == kept;
    } else {
      assert rest == [rest[0]] + rest[1..];
      if Overlapped(kept, rest[0], threshold) {
        SortedDrop(kept, rest);
        KeepFacts(rest[1..], kept, threshold);
        SuppressedFirst(kept, rest, Keep(rest, kept, threshold), threshold);
      } else {
        assert (kept + [rest[0]]) + rest[1..] == kept + rest;
        KeepFacts(rest[1..], kept + [rest[0]], threshold);
        LastOfPrefix(kept, rest[0], Keep(rest, kept, threshold));
      }
    }
  }

  lemma SuppressedFirst(kept: seq<Detection>, rest: seq<Detection>, k: seq<Detection>, threshold: real)
    requires rest != [] && Overlapped(kept, rest[0], threshold) && Sorted(BY_CONFIDENCE, kept + rest) && kept <= k
    ensures exists e :: e in k && Suppresses(e, rest[0], threshold) && e.confidence >= rest[0].confidence
  {
    var i :| 0 <= i < |kept| && Suppresses(kept[i], rest[0], threshold);
    assert kept[i] == (kept + rest)[i] == k[i] && rest[0] == (kept + rest)[|kept|];
    assert BY_CONFIDENCE(kept[i]) <= BY_CONFIDENCE(rest[0]);
    assert k[i] in k;
  }

  lemma LastOfPrefix(kept: seq<Detection>, d: Detection, k: seq<Detection>)
    requires kept + [d] <= k
    ensures kept <= k && d in k
  {
    assert k[|kept|] == d;
  }

  lemma SortedDrop(kept: seq<Detection>, rest: seq<Detection>)
    requires rest != [] && Sorted(BY_CONFIDENCE, kept + rest)
    ensures Sorted(BY_CONFIDENCE, kept + rest[1..])
  {
    var s, t := kept + rest, kept + rest[1..];
    forall i, j | 0 <= i < j < |t| ensures BY_CONFIDENCE(t[i]) <= BY_CONFIDENCE(t[j]) {
      var i', j' := if i < |kept| then i else i + 1, if j < |kept| then j else j + 1;
      assert t[i] == s[i'] && t[j] == s[j'];
    }
  }

  /**
    The kept boxes come from the input, most confident first, no two of one class
    overlap above the threshold, and each suppressed box has a kept box of its class
    that overlaps it above the threshold and is at least as confident.
  */
  lemma NmsCharacterised(detections: seq<Detection>, threshold: real)
    ensures var k := Nms(detections, threshold);
      && (forall d :: d in k ==> d in detections)
      && (forall i, j :: 0 <= i < j < |k| ==> k[i].confidence >= k[j].confidence)
      && (forall i, j :: 0 <= i < |k| && 0 <= j < |k| && i != j && k[i].classIndex == k[j].classIndex ==>
            Association.Iou(k[i].bbox, k[j].bbox) <= threshold)
      && (forall d :: d in detections && d !in k ==>
        exists e :: e in k && e.classIndex == d.classIndex && Association.Iou(e.bbox, d.bbox) > threshold &&
          e.confidence >= d.confidence)
  {
    var s := Sort(BY_CONFIDENCE, detections);
    var k := Nms(detections, threshold);
    SortSpec(BY_CONFIDENCE, detections);
    assert [] + s == s;
    KeepFacts(s, [], threshold);
    forall i, j | 0 <= i < j < |k| ensures k[i].confidence >= k[j].confidence {
      assert BY_CONFIDENCE(k[i]) <= BY_CONFIDENCE(k[j]);
    }
    forall i, j | 0 <= i < |k| && 0 <= j < |k| && i != j && k[i].classIndex == k[j].classIndex
      ensures Association.Iou(k[i].bbox, k[j].bbox) <= threshold
    {
      if i < j { CleanApart(k, threshold, i, j); } else { CleanApart(k, threshold, j, i); }
    }
  }

  lemma CleanApart(k: seq<Detection>, threshold: real, i: nat, j: nat)
    requires Clean(k, threshold) && i < j < |k| && k[i].classIndex == k[j].classIndex
    ensures Association.Iou(k[i].bbox, k[j].bbox) <= threshold && Association.Iou(k[j].bbox, k[i].bbox) <= threshold
  {
    Association.IouRange(k[i].bbox, k[j].bbox);
    assert !Suppresses(k[i], k[j], threshold);
  }

  /** No kept position before `p` holds a box of the same class that overlaps the one there too much. */
  ghost predicate Free(s: seq<Detection>, at: seq<nat>, p: nat, threshold: real)
    requires p < |s| && forall i :: 0 <= i < |at| ==> at[i] < |s|
  {
    forall i :: 0 <= i < |at| && at[i] < p ==>
      !(s[at[i]].classIndex == s[p].classIndex && Association.Iou(s[at[i]].bbox, s[p].bbox) > threshold)
  }

  ghost function Picked(s: seq<Detection>, at: seq<nat>): (k: seq<Detection>)
    requires forall i :: 0 <= i < |at| ==> at[i] < |s|
    ensures |k| == |at|
  {
    seq(|at|, i requires 0 <= i < |at| => s[at[i]])
  }

  /** The positions kept of the first `n` of a sorted list. */
  ghost predicate Chosen(s: seq<Detection>, at: seq<nat>, n: nat, threshold: real)
    requires n <= |s|
  {
    && (forall i :: 0 <= i < |at| ==> at[i] < n)
    && (forall i, j :: 0 <= i < j < |at| ==> at[i] < at[j])
    && (forall p: nat :: p < n ==> (p in at <==> Free(s, at, p, threshold)))
  }

  lemma {:induction false} ChosenUpTo(s: seq<Detection>, n: nat, threshold: real) returns (at: seq<nat>)
    requires n <= |s|
    ensures Chosen(s, at, n, threshold)
    ensures Keep(s[n..], Picked(s, at), threshold) == Keep(s, [], threshold)
  {
    if n == 0 {
      at := [];
      assert s[0..] == s;
    } else {
      var before := ChosenUpTo(s, n - 1, threshold);
      var taken := !Overlapped(Picked(s, before), s[n - 1], threshold);
      at := before + (if taken then [n - 1] else []);
      ChosenNext(s, before, at, n - 1, threshold);
      assert s[n - 1..][0] == s[n - 1] && s[n - 1..][1..] == s[n..];
      assert Picked(s, at) == KeepOne(Picked(s, before), s[n - 1], threshold);
    }
  }

  lemma ChosenNext(s: seq<Detection>, before: seq<nat>, at: seq<nat>, n: nat, threshold: real)
    requires n < |s| && Chosen(s, before, n, threshold)
    requires at == before + (if Overlapped(Picked(s, before), s[n], threshold) then [] else [n])
    ensures Chosen(s, at, n + 1, threshold)
  {
    OverlappedIsNotFree(s, before, n, threshold);
    forall p: nat | p < n + 1 ensures p in at <==> Free(s, at, p, threshold) {
      LaterIrrelevant(s, before, at, n, p, threshold);
    }
  }

  lemma OverlappedIsNotFree(s: seq<Detection>, at: seq<nat>, n: nat, threshold: real)
    requires n < |s| && Chosen(s, at, n, threshold)
    ensures Overlapped(Picked(s, at), s[n], threshold) <==> !Free(s, at, n, threshold)
  {
    if !Free(s, at, n, threshold) {
      var i :| 0 <= i < |at| && at[i] < n && Suppresses(s[at[i]], s[n], threshold);
      assert Picked(s, at)[i] == s[at[i]];
    }
  }

  /** Keeping position `n` or not says nothing about the positions before it. */
  lemma LaterIrrelevant(s: seq<Detection>, before: seq<nat>, at: seq<nat>, n: nat, p: nat, threshold: real)
    requires p <= n < |s| && (at == before || at == before + [n]) && forall i :: 0 <= i < |before| ==> before[i] < n
    ensures Free(s, at, p, threshold) <==> Free(s, before, p, threshold)
    ensures p < n ==> (p in at <==> p in before)
    ensures p == n ==> (p in at <==> at != before)
  {
    assert forall i :: 0 <= i < |before| ==> at[i] == before[i];
    if Free(s, at, p, threshold) {
      forall i | 0 <= i < |before| && before[i] < p ensures !Suppresses(s[before[i]], s[p], threshold) {
        assert at[i] == before[i];
      }
    }
  }

  /**
    Position by position of the sorted input: what is kept stands at the positions
    that no kept position before them suppresses, in order.
  */
  lemma NmsByPosition(detections: seq<Detection>, threshold: real) returns (at: seq<nat>)
    ensures var s := Sort(BY_CONFIDENCE, detections);
      Chosen(s, at, |s|, threshold) && Nms(detections, threshold) == Picked(s, at)
  {
    var s := Sort(BY_CONFIDENCE, detections);
    at := ChosenUpTo(s, |s|, threshold);
    assert s[|s|..] == [];
  }

  // ------------------------------------------------------------- idempotence

  lemma {:induction false} KeepClean(rest: seq<Detection>, kept: seq<Detection>, threshold: real)
    requires Clean(kept + rest, threshold)
    ensures Keep(rest, kept, threshold) == kept + rest
  {
    if rest == [] {
      assert kept + rest == kept;
    } else {
      assert forall i :: 0 <= i < |kept| ==> (kept + rest)[i] == kept[i] && (kept + rest)[|kept|] == rest[0];
      assert (kept + [rest[0]]) + rest[1..] == kept + rest;
      KeepClean(rest[1..], kept + [rest[0]], threshold);
    }
  }

  /** Suppressing twice changes nothing. */
  lemma NmsIdempotent(detections: seq<Detection>, threshold: real)
    ensures Nms(Nms(detections, threshold), threshold) == Nms(detections, threshold)
  {
    var s := Sort(BY_CONFIDENCE, detections);
    var k := Nms(detections, threshold);
    SortSpec(BY_CONFIDENCE, detections);
    assert [] + s == s && [] + k == k;
    KeepFacts(s, [], threshold);
    SortCharacterised(BY_CONFIDENCE, k, k);
    KeepClean(k, [], threshold);
  }

  // -------------------------------------------------------- class by class

  /** The detections of one class, in order. */
  function InClass(c: nat): Detection -> bool { (d: Detection) => d.classIndex == c }

  function OfClass(c: nat, s: seq<Detection>): seq<Detection> { Filtering.Filter(InClass(c), s) }

  lemma OfClassSort(c: nat, s: seq<Detection>)
    ensures OfClass(c, Sort(BY_CONFIDENCE, s)) == Sort(BY_CONFIDENCE, OfClass(c, s))
  {
    var t := Sort(BY_CONFIDENCE, s);
    SortSpec(BY_CONFIDENCE, s);
    Filtering.FilterPairwise(InClass(c), (d: Detection, e: Detection) => BY_CONFIDENCE(d) <= BY_CONFIDENCE(e), t);
    forall key ensures Class(BY_CONFIDENCE, key, OfClass(c, t)) == Class(BY_CONFIDENCE, key, OfClass(c, s)) {
      Filtering.FilterCommutes(HasKey(BY_CONFIDENCE, key), InClass(c), t);
      Filtering.FilterCommutes(HasKey(BY_CONFIDENCE, key), InClass(c), s);
      assert Class(BY_CONFIDENCE, key, t) == Class(BY_CONFIDENCE, key, s);
    }
    SortCharacterised(BY_CONFIDENCE, OfClass(c, t), OfClass(c, s));
  }

  lemma OverlappedOfClass(c: nat, kept: seq<Detection>, d: Detection, threshold: real)
    requires d.classIndex == c
    ensures Overlapped(OfClass(c, kept), d, threshold) <==> Overlapped(kept, d, threshold)
  {
    var f := OfClass(c, kept);
    if Overlapped(f, d, threshold) {
      var i :| 0 <= i < |f| && Suppresses(f[i], d, threshold);
      assert f[i] in f;
      Filtering.FilterMember(InClass(c), kept, f[i]);
      var k :| 0 <= k < |kept| && kept[k] == f[i];
    }
    if Overlapped(kept, d, threshold) {
      var i :| 0 <= i < |kept| && Suppresses(kept[i], d, threshold);
      Filtering.FilterMember(InClass(c), kept, kept[i]);
      var k :| 0 <= k < |f| && f[k] == kept[i];
    }
  }

  lemma OfClassCons(c: nat, s: seq<Detection>)
    requires s != []
    ensures OfClass(c, s) == (if s[0].classIndex == c then [s[0]] else []) + OfClass(c, s[1..])
  {
    assert s == [s[0]] + s[1..] && [s[0]][..0] == [];
    Filtering.FilterAppend(InClass(c), [s[0]], s[1..]);
  }

  /** The scan's next `kept`. */
  function KeepOne(kept: seq<Detection>, d: Detection, threshold: real): seq<Detection> {
    if Overlapped(kept, d, threshold) then kept else kept + [d]
  }

  lemma KeepOneOfClass(c: nat, kept: seq<Detection>, d: Detection, threshold: real)
    ensures OfClass(c, KeepOne(kept, d, threshold)) ==
            if d.classIndex == c then KeepOne(OfClass(c, kept), d, threshold) else OfClass(c, kept)
  {
    Filtering.FilterSnoc(InClass(c), kept, d);
    if d.classIndex == c { OverlappedOfClass(c, kept, d, threshold); }
  }

  lemma {:induction false} KeepOfClass(c: nat, rest: seq<Detection>, kept: seq<Detection>, threshold: real)
    ensures OfClass(c, Keep(rest, kept, threshold)) == Keep(OfClass(c, rest), OfClass(c, kept), threshold)
  {
    if rest != [] {
      var d := rest[0];
      KeepOfClass(c, rest[1..], KeepOne(kept, d, threshold), threshold);
      OfClassCons(c, rest);
      KeepOneOfClass(c, kept, d, threshold);
      if d.classIndex == c {
        assert OfClass(c, rest)[0] == d && OfClass(c, rest)[1..] == OfClass(c, rest[1..]);
      } else {
        assert OfClass(c, rest) == OfClass(c, rest[1..]);
      }
    }
  }

  /** Suppression treats the classes independently. */
  lemma NmsPerClass(c: nat, detections: seq<Detection>, threshold: real)
    ensures OfClass(c, Nms(detections, threshold)) == Nms(OfClass(c, detections), threshold)
  {
    KeepOfClass(c, Sort(BY_CONFIDENCE, detections), [], threshold);
    OfClassSort(c, detections);
  }
}
