/**
  Which tracks the visual tracker reports.  `minHitsToConfirm` is documented as a
  number of consecutive frames; the code counts matches, not consecutive ones.  A
  reported track is one with enough matches, and the documented promise holds of
  every run exactly for the options under which the two cannot differ.
*/
module Confirmation {
  import opened Wrappers
  import opened Matrix
  import opened TrackerFilter
  import opened Association
  import opened DeepSort
  import Filtering

  // -------------------------------------------------------- what is reported

  function FedEnough(o: Options): Tagged -> bool { (x: Tagged) => |x.feeds| >= o.minHitsToConfirm }

  lemma {:induction false} ConfirmedByFeeds(o: Options, tg: seq<Tagged>)
    requires forall i :: 0 <= i < |tg| ==> tg[i].track.hits == |tg[i].feeds|
    ensures Confirmed(o, Untag(tg)) == Untag(Filtering.Filter(FedEnough(o), tg))
  {
    if tg != [] {
      ConfirmedByFeeds(o, tg[..|tg| - 1]);
      assert Untag(tg)[..|tg| - 1] == Untag(tg[..|tg| - 1]);
    }
  }

  /** After any frames, the reported tracks are those that at least `minHitsToConfirm` detections fed, in order. */
  lemma ReportedExactly(o: Options, frames: seq<Frame>)
    ensures Confirmed(o, Untag(DeepSort.Run(o, frames))) ==
        Untag(Filtering.Filter(FedEnough(o), DeepSort.Run(o, frames)))
    ensures forall i :: 0 <= i < |DeepSort.Run(o, frames)| ==>
        (Reported(o, frames, i) <==> |DeepSort.Run(o, frames)[i].feeds| >= o.minHitsToConfirm)
  {
    var tg := DeepSort.Run(o, frames);
    RunTagsOk(o, frames);
    forall i | 0 <= i < |tg| ensures tg[i].track.hits == |tg[i].feeds| {
      assert TagOk(tg[i], frames);
    }
    ConfirmedByFeeds(o, tg);
    forall i | 0 <= i < |tg| ensures Reported(o, frames, i) <==> |tg[i].feeds| >= o.minHitsToConfirm {
      IsConfirmedByHits(o, tg, i);
    }
  }

  lemma IsConfirmedByHits(o: Options, tg: seq<Tagged>, i: nat)
    requires i < |tg|
    ensures tg[i].track in Confirmed(o, Untag(tg)) <==> tg[i].track.hits >= o.minHitsToConfirm
  {
    Filtering.FilterMember(IsConfirmed(o), Untag(tg), tg[i].track);
    assert Untag(tg)[i] == tg[i].track;
  }

  ghost predicate Reported(o: Options, frames: seq<Frame>, i: nat)
    requires i < |DeepSort.Run(o, frames)|
  {
    DeepSort.Run(o, frames)[i].track in Confirmed(o, Untag(DeepSort.Run(o, frames)))
  }

  // ------------------------------------------------------ consecutive frames

  /** Some `m` of the feeds, one after the other, come from consecutive frames. */
  ghost predicate InARow(feeds: seq<(nat, nat)>, m: int) {
    m <= 0 || exists a: nat :: a + m <= |feeds| && Consecutive(feeds, a, m)
  }

  ghost predicate Consecutive(feeds: seq<(nat, nat)>, a: nat, m: nat)
    requires a + m <= |feeds|
  {
    forall k :: a <= k < a + m ==> feeds[k].0 == feeds[a].0 + (k - a)
  }

  /** The documented promise, over every run in which `randomUUID` never repeats. */
  ghost predicate KeepsPromise(o: Options) {
    forall frames: seq<Frame>, i: nat ::
      NeverRepeats(frames) && i < |DeepSort.Run(o, frames)| && Reported(o, frames, i) ==>
      InARow(DeepSort.Run(o, frames)[i].feeds, o.minHitsToConfirm)
  }

  /** Successive feeds are at most `maxMissedFrames + 1` frames apart, and above an IoU of 1 there are none. */
  ghost predicate Spaced(o: Options, x: Tagged) {
    && (forall k :: 0 < k < |x.feeds| ==> x.feeds[k].0 <= x.feeds[k - 1].0 + o.maxMissedFrames + 1)
    && (o.iouThreshold > 1.0 ==> |x.feeds| == 1)
  }

  lemma NothingOverlapsMore(o: Options, ts: seq<Track>, ds: seq<RawDetection>)
    requires o.iouThreshold > 1.0
    ensures Matched(o, ts, ds).matches == []
  {
    var m := Matched(o, ts, ds).matches;
    var tracks, detections := Boxes(PredictAll(ts)), DetectionBoxes(ds);
    AssociateIsStable(tracks, detections, o.iouThreshold);
    if m != [] {
      assert m[0] in m;
      assert Eligible(m[0], tracks, detections, o.iouThreshold);
      IouRange(tracks[m[0].track], detections[m[0].detection]);
      assert false;
    }
  }

  lemma AdvancedSpaced(o: Options, tg: seq<Tagged>, frames: seq<Frame>, f: Frame, i: nat)
    requires TagsOk(tg, frames) && i < |TagAdvanced(o, tg, f, |frames|, FrameMatch(o, tg, f))|
    requires i < |tg| ==> Spaced(o, tg[i]) && Alive(o, tg[i].track)
    ensures Spaced(o, TagAdvanced(o, tg, f, |frames|, FrameMatch(o, tg, f))[i])
  {
    var r := FrameMatch(o, tg, f);
    if i < |tg| {
      OldTag(o, tg, f, |frames|, r, i);
      assert TagOk(tg[i], frames);
      if o.iouThreshold > 1.0 { NothingOverlapsMore(o, Untag(tg), f.ds); }
    } else {
      NewTag(o, tg, f, |frames|, r, i - |tg|);
    }
  }

  lemma {:induction false} RunSpaced(o: Options, frames: seq<Frame>)
    ensures forall i :: 0 <= i < |DeepSort.Run(o, frames)| ==> Spaced(o, DeepSort.Run(o, frames)[i])
  {
    if frames != [] {
      var n := |frames| - 1;
      var tg := DeepSort.Run(o, frames[..n]);
      RunSpaced(o, frames[..n]);
      RunTagsOk(o, frames[..n]);
      var all := TagAdvanced(o, tg, frames[n], n, FrameMatch(o, tg, frames[n]));
      forall i | 0 <= i < |DeepSort.Run(o, frames)| ensures Spaced(o, DeepSort.Run(o, frames)[i]) {
        assert DeepSort.Run(o, frames)[i] in DeepSort.Run(o, frames);
        Filtering.FilterMember(TagAlive(o), all, DeepSort.Run(o, frames)[i]);
        var k :| 0 <= k < |all| && all[k] == DeepSort.Run(o, frames)[i];
        AdvancedSpaced(o, tg, frames[..n], frames[n], k);
      }
    }
  }

  lemma {:induction false} StepsOfOne(o: Options, x: Tagged, frames: seq<Frame>, k: nat)
    requires TagOk(x, frames) && Spaced(o, x) && o.maxMissedFrames <= 0 && k < |x.feeds|
    ensures x.feeds[k].0 == x.feeds[0].0 + k
  {
    if k > 0 { StepsOfOne(o, x, frames, k - 1); }
  }

  /** `hits + framesSinceUpdate <= age`: every frame of a track's life is at most one of the two. */
  lemma CountersWithinAge(o: Options, frames: seq<Frame>, i: nat)
    requires i < |DeepSort.Run(o, frames)|
    ensures var t := DeepSort.Run(o, frames)[i].track; 1 <= t.hits && t.hits + t.framesSinceUpdate <= t.age <= |frames|
  {
    RunTagsOk(o, frames);
    TagCounters(DeepSort.Run(o, frames)[i], frames);
  }

  lemma TagCounters(x: Tagged, frames: seq<Frame>)
    requires TagOk(x, frames)
    ensures 1 <= x.track.hits && x.track.hits + x.track.framesSinceUpdate <= x.track.age <= |frames|
  {
    FeedsClimb(x, frames, |x.feeds| - 1);
  }

  lemma {:induction false} FeedsClimb(x: Tagged, frames: seq<Frame>, k: nat)
    requires TagOk(x, frames) && k < |x.feeds|
    ensures x.feeds[k].0 >= x.feeds[0].0 + k
  {
    if k > 0 { FeedsClimb(x, frames, k - 1); }
  }

  lemma PromiseKept(o: Options, frames: seq<Frame>, i: nat)
    requires o.minHitsToConfirm <= 1 || o.maxMissedFrames <= 0 || o.iouThreshold > 1.0
    requires i < |DeepSort.Run(o, frames)| && Reported(o, frames, i)
    ensures InARow(DeepSort.Run(o, frames)[i].feeds, o.minHitsToConfirm)
  {
    ReportedExactly(o, frames);
    RunTagsOk(o, frames);
    RunSpaced(o, frames);
    FeedsInARow(o, DeepSort.Run(o, frames)[i], frames);
  }

  lemma FeedsInARow(o: Options, x: Tagged, frames: seq<Frame>)
    requires o.minHitsToConfirm <= 1 || o.maxMissedFrames <= 0 || o.iouThreshold > 1.0
    requires TagOk(x, frames) && Spaced(o, x) && |x.feeds| >= o.minHitsToConfirm
    ensures InARow(x.feeds, o.minHitsToConfirm)
  {
    if o.minHitsToConfirm > 0 {
      forall k | 0 <= k < o.minHitsToConfirm ensures x.feeds[k].0 == x.feeds[0].0 + k {
        if o.maxMissedFrames <= 0 { StepsOfOne(o, x, frames, k); }
      }
      assert Consecutive(x.feeds, 0, o.minHitsToConfirm);
    }
  }

  // ------------------------------------------------- a box seen every other frame

  /** A frame with one detection, at `b`; whatever its class, its confidence and its new id. */
  predicate Sights(f: Frame, b: BBox) { |f.ds| == 1 && f.ds[0].bbox == b }

  const HIDDEN: Frame := FrameInput([], [])

  ghost predicate EveryOther(feeds: seq<(nat, nat)>, k: nat) {
    |feeds| == k && forall j :: 0 <= j < k ==> feeds[j] == (2 * j, 0)
  }

  predicate Still(x: AxisFilter, pos: real) { x.pos == pos && x.vel == 0.0 }

  predicate AllStill(axes: seq<AxisFilter>, z: Vec)
    requires |axes| == 4 && |z| == 4
  {
    Still(axes[0], z[0]) && Still(axes[1], z[1]) && Still(axes[2], z[2]) && Still(axes[3], z[3])
  }

  /** A filter that says its box stands still at `b`. */
  ghost predicate AtRest(f: Filter, b: BBox) {
    exists axes: seq<AxisFilter> :: SameCov(axes) && AllOk(axes) && AllStill(axes, BoxVec(b)) && f == Embed(axes)
  }

  lemma InitialAtRest(b: BBox)
    ensures AtRest(Initial(b, INITIAL_UNCERTAINTY), b)
  {
    var axes := AxisRuns(b, INITIAL_UNCERTAINTY, PROCESS_NOISE, MEASUREMENT_NOISE, []);
    ScaledIdentityBlocks(INITIAL_UNCERTAINTY);
    assert Initial(b, INITIAL_UNCERTAINTY).state == Embed(axes).state;
    assert SameCov(axes) && AllStill(axes, BoxVec(b));
  }

  lemma AxisStays(x: AxisFilter, k: nat, q: real, r: real, step: TrackerFilter.Step, pos: real)
    requires x.Ok() && k < 4 && q >= 0.0 && r > 0.0 && Still(x, pos) && (step.Update? ==> BoxVec(step.z)[k] == pos)
    ensures Still(AxisStep(x, k, q, r, step), pos)
  {
    if step.Update? {
      var gains := Gains(x.a, x.b, r);
      assert AxisStep(x, k, q, r, step) == AxisCorrected(x, gains.0, gains.1, pos);
      NoInnovation(pos, gains.0, pos - pos);
      NoInnovation(0.0, gains.1, pos - pos);
    }
  }

  lemma NoInnovation(x: real, gain: real, d: real)
    requires d == 0.0
    ensures Nudged(x, gain, d) == x
  {}

  lemma AxesStay(axes: seq<AxisFilter>, q: real, r: real, step: TrackerFilter.Step, b: BBox)
    requires AllOk(axes) && q >= 0.0 && r > 0.0 && AllStill(axes, BoxVec(b)) && (step.Update? ==> step.z == b)
    ensures AllStill(AxesStep(axes, q, r, step), BoxVec(b))
  {
    AxisStays(axes[0], 0, q, r, step, BoxVec(b)[0]);
    AxisStays(axes[1], 1, q, r, step, BoxVec(b)[1]);
    AxisStays(axes[2], 2, q, r, step, BoxVec(b)[2]);
    AxisStays(axes[3], 3, q, r, step, BoxVec(b)[3]);
  }

  /** Predicting it, or seeing it where it is expected, changes nothing but the covariance. */
  lemma StaysAtRest(f: Filter, b: BBox, inv: Mat -> Option<Mat>, step: TrackerFilter.Step)
    requires AtRest(f, b) && Inverts(inv) && (step.Update? ==> step.z == b)
    ensures f.Valid()
    ensures var f' := FilterStep(f, PROCESS_NOISE, MEASUREMENT_NOISE, inv, step);
      f'.Some? && AtRest(f'.value, b)
  {
    var axes: seq<AxisFilter> :| SameCov(axes) && AllOk(axes) && AllStill(axes, BoxVec(b)) && f == Embed(axes);
    StepRefines(axes, PROCESS_NOISE, MEASUREMENT_NOISE, inv, step);
    AxesStay(axes, PROCESS_NOISE, MEASUREMENT_NOISE, step, b);
  }

  lemma RestingBox(f: Filter, b: BBox)
    requires AtRest(f, b)
    ensures f.Valid() && BoxOf(f.state) == b
  {
    var axes: seq<AxisFilter> :| SameCov(axes) && AllOk(axes) && AllStill(axes, BoxVec(b)) && f == Embed(axes);
  }

  lemma SameBox(b: BBox)
    requires b.w > 0.0 && b.h > 0.0
    ensures Iou(b, b) == 1.0
  {
    assert Overlap(b.cx, b.w, b.cx, b.w) == b.w && Overlap(b.cy, b.h, b.cy, b.h) == b.h;
    assert Area(b) > 0.0;
    Itself(Area(b));
  }

  lemma Itself(a: real)
    requires a > 0.0
    ensures a / (a + a - a) == 1.0
  {}

  /** One track standing at `b`: a frame that sees the box matches it. */
  lemma SightingMatch(o: Options, tg: seq<Tagged>, f: Frame, b: BBox)
    requires Sights(f, b) && Inverts(o.inv) && o.iouThreshold <= 1.0 && b.w > 0.0 && b.h > 0.0
    requires |tg| == 1 && AtRest(tg[0].track.filter, b)
    ensures var r := FrameMatch(o, tg, f);
      r.unmatchedDetections == [] && MatchOf(r.matches, 0) == Some(0)
  {
    var r := FrameMatch(o, tg, f);
    var tracks, detections := Boxes(PredictAll(Untag(tg))), DetectionBoxes(f.ds);
    StaysAtRest(tg[0].track.filter, b, o.inv, Predict);
    RestingBox(PredictTrack(tg[0].track).filter, b);
    assert tracks[0] == b && detections[0] == b;
    SameBox(b);
    OnePair(tracks, detections, o.iouThreshold, r);
    MatchOfFacts(r.matches, 0);
  }

  /** One box on each side, overlapping enough: they are matched. */
  lemma OnePair(tracks: seq<BBox>, detections: seq<BBox>, threshold: real, r: Result)
    requires |tracks| == 1 && |detections| == 1 && Iou(tracks[0], detections[0]) >= threshold
    requires r == Associated(tracks, detections, threshold)
    ensures r.unmatchedDetections == [] && 0 in Tracks(r.matches)
    ensures forall i :: 0 <= i < |r.matches| ==> r.matches[i].detection == 0
  {
    AssociateIsStable(tracks, detections, threshold);
    var p := Pair(0, 0, Scores(tracks, detections)(0, 0));
    assert Eligible(p, tracks, detections, threshold);
    assert r.unmatchedDetections != [] ==> r.unmatchedDetections[0] in r.unmatchedDetections;
    assert r.matches != [];
    forall i | 0 <= i < |r.matches| ensures r.matches[i].track == 0 && r.matches[i].detection == 0 {
      assert r.matches[i] in r.matches;
      assert Eligible(r.matches[i], tracks, detections, threshold);
    }
    assert r.matches[0].track == 0 && r.matches[0].detection == 0;
    assert 0 in Detections(r.matches);
  }

  /** A frame without detections matches nothing. */
  lemma HiddenMatch(o: Options, tg: seq<Tagged>)
    ensures FrameMatch(o, tg, HIDDEN).matches == [] && FrameMatch(o, tg, HIDDEN).unmatchedDetections == []
  {
    var r := FrameMatch(o, tg, HIDDEN);
    assert Fits(r, |tg|, 0);
    assert r.matches != [] ==> r.matches[0].detection < 0;
  }

  lemma BlinkStart(o: Options, f: Frame, b: BBox)
    requires Sights(f, b) && o.maxMissedFrames >= 0
    ensures var tg := TagStepped(o, [], f, 0);
      |tg| == 1 && tg[0].feeds == [(0, 0)] && AtRest(tg[0].track.filter, b)
  {
    var r := FrameMatch(o, [], f);
    AllNew(r);
    NewTag(o, [], f, 0, r, 0);
    InitialAtRest(b);
    OneSurvivor(o, TagAdvanced(o, [], f, 0, r));
  }

  /** No tracks and one detection: it starts a track. */
  lemma AllNew(r: Result)
    requires Fits(r, 0, 1)
    ensures r.matches == [] && r.unmatchedDetections == [0]
  {
    assert r.matches != [] ==> r.matches[0].track < 0;
    assert 0 in r.unmatchedDetections;
  }

  lemma OneSurvivor(o: Options, tg: seq<Tagged>)
    requires |tg| == 1 && Alive(o, tg[0].track)
    ensures Filtering.Filter(TagAlive(o), tg) == tg
  {
    Filtering.FilterAllOrNone(TagAlive(o), tg);
  }

  lemma FedAtRest(o: Options, t: Track, d: RawDetection, b: BBox)
    requires Inverts(o.inv) && AtRest(t.filter, b) && d.bbox == b
    ensures AtRest(FeedTrack(o, PredictTrack(t), d).filter, b)
  {
    StaysAtRest(t.filter, b, o.inv, Predict);
    StaysAtRest(PredictTrack(t).filter, b, o.inv, Update(b));
  }

  lemma SightingStep(o: Options, tg: seq<Tagged>, n: nat, f: Frame, b: BBox)
    requires Sights(f, b) && Inverts(o.inv) && o.iouThreshold <= 1.0 && o.maxMissedFrames >= 0 && b.w > 0.0 && b.h > 0.0
    requires |tg| == 1 && AtRest(tg[0].track.filter, b)
    ensures var tg' := TagStepped(o, tg, f, n);
      |tg'| == 1 && AtRest(tg'[0].track.filter, b) && tg'[0].feeds == tg[0].feeds + [(n, 0)]
  {
    SightingMatch(o, tg, f, b);
    SightingAdvanced(o, tg, n, f, b, FrameMatch(o, tg, f));
    OneSurvivor(o, TagAdvanced(o, tg, f, n, FrameMatch(o, tg, f)));
  }

  lemma SightingAdvanced(o: Options, tg: seq<Tagged>, n: nat, f: Frame, b: BBox, r: Result)
    requires Sights(f, b) && Inverts(o.inv) && |tg| == 1 && AtRest(tg[0].track.filter, b)
    requires Fits(r, 1, 1) && r.unmatchedDetections == [] && MatchOf(r.matches, 0) == Some(0)
    ensures var all := TagAdvanced(o, tg, f, n, r);
      && |all| == 1 && all[0].track.framesSinceUpdate == 0
      && AtRest(all[0].track.filter, b) && all[0].feeds == tg[0].feeds + [(n, 0)]
  {
    OldTag(o, tg, f, n, r, 0);
    FedAtRest(o, tg[0].track, f.ds[0], b);
  }

  lemma HiddenStep(o: Options, tg: seq<Tagged>, n: nat, b: BBox)
    requires Inverts(o.inv) && o.maxMissedFrames >= 1
    requires |tg| == 1 && AtRest(tg[0].track.filter, b) && tg[0].track.framesSinceUpdate == 0
    ensures var tg' := TagStepped(o, tg, HIDDEN, n);
      |tg'| == 1 && AtRest(tg'[0].track.filter, b) && tg'[0].feeds == tg[0].feeds
  {
    var r := FrameMatch(o, tg, HIDDEN);
    HiddenMatch(o, tg);
    OldTag(o, tg, HIDDEN, n, r, 0);
    StaysAtRest(tg[0].track.filter, b, o.inv, Predict);
    OneSurvivor(o, TagAdvanced(o, tg, HIDDEN, n, r));
  }

  /** One track standing at `b`, fed `k` times, in every other frame. */
  ghost predicate OnlyTrack(tg: seq<Tagged>, b: BBox, k: nat) {
    |tg| == 1 && AtRest(tg[0].track.filter, b) && EveryOther(tg[0].feeds, k)
  }

  lemma SeenStep(o: Options, tg: seq<Tagged>, n: nat, f: Frame, b: BBox, k: nat)
    requires Sights(f, b) && Inverts(o.inv) && o.iouThreshold <= 1.0 && o.maxMissedFrames >= 0 && b.w > 0.0 && b.h > 0.0
    requires n == 2 * k && OnlyTrack(tg, b, k)
    ensures OnlyTrack(TagStepped(o, tg, f, n), b, k + 1)
  {
    SightingStep(o, tg, n, f, b);
    OneMoreFeed(tg[0].feeds, TagStepped(o, tg, f, n)[0].feeds, k);
  }

  lemma OneMoreFeed(feeds: seq<(nat, nat)>, feeds': seq<(nat, nat)>, k: nat)
    requires EveryOther(feeds, k) && feeds' == feeds + [(2 * k, 0)]
    ensures EveryOther(feeds', k + 1)
  {}

  lemma SeenAgain(o: Options, frames: seq<Frame>, f: Frame, longer: seq<Frame>, b: BBox, k: nat)
    requires Sights(f, b) && Inverts(o.inv) && o.iouThreshold <= 1.0 && o.maxMissedFrames >= 0 && b.w > 0.0 && b.h > 0.0
    requires |frames| == 2 * k && OnlyTrack(DeepSort.Run(o, frames), b, k) && longer == frames + [f]
    ensures OnlyTrack(DeepSort.Run(o, longer), b, k + 1)
  {
    SeenStep(o, DeepSort.Run(o, frames), |frames|, f, b, k);
    RunUnfold(o, frames, f);
  }

  lemma MissedOnce(o: Options, frames: seq<Frame>, longer: seq<Frame>, b: BBox, k: nat)
    requires Inverts(o.inv) && o.maxMissedFrames >= 1
    requires |frames| == 2 * k + 1 && OnlyTrack(DeepSort.Run(o, frames), b, k + 1) && longer == frames + [HIDDEN]
    ensures OnlyTrack(DeepSort.Run(o, longer), b, k + 1)
  {
    RunUnfold(o, frames, HIDDEN);
    JustFed(o, frames, b, k);
    HiddenStep(o, DeepSort.Run(o, frames), 2 * k + 1, b);
  }

  lemma JustFed(o: Options, frames: seq<Frame>, b: BBox, k: nat)
    requires |frames| == 2 * k + 1 && OnlyTrack(DeepSort.Run(o, frames), b, k + 1)
    ensures DeepSort.Run(o, frames)[0].track.framesSinceUpdate == 0
  {
    RunTagsOk(o, frames);
    assert TagOk(DeepSort.Run(o, frames)[0], frames);
    assert DeepSort.Run(o, frames)[0].feeds[k] == (2 * k, 0);
  }

  ghost predicate BlinksTo(o: Options, frames: seq<Frame>, b: BBox, k: nat) {
    |frames| == 2 * k + 1 && OnlyTrack(DeepSort.Run(o, frames), b, k + 1)
  }

  lemma BlinkOnce(o: Options, frames: seq<Frame>, b: BBox)
    requires o.maxMissedFrames >= 0 && |frames| == 1 && Sights(frames[0], b)
    ensures BlinksTo(o, frames, b, 0)
  {
    RunUnfold(o, [], frames[0]);
    assert frames == [] + [frames[0]];
    BlinkStart(o, frames[0], b);
  }

  lemma BlinkTwoMore(o: Options, frames: seq<Frame>, f: Frame, longer: seq<Frame>, b: BBox, k: nat)
    requires Sights(f, b) && Inverts(o.inv) && o.iouThreshold <= 1.0 && o.maxMissedFrames >= 1 && b.w > 0.0 && b.h > 0.0
    requires BlinksTo(o, frames, b, k) && longer == frames + [HIDDEN] + [f]
    ensures BlinksTo(o, longer, b, k + 1)
  {
    MissedOnce(o, frames, frames + [HIDDEN], b, k);
    SeenAgain(o, frames + [HIDDEN], f, longer, b, k + 1);
  }

  /** The blinking box keeps its one track; no two of its frames' ids are equal. */
  lemma {:induction false} BlinkRun(o: Options, d: RawDetection, k: nat) returns (frames: seq<Frame>)
    requires Inverts(o.inv) && o.iouThreshold <= 1.0 && o.maxMissedFrames >= 1 && d.bbox.w > 0.0 && d.bbox.h > 0.0
    ensures BlinksTo(o, frames, d.bbox, k) && Named(frames)
  {
    if k == 0 {
      frames := [Sighting(d, 0)];
      BlinkOnce(o, frames, d.bbox);
    } else {
      var before := BlinkRun(o, d, k - 1);
      frames := before + [HIDDEN] + [Sighting(d, 2 * k)];
      BlinkTwoMore(o, before, Sighting(d, 2 * k), frames, d.bbox, k - 1);
      NamedTwoMore(before, d, k, frames);
    }
  }

  function Sighting(d: RawDetection, n: nat): Frame { FrameInput([d], [seq(n, _ => '-')]) }

  /** Frame `n` hands out at most one id, of length `n`. */
  ghost predicate Named(frames: seq<Frame>) {
    forall n :: 0 <= n < |frames| ==> NamedBy(frames[n], n)
  }

  predicate NamedBy(f: Frame, n: nat) { |f.uuids| <= 1 && (f.uuids != [] ==> |f.uuids[0]| == n) }

  lemma NamedTwoMore(before: seq<Frame>, d: RawDetection, k: nat, frames: seq<Frame>)
    requires |before| + 1 == 2 * k && Named(before) && frames == before + [HIDDEN] + [Sighting(d, 2 * k)]
    ensures Named(frames)
  {
    assert NamedBy(HIDDEN, 2 * k - 1) && NamedBy(Sighting(d, 2 * k), 2 * k);
    forall n | 0 <= n < |frames| ensures NamedBy(frames[n], n) {
      assert n < |before| ==> NamedBy(before[n], n);
    }
  }

  lemma NamedApart(frames: seq<Frame>)
    requires Named(frames)
    ensures NeverRepeats(frames)
  {
    forall f, g, a, b |
      0 <= f < |frames| && 0 <= g < |frames| && 0 <= a < |frames[f].uuids| && 0 <= b < |frames[g].uuids|
      ensures frames[f].uuids[a] == frames[g].uuids[b] ==> f == g && a == b
    {
      assert NamedBy(frames[f], f) && NamedBy(frames[g], g);
    }
  }

  lemma BlinkReported(o: Options, frames: seq<Frame>, b: BBox, k: nat)
    requires o.minHitsToConfirm == k + 1 && k >= 1 && BlinksTo(o, frames, b, k)
    ensures var tg := DeepSort.Run(o, frames);
      |tg| == 1 && EveryOther(tg[0].feeds, k + 1) && Reported(o, frames, 0) && !InARow(tg[0].feeds, 2)
  {
    ReportedExactly(o, frames);
    NeverInARow(DeepSort.Run(o, frames)[0].feeds, k + 1);
  }

  lemma NeverInARow(feeds: seq<(nat, nat)>, k: nat)
    requires EveryOther(feeds, k)
    ensures !InARow(feeds, 2)
  {
    forall a: nat | a + 2 <= |feeds| ensures !Consecutive(feeds, a, 2) {
      assert feeds[a + 1] == (2 * (a + 1), 0) && feeds[a] == (2 * a, 0);
    }
  }

  /**
    Exactly when the documented promise holds: one hit is asked for, or no missed
    frame is survived, or nothing can ever be matched.  Otherwise a box that is
    detected in every other frame is reported without two consecutive frames.
  */
  lemma PromiseExactly(o: Options)
    requires Inverts(o.inv)
    ensures KeepsPromise(o) <==> o.minHitsToConfirm <= 1 || o.maxMissedFrames <= 0 || o.iouThreshold > 1.0
  {
    if o.minHitsToConfirm <= 1 || o.maxMissedFrames <= 0 || o.iouThreshold > 1.0 {
      forall frames: seq<Frame>, i: nat |
        NeverRepeats(frames) && i < |DeepSort.Run(o, frames)| && Reported(o, frames, i)
        ensures InARow(DeepSort.Run(o, frames)[i].feeds, o.minHitsToConfirm)
      {
        PromiseKept(o, frames, i);
      }
    } else {
      var d := RawDetection(BBox(50.0, 50.0, 20.0, 40.0), "person", 0.9);
      var frames := BlinkRun(o, d, o.minHitsToConfirm - 1);
      BlinkReported(o, frames, d.bbox, o.minHitsToConfirm - 1);
      NamedApart(frames);
      assert Reported(o, frames, 0);
      if InARow(DeepSort.Run(o, frames)[0].feeds, o.minHitsToConfirm) {
        FewerInARow(DeepSort.Run(o, frames)[0].feeds, o.minHitsToConfirm);
      }
    }
  }

  lemma FewerInARow(feeds: seq<(nat, nat)>, m: nat)
    requires m >= 2 && InARow(feeds, m)
    ensures InARow(feeds, 2)
  {
    var a: nat :| a + m <= |feeds| && Consecutive(feeds, a, m);
    assert Consecutive(feeds, a, 2);
  }

  /** Two hits asked for, one missed frame survived: a box detected in frames 0 and 2 only is reported. */
  lemma ReportedAfterGap(o: Options, b: BBox, frames: seq<Frame>)
    requires Inverts(o.inv) && o.iouThreshold == 0.3 && o.maxMissedFrames == 1 && o.minHitsToConfirm == 2
    requires b == BBox(50.0, 50.0, 20.0, 40.0) && GapAt(frames, b)
    ensures |DeepSort.Run(o, frames)| == 1 && Reported(o, frames, 0)
    ensures DeepSort.Run(o, frames)[0].feeds == [(0, 0), (2, 0)] && !InARow(DeepSort.Run(o, frames)[0].feeds, 2)
  {
    var once := GapStart(frames, b);
    BlinkOnce(o, once, b);
    BlinkTwoMore(o, once, frames[2], frames, b, 0);
    BlinkReported(o, frames, b, 1);
    TwoFeeds(DeepSort.Run(o, frames)[0].feeds);
  }

  /** One detection at `b`, nothing, and one detection at `b` again, of any classes, confidences and ids. */
  ghost predicate GapAt(frames: seq<Frame>, b: BBox) {
    |frames| == 3 && Sights(frames[0], b) && frames[1] == HIDDEN && Sights(frames[2], b)
  }

  lemma GapStart(frames: seq<Frame>, b: BBox) returns (once: seq<Frame>)
    requires GapAt(frames, b)
    ensures |once| == 1 && Sights(once[0], b) && frames == once + [HIDDEN] + [frames[2]]
  {
    once := [frames[0]];
  }

  lemma TwoFeeds(feeds: seq<(nat, nat)>)
    requires EveryOther(feeds, 2)
    ensures feeds == [(0, 0), (2, 0)]
  {
    assert feeds[0] == (0, 0) && feeds[1] == (2, 0);
  }
}
