/**
  What the visual tracker's filters hold.  In every run a live track's filter is the
  Kalman filter run from its first detection's box, with one prediction per frame
  since then and one correction in each frame that fed it; that run gives the boxes
  associated in the next frame and the boxes reported.
*/
module TrackReplay {
  import opened Wrappers
  import opened Matrix
  import opened TrackerFilter
  import opened Association
  import opened DeepSort
  import Confirmation
  import Filtering

  /** The detection that fed a track in frame `k`, if any. */
  function FeedIn(feeds: seq<(nat, nat)>, k: nat): Option<nat> {
    if feeds == [] then None
    else if feeds[|feeds| - 1].0 == k then Some(feeds[|feeds| - 1].1)
    else FeedIn(feeds[..|feeds| - 1], k)
  }

  ghost predicate InFrames(feeds: seq<(nat, nat)>, frames: seq<Frame>) {
    && feeds != []
    && (forall i :: 0 <= i < |feeds| ==> feeds[i].0 < |frames| && feeds[i].1 < |frames[feeds[i].0].ds|)
    && forall i, j :: 0 <= i < j < |feeds| ==> feeds[i].0 < feeds[j].0
  }

  lemma {:induction false} FeedInFacts(feeds: seq<(nat, nat)>, frames: seq<Frame>, k: nat)
    requires forall i :: 0 <= i < |feeds| ==> feeds[i].0 < |frames| && feeds[i].1 < |frames[feeds[i].0].ds|
    ensures FeedIn(feeds, k).Some? ==> k < |frames| && FeedIn(feeds, k).value < |frames[k].ds|
    ensures FeedIn(feeds, k).None? <==> forall i :: 0 <= i < |feeds| ==> feeds[i].0 != k
  {
    if feeds != [] { FeedInFacts(feeds[..|feeds| - 1], frames, k); }
  }

  /** The calls that `n` frames make on the filter of a track with these feeds. */
  ghost function CallsBy(frames: seq<Frame>, feeds: seq<(nat, nat)>, n: nat): seq<TrackerFilter.Step>
    requires InFrames(feeds, frames) && n <= |frames|
  {
    if n <= feeds[0].0 + 1 then []
    else
      FeedInFacts(feeds, frames, n - 1);
      var fed := FeedIn(feeds, n - 1);
      CallsBy(frames, feeds, n - 1) + [Predict] + if fed.Some? then [Update(frames[n - 1].ds[fed.value].bbox)] else []
  }

  /** The track's own filter, run from its first box with the noises of `new KalmanFilter(bbox)`. */
  ghost function Replay(inv: Mat -> Option<Mat>, frames: seq<Frame>, feeds: seq<(nat, nat)>): Option<Filter>
    requires InFrames(feeds, frames)
  {
    TrackerFilter.Run(Initial(frames[feeds[0].0].ds[feeds[0].1].bbox, 10.0), 1.0, 1.0, inv,
      CallsBy(frames, feeds, |frames|))
  }

  ghost predicate Replayed(o: Options, x: Tagged, frames: seq<Frame>) {
    InFrames(x.feeds, frames) && Replay(o.inv, frames, x.feeds) == Some(x.track.filter)
  }

  // -------------------------------------------------------------- one more frame

  /** Later frames and later feeds do not change the calls already made. */
  lemma {:induction false} CallsSettled(frames: seq<Frame>, feeds: seq<(nat, nat)>, frames': seq<Frame>,
                                        feeds': seq<(nat, nat)>, n: nat)
    requires InFrames(feeds, frames) && InFrames(feeds', frames') && n <= |frames| <= |frames'|
    requires feeds <= feeds' && (forall i :: |feeds| <= i < |feeds'| ==> feeds'[i].0 >= n)
    requires forall k :: 0 <= k < |frames| ==> frames'[k] == frames[k]
    ensures CallsBy(frames', feeds', n) == CallsBy(frames, feeds, n)
    decreases n
  {
    if n > feeds[0].0 + 1 {
      CallsSettled(frames, feeds, frames', feeds', n - 1);
      FeedInFacts(feeds, frames, n - 1);
      FeedInSettled(feeds, feeds', n - 1);
    }
  }

  lemma {:induction false} FeedInSettled(feeds: seq<(nat, nat)>, feeds': seq<(nat, nat)>, k: nat)
    requires feeds <= feeds' && forall i :: |feeds| <= i < |feeds'| ==> feeds'[i].0 > k
    ensures FeedIn(feeds', k) == FeedIn(feeds, k)
  {
    if |feeds'| > |feeds| {
      FeedInSettled(feeds, feeds'[..|feeds'| - 1], k);
    } else {
      assert feeds == feeds';
    }
  }

  /** The calls of frame `n`: a prediction, and a correction if it fed the track. */
  lemma CallsGrow(frames: seq<Frame>, feeds: seq<(nat, nat)>, f: Frame, m: Option<nat>, frames': seq<Frame>,
                  feeds': seq<(nat, nat)>)
    requires InFrames(feeds, frames) && (m.Some? ==> m.value < |f.ds|) && frames' == frames + [f]
    requires feeds' == feeds + if m.Some? then [(|frames|, m.value)] else []
    ensures InFrames(feeds', frames')
    ensures CallsBy(frames', feeds', |frames'|) == CallsBy(frames, feeds, |frames|) + [Predict] +
      if m.Some? then [Update(f.ds[m.value].bbox)] else []
  {
    var n := |frames|;
    assert frames'[n] == f && forall k :: 0 <= k < n ==> frames'[k] == frames[k];
    CallsSettled(frames, feeds, frames', feeds', n);
    FeedInFacts(feeds, frames, n);
    assert m.None? ==> feeds' == feeds;
    assert m.Some? ==> feeds'[..|feeds|] == feeds;
    assert FeedIn(feeds', n) == m;
  }

  lemma RunExtends(f: Filter, inv: Mat -> Option<Mat>, steps: seq<TrackerFilter.Step>, g: Filter,
                   step: TrackerFilter.Step, longer: seq<TrackerFilter.Step>)
    requires f.Valid() && TrackerFilter.Run(f, 1.0, 1.0, inv, steps) == Some(g) && longer == steps + [step]
    ensures g.Valid() && TrackerFilter.Run(f, 1.0, 1.0, inv, longer) == FilterStep(g, 1.0, 1.0, inv, step)
  {
    assert longer[..|steps|] == steps;
  }

  /** What one frame does to a track's filter, as calls. */
  lemma AdvanceIsCalls(o: Options, start: Filter, steps: seq<TrackerFilter.Step>, t: Track, ds: seq<RawDetection>,
                       m: Option<nat>, longer: seq<TrackerFilter.Step>)
    requires Inverts(o.inv) && start.Valid() && Sound(t.filter) && (m.Some? ==> m.value < |ds|)
    requires TrackerFilter.Run(start, 1.0, 1.0, o.inv, steps) == Some(t.filter)
    requires longer == steps + [Predict] + if m.Some? then [Update(ds[m.value].bbox)] else []
    ensures TrackerFilter.Run(start, 1.0, 1.0, o.inv, longer) == Some(Advance(o, t, ds, m).filter)
  {
    RunExtends(start, o.inv, steps, t.filter, Predict, steps + [Predict]);
    if m.Some? {
      StepSound(t.filter, o.inv, Predict);
      StepSound(PredictTrack(t).filter, o.inv, Update(ds[m.value].bbox));
      RunExtends(start, o.inv, steps + [Predict], PredictTrack(t).filter, Update(ds[m.value].bbox), longer);
    } else {
      assert longer == steps + [Predict];
    }
  }

  lemma OldReplayed(o: Options, x: Tagged, y: Tagged, frames: seq<Frame>, f: Frame, m: Option<nat>, frames': seq<Frame>)
    requires Inverts(o.inv) && Replayed(o, x, frames) && Sound(x.track.filter) && frames' == frames + [f]
    requires (m.Some? ==> m.value < |f.ds|) && y.track == Advance(o, x.track, f.ds, m)
    requires y.feeds == x.feeds + if m.Some? then [(|frames|, m.value)] else []
    ensures Replayed(o, y, frames')
  {
    CallsGrow(frames, x.feeds, f, m, frames', y.feeds);
    var start := Initial(frames[x.feeds[0].0].ds[x.feeds[0].1].bbox, 10.0);
    assert y.feeds[0] == x.feeds[0] && frames'[x.feeds[0].0] == frames[x.feeds[0].0];
    AdvanceIsCalls(o, start, CallsBy(frames, x.feeds, |frames|), x.track, f.ds, m,
      CallsBy(frames', y.feeds, |frames'|));
  }

  lemma NewReplayed(o: Options, y: Tagged, frames: seq<Frame>, f: Frame, d: nat, id: string, frames': seq<Frame>)
    requires d < |f.ds| && y.track == NewTrack(id, f.ds[d]) && y.feeds == [(|frames|, d)] && frames' == frames + [f]
    ensures Replayed(o, y, frames')
  {
    assert frames'[|frames|] == f;
  }

  lemma OldTagReplayed(o: Options, tg: seq<Tagged>, frames: seq<Frame>, f: Frame, r: Result, i: nat,
                       frames': seq<Frame>, y: Tagged)
    requires Inverts(o.inv) && Fits(r, |tg|, |f.ds|) && frames' == frames + [f]
    requires i < |tg| && Replayed(o, tg[i], frames) && Sound(tg[i].track.filter)
    requires y == TagAdvanced(o, tg, f, |frames|, r)[i]
    ensures Replayed(o, y, frames')
  {
    OldTag(o, tg, f, |frames|, r, i);
    OldReplayed(o, tg[i], y, frames, f, MatchOf(r.matches, i), frames');
  }

  lemma NewTagReplayed(o: Options, tg: seq<Tagged>, frames: seq<Frame>, f: Frame, r: Result, i: nat,
                       frames': seq<Frame>, y: Tagged)
    requires Fits(r, |tg|, |f.ds|) && frames' == frames + [f] && |tg| <= i < |tg| + |r.unmatchedDetections|
    requires y == TagAdvanced(o, tg, f, |frames|, r)[i]
    ensures Replayed(o, y, frames')
  {
    var j := i - |tg|;
    NewTag(o, tg, f, |frames|, r, j);
    NewReplayed(o, y, frames, f, r.unmatchedDetections[j], f.uuids[j], frames');
  }

  ghost predicate AllReplayed(o: Options, tg: seq<Tagged>, frames: seq<Frame>) {
    forall i :: 0 <= i < |tg| ==> Replayed(o, tg[i], frames)
  }

  ghost predicate AllSound(tg: seq<Tagged>) {
    forall i :: 0 <= i < |tg| ==> Sound(tg[i].track.filter)
  }

  lemma AdvancedReplayed(o: Options, tg: seq<Tagged>, frames: seq<Frame>, f: Frame, r: Result, frames': seq<Frame>)
    requires Inverts(o.inv) && Fits(r, |tg|, |f.ds|) && frames' == frames + [f]
    requires AllReplayed(o, tg, frames) && AllSound(tg)
    ensures AllReplayed(o, TagAdvanced(o, tg, f, |frames|, r), frames')
  {
    var all := TagAdvanced(o, tg, f, |frames|, r);
    forall i | 0 <= i < |all| ensures Replayed(o, all[i], frames') {
      if i < |tg| {
        OldTagReplayed(o, tg, frames, f, r, i, frames', all[i]);
      } else {
        NewTagReplayed(o, tg, frames, f, r, i, frames', all[i]);
      }
    }
  }

  lemma FilterReplayed(p: Tagged -> bool, o: Options, tg: seq<Tagged>, frames: seq<Frame>)
    requires AllReplayed(o, tg, frames)
    ensures AllReplayed(o, Filtering.Filter(p, tg), frames)
  {
    var live := Filtering.Filter(p, tg);
    forall i | 0 <= i < |live| ensures Replayed(o, live[i], frames) {
      assert live[i] in live;
      Filtering.FilterMember(p, tg, live[i]);
      var k :| 0 <= k < |tg| && tg[k] == live[i];
    }
  }

  // ----------------------------------------------------------------- whole runs

  /** In every run each live track's filter is its own replay. */
  lemma {:induction false} RunReplays(o: Options, frames: seq<Frame>)
    requires Inverts(o.inv)
    ensures AllReplayed(o, DeepSort.Run(o, frames), frames)
  {
    if frames != [] {
      var n := |frames| - 1;
      var init, last := frames[..n], frames[n];
      assert init + [last] == frames;
      RunReplays(o, init);
      RunUnfold(o, init, last);
      RunSounds(o, init);
      StepReplays(o, DeepSort.Run(o, init), init, last);
    }
  }

  lemma RunSounds(o: Options, frames: seq<Frame>)
    requires Inverts(o.inv)
    ensures AllSound(DeepSort.Run(o, frames))
  {
    RunIsSteps(o, frames);
    HealthyTags(DeepSort.Run(o, frames));
  }

  lemma HealthyTags(tg: seq<Tagged>)
    requires Healthy(Untag(tg))
    ensures AllSound(tg)
  {
    forall i | 0 <= i < |tg| ensures Sound(tg[i].track.filter) { assert Untag(tg)[i] == tg[i].track; }
  }

  lemma StepReplays(o: Options, tg: seq<Tagged>, frames: seq<Frame>, f: Frame)
    requires Inverts(o.inv) && AllReplayed(o, tg, frames) && AllSound(tg)
    ensures AllReplayed(o, TagStepped(o, tg, f, |frames|), frames + [f])
  {
    var r := FrameMatch(o, tg, f);
    AdvancedReplayed(o, tg, frames, f, r, frames + [f]);
    FilterReplayed(TagAlive(o), o, TagAdvanced(o, tg, f, |frames|, r), frames + [f]);
  }

  /**
    A box seen in two successive frames: each coordinate ends 21/22 of the way to the
    second sighting, with 10/22 of it as its velocity per frame.
  */
  lemma SecondSighting(b: BBox, z: BBox, inv: Mat -> Option<Mat>, k: nat)
    requires Inverts(inv) && k < 4
    ensures var f := TrackerFilter.Run(Initial(b, 10.0), 1.0, 1.0, inv, [Predict, Update(z)]);
      && f.Some?
      && f.value.state[k] == BoxVec(b)[k] + (21.0 / 22.0) * (BoxVec(z)[k] - BoxVec(b)[k])
      && f.value.state[4 + k] == (10.0 / 22.0) * (BoxVec(z)[k] - BoxVec(b)[k])
  {
    var steps := [Predict, Update(z)];
    FilterIsFourAxes(b, 10.0, 1.0, 1.0, inv, steps);
    var axes := AxisRuns(b, 10.0, 1.0, 1.0, steps);
    SecondOnAxis(BoxVec(b)[k], z, k, axes[k]);
    EmbedAxis(axes, k);
  }

  lemma SecondOnAxis(pos: real, z: BBox, k: nat, w: AxisFilter)
    requires k < 4 && w == AxisRun(AxisInitial(pos, 10.0), k, 1.0, 1.0, [Predict, Update(z)])
    ensures w.pos == pos + (21.0 / 22.0) * (BoxVec(z)[k] - pos) && w.vel == (10.0 / 22.0) * (BoxVec(z)[k] - pos)
  {
    var x, y := AxisInitial(pos, 10.0), AxisFilter(pos, 0.0, 21.0, 10.0, 11.0);
    TwoSteps(x, k, 1.0, 1.0, Predict, Update(z));
    assert AxisStep(x, k, 1.0, 1.0, Predict) == y;
    SecondCorrection(y, z, k, w);
  }

  lemma TwoSteps(x: AxisFilter, k: nat, q: real, r: real, first: TrackerFilter.Step, second: TrackerFilter.Step)
    requires k < 4 && x.Ok() && q >= 0.0 && r > 0.0
    ensures AxisRun(x, k, q, r, [first, second]) == AxisStep(AxisStep(x, k, q, r, first), k, q, r, second)
  {
    LastStep(x, k, q, r, [], first, [first]);
    LastStep(x, k, q, r, [first], second, [first, second]);
  }

  lemma LastStep(x: AxisFilter, k: nat, q: real, r: real, init: seq<TrackerFilter.Step>, last: TrackerFilter.Step,
                 steps: seq<TrackerFilter.Step>)
    requires k < 4 && x.Ok() && q >= 0.0 && r > 0.0 && steps == init + [last]
    ensures AxisRun(x, k, q, r, steps) == AxisStep(AxisRun(x, k, q, r, init), k, q, r, last)
  {
    assert steps[..|steps| - 1] == init;
  }

  lemma SecondCorrection(y: AxisFilter, z: BBox, k: nat, w: AxisFilter)
    requires k < 4 && y.vel == 0.0 && y.a == 21.0 && y.b == 10.0 && y.c == 11.0
    requires y.Ok() && w == AxisStep(y, k, 1.0, 1.0, Update(z))
    ensures w.pos == y.pos + (21.0 / 22.0) * (BoxVec(z)[k] - y.pos) && w.vel == (10.0 / 22.0) * (BoxVec(z)[k] - y.pos)
  {
    var d := BoxVec(z)[k] - y.pos;
    var t := Inverted(22.0);
    assert t * 22.0 == 1.0 && t == 1.0 / 22.0;
    assert Gains(21.0, 10.0, 1.0) == (21.0 / 22.0, 10.0 / 22.0);
    assert w == AxisCorrected(y, 21.0 / 22.0, 10.0 / 22.0, BoxVec(z)[k]);
  }

  lemma EmbedAxis(axes: seq<AxisFilter>, k: nat)
    requires |axes| == 4 && k < 4
    ensures Embed(axes).state[k] == axes[k].pos && Embed(axes).state[4 + k] == axes[k].vel
  {}

  // ------------------------------------------------------ the next frame's matching

  /** Where a track's replay expects its box in the next frame. */
  ghost predicate ExpectedBox(o: Options, x: Tagged, frames: seq<Frame>, b: BBox) {
    && InFrames(x.feeds, frames)
    && var f := Replay(o.inv, frames, x.feeds);
       f.Some? && b == BoxOf(Predicted(f.value, 1.0).state)
  }

  /** The next frame's detections are associated with the expected boxes, in order. */
  lemma MatchesExpected(o: Options, frames: seq<Frame>, f: Frame, boxes: seq<BBox>, detections: seq<BBox>)
    requires Inverts(o.inv) && |boxes| == |DeepSort.Run(o, frames)| && |detections| == |f.ds|
    requires forall i :: 0 <= i < |boxes| ==> ExpectedBox(o, DeepSort.Run(o, frames)[i], frames, boxes[i])
    requires forall d :: 0 <= d < |f.ds| ==> detections[d] == f.ds[d].bbox
    ensures FrameMatch(o, DeepSort.Run(o, frames), f) == Associated(boxes, detections, o.iouThreshold)
  {
    var tg := DeepSort.Run(o, frames);
    RunReplays(o, frames);
    ExpectedBoxes(o, tg, frames, boxes);
    assert DetectionBoxes(f.ds) == detections;
  }

  lemma ExpectedBoxes(o: Options, tg: seq<Tagged>, frames: seq<Frame>, boxes: seq<BBox>)
    requires AllReplayed(o, tg, frames) && |boxes| == |tg|
    requires forall i :: 0 <= i < |boxes| ==> ExpectedBox(o, tg[i], frames, boxes[i])
    ensures Boxes(PredictAll(Untag(tg))) == boxes
  {
    forall i | 0 <= i < |tg| ensures Boxes(PredictAll(Untag(tg)))[i] == boxes[i] {
      OneExpectedBox(o, tg[i], frames, boxes[i]);
    }
  }

  lemma OneExpectedBox(o: Options, x: Tagged, frames: seq<Frame>, b: BBox)
    requires Replayed(o, x, frames) && ExpectedBox(o, x, frames, b)
    ensures b == BoxOf(PredictTrack(x.track).filter.state)
  {}

  /** Track `i` is fed by the detection it was associated with, and by no other of that frame. */
  lemma FedByMatch(o: Options, frames: seq<Frame>, f: Frame, i: nat, d: nat)
    requires i < |DeepSort.Run(o, frames)|
    ensures var tg := DeepSort.Run(o, frames);
      var r := FrameMatch(o, tg, f);
      (|frames|, d) in TagAdvanced(o, tg, f, |frames|, r)[i].feeds <==>
      exists k :: 0 <= k < |r.matches| && r.matches[k].track == i && r.matches[k].detection == d
  {
    var tg := DeepSort.Run(o, frames);
    var r := FrameMatch(o, tg, f);
    RunTagsOk(o, frames);
    OldFeeds(tg, frames);
    OldTag(o, tg, f, |frames|, r, i);
    MatchOfFacts(r.matches, i);
    OnlyNewFeed(tg[i].feeds, |frames|, MatchOf(r.matches, i), d);
    if k: nat :| k < |r.matches| && r.matches[k].track == i && r.matches[k].detection == d {
      MatchOfPair(r.matches, k);
    }
  }

  lemma OnlyNewFeed(feeds: seq<(nat, nat)>, n: nat, m: Option<nat>, d: nat)
    requires forall p :: p in feeds ==> p.0 < n
    ensures (n, d) in feeds + (if m.Some? then [(n, m.value)] else []) <==> m == Some(d)
  {}

  // ------------------------------------------------------------------ the reports

  /** What is reported of a track, from its feeds and the frames alone. */
  ghost predicate ReportOf(o: Options, x: Tagged, frames: seq<Frame>, r: TrackedObject) {
    && InFrames(x.feeds, frames) && x.born.0 < |frames| && x.born.1 < |frames[x.born.0].uuids|
    && var first, last := x.feeds[0], x.feeds[|x.feeds| - 1];
       var f := Replay(o.inv, frames, x.feeds);
    && f.Some? && r.bbox == BBox(f.value.state[0], f.value.state[1], f.value.state[2], f.value.state[3])
    && r.velocity == Velocity(f.value.state[4], f.value.state[5])
    && x.born.0 == first.0 && r.trackId == frames[x.born.0].uuids[x.born.1]
    && r.classification == frames[last.0].ds[last.1].classification
    && r.confidence == frames[last.0].ds[last.1].confidence
    && r.framesSinceUpdate == |frames| - 1 - last.0 && r.age == |frames| - first.0
  }

  lemma ReportIs(o: Options, x: Tagged, frames: seq<Frame>)
    requires Replayed(o, x, frames) && TagOk(x, frames)
    ensures ReportOf(o, x, frames, Report(x.track))
  {}

  /** After any frames exactly the tracks that enough detections fed are reported, in order, each as its replay says. */
  lemma ReportsExactly(o: Options, frames: seq<Frame>)
    requires Inverts(o.inv)
    ensures var fed := Filtering.Filter(Confirmation.FedEnough(o), DeepSort.Run(o, frames));
      var rs := Reports(Confirmed(o, RunTracks(o, frames)));
      |rs| == |fed| && forall i :: 0 <= i < |rs| ==> ReportOf(o, fed[i], frames, rs[i])
  {
    var tg := DeepSort.Run(o, frames);
    var fed := Filtering.Filter(Confirmation.FedEnough(o), tg);
    RunIsSteps(o, frames);
    RunReplays(o, frames);
    RunTagsOk(o, frames);
    Confirmation.ReportedExactly(o, frames);
    assert Confirmed(o, RunTracks(o, frames)) == Untag(fed);
    FedReports(o, tg, frames);
  }

  lemma FedReports(o: Options, tg: seq<Tagged>, frames: seq<Frame>)
    requires AllReplayed(o, tg, frames) && TagsOk(tg, frames)
    ensures var fed := Filtering.Filter(Confirmation.FedEnough(o), tg);
      forall i :: 0 <= i < |fed| ==> ReportOf(o, fed[i], frames, Reports(Untag(fed))[i])
  {
    var p := Confirmation.FedEnough(o);
    var fed := Filtering.Filter(p, tg);
    FilterReplayed(p, o, tg, frames);
    forall i | 0 <= i < |fed| ensures ReportOf(o, fed[i], frames, Reports(Untag(fed))[i]) {
      FedIsOk(p, tg, frames, i);
      ReportIs(o, fed[i], frames);
    }
  }

  lemma FedIsOk(p: Tagged -> bool, tg: seq<Tagged>, frames: seq<Frame>, i: nat)
    requires TagsOk(tg, frames) && i < |Filtering.Filter(p, tg)|
    ensures TagOk(Filtering.Filter(p, tg)[i], frames)
  {
    var x := Filtering.Filter(p, tg)[i];
    assert x in Filtering.Filter(p, tg);
    Filtering.FilterMember(p, tg, x);
    var k :| 0 <= k < |tg| && tg[k] == x;
  }
}
