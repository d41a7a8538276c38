/**
  The per-frame loop of the visual tracker: predict every track, associate, update
  the matched tracks, age the others, start new ones, drop the stale ones.
  `Tagged` runs the same loop while remembering which detections fed each track;
  over any sequence of frames this gives every counter its meaning and injects the
  live tracks into the recent detections.
*/
module DeepSort {
  import opened Wrappers
  import opened Matrix
  import opened TrackerFilter
  import opened Association
  import Filtering

  datatype RawDetection = RawDetection(bbox: BBox, classification: string, confidence: real)

  datatype Track = Track(id: string, filter: ValidFilter, classification: string, confidence: real,
                         framesSinceUpdate: nat, age: nat, hits: nat)

  datatype TrackedObject = TrackedObject(trackId: string, bbox: BBox, velocity: Velocity, classification: string,
                                         confidence: real, framesSinceUpdate: nat, age: nat)

  /** The constructor's options, and mathjs's matrix inversion. */
  datatype Options = Options(iouThreshold: real, maxMissedFrames: int, minHitsToConfirm: int, inv: Mat -> Option<Mat>)

  /** The noises `new KalmanFilter(bbox)` uses. */
  const PROCESS_NOISE: real := 1.0
  const MEASUREMENT_NOISE: real := 1.0
  const INITIAL_UNCERTAINTY: real := 10.0

  // ----------------------------------------------------- filters never fail

  /** A filter reached through the class's own methods: four sound axis filters. */
  ghost predicate Sound(f: Filter) {
    exists axes: seq<AxisFilter> :: SameCov(axes) && AllOk(axes) && f == Embed(axes)
  }

  lemma InitialSound(b: BBox)
    ensures Sound(Initial(b, INITIAL_UNCERTAINTY))
  {
    ghost var inv: Mat -> Option<Mat> := M => None;
    var axes := AxisRuns(b, INITIAL_UNCERTAINTY, PROCESS_NOISE, MEASUREMENT_NOISE, []);
    ScaledIdentityBlocks(INITIAL_UNCERTAINTY);
    assert Initial(b, INITIAL_UNCERTAINTY).state == Embed(axes).state;
    assert SameCov(axes);
  }

  lemma StepSound(f: Filter, inv: Mat -> Option<Mat>, step: TrackerFilter.Step)
    requires Sound(f) && Inverts(inv)
    ensures var f' := FilterStep(f, PROCESS_NOISE, MEASUREMENT_NOISE, inv, step);
      f'.Some? && Sound(f'.value)
  {
    var axes: seq<AxisFilter> :| SameCov(axes) && AllOk(axes) && f == Embed(axes);
    StepRefines(axes, PROCESS_NOISE, MEASUREMENT_NOISE, inv, step);
    var axes' := AxesStep(axes, PROCESS_NOISE, MEASUREMENT_NOISE, step);
    assert SameCov(axes') && AllOk(axes');
  }

  // ------------------------------------------------------- one track's frame

  ghost predicate Healthy(ts: seq<Track>) {
    forall i :: 0 <= i < |ts| ==> Sound(ts[i].filter)
  }

  function PredictTrack(t: Track): Track
  {
    t.(filter := Predicted(t.filter, PROCESS_NOISE))
  }

  /** A matched track; the filter stays as it is where the original would have thrown. */
  function FeedTrack(o: Options, t: Track, d: RawDetection): Track
  {
    var f := Updated(t.filter, MEASUREMENT_NOISE, d.bbox, o.inv);
    Track(t.id, if f.Some? then f.value else t.filter, d.classification, d.confidence, 0, t.age + 1, t.hits + 1)
  }

  function MissTrack(t: Track): Track {
    t.(framesSinceUpdate := t.framesSinceUpdate + 1, age := t.age + 1)
  }

  function NewTrack(id: string, d: RawDetection): Track {
    Track(id, Initial(d.bbox, INITIAL_UNCERTAINTY), d.classification, d.confidence, 0, 1, 1)
  }

  /** The detection paired with track `t`, if any. */
  function MatchOf(ms: seq<Pair>, t: nat): Option<nat> {
    if ms == [] then None
    else if ms[0].track == t then Some(ms[0].detection)
    else MatchOf(ms[1..], t)
  }

  lemma {:induction false} MatchOfFacts(ms: seq<Pair>, t: nat)
    ensures MatchOf(ms, t).Some? <==> t in Tracks(ms)
    ensures MatchOf(ms, t).Some? ==>
        exists i :: 0 <= i < |ms| && ms[i].track == t && ms[i].detection == MatchOf(ms, t).value
  {
    if ms != [] && ms[0].track != t {
      MatchOfFacts(ms[1..], t);
      assert forall i :: 1 <= i < |ms| ==> ms[1..][i - 1] == ms[i];
      if MatchOf(ms[1..], t).Some? {
        var i :| 0 <= i < |ms[1..]| && ms[1..][i].track == t && ms[1..][i].detection == MatchOf(ms, t).value;
        assert ms[i + 1] == ms[1..][i];
      }
      if t in Tracks(ms) {
        var i :| 0 <= i < |ms| && ms[i].track == t;
        assert ms[1..][i - 1].track == t;
      }
    }
  }

  lemma {:induction false} MatchOfPair(ms: seq<Pair>, a: nat)
    requires OneToOne(ms) && a < |ms|
    ensures MatchOf(ms, ms[a].track) == Some(ms[a].detection)
  {
    if a > 0 {
      assert !Conflict(ms[0], ms[a]);
      forall i, j | 0 <= i < j < |ms[1..]| ensures !Conflict(ms[1..][i], ms[1..][j]) {
        assert ms[1..][i] == ms[i + 1] && ms[1..][j] == ms[j + 1];
      }
      MatchOfPair(ms[1..], a - 1);
    }
  }

  // -------------------------------------------------------------- one frame

  predicate Alive(o: Options, t: Track) { t.framesSinceUpdate <= o.maxMissedFrames }
  function IsAlive(o: Options): Track -> bool { (t: Track) => Alive(o, t) }
  function IsConfirmed(o: Options): Track -> bool { (t: Track) => t.hits >= o.minHitsToConfirm }

  function Boxes(ts: seq<Track>): (bs: seq<BBox>)
    ensures |bs| == |ts|
  {
    seq(|ts|, i requires 0 <= i < |ts| => BoxOf(ts[i].filter.state))
  }

  function DetectionBoxes(ds: seq<RawDetection>): (bs: seq<BBox>)
    ensures |bs| == |ds|
  {
    seq(|ds|, i requires 0 <= i < |ds| => ds[i].bbox)
  }

  function PredictAll(ts: seq<Track>): (ps: seq<Track>)
    ensures |ps| == |ts|
  {
    seq(|ts|, i requires 0 <= i < |ts| => PredictTrack(ts[i]))
  }

  /** The association of this frame. */
  function Matched(o: Options, ts: seq<Track>, ds: seq<RawDetection>): Result
  {
    Associated(Boxes(PredictAll(ts)), DetectionBoxes(ds), o.iouThreshold)
  }

  /** What the tracker uses of an association of `nt` tracks with `nd` detections. */
  ghost predicate Fits(r: Result, nt: nat, nd: nat) {
    && OneToOne(r.matches)
    && (forall i :: 0 <= i < |r.matches| ==> r.matches[i].track < nt && r.matches[i].detection < nd)
    && (forall t: nat :: t in r.unmatchedTracks <==> t < nt && t !in Tracks(r.matches))
    && (forall d: nat :: d in r.unmatchedDetections <==> d < nd && d !in Detections(r.matches))
    && (forall i, j :: 0 <= i < j < |r.unmatchedTracks| ==> r.unmatchedTracks[i] != r.unmatchedTracks[j])
    && (forall i, j :: 0 <= i < j < |r.unmatchedDetections| ==> r.unmatchedDetections[i] != r.unmatchedDetections[j])
    && (forall j :: 0 <= j < |r.unmatchedTracks| ==> r.unmatchedTracks[j] < nt)
    && (forall j :: 0 <= j < |r.unmatchedDetections| ==> r.unmatchedDetections[j] < nd)
    && |r.unmatchedDetections| <= nd
  }

  lemma MatchedFits(o: Options, ts: seq<Track>, ds: seq<RawDetection>)
    ensures Fits(Matched(o, ts, ds), |ts|, |ds|)
  {
    var r := Matched(o, ts, ds);
    AssociateIsStable(Boxes(PredictAll(ts)), DetectionBoxes(ds), o.iouThreshold);
    forall i | 0 <= i < |r.matches| ensures r.matches[i].track < |ts| && r.matches[i].detection < |ds| {
      assert r.matches[i] in r.matches;
    }
    forall j | 0 <= j < |r.unmatchedTracks| ensures r.unmatchedTracks[j] < |ts| {
      assert r.unmatchedTracks[j] in r.unmatchedTracks;
    }
    forall j | 0 <= j < |r.unmatchedDetections| ensures r.unmatchedDetections[j] < |ds| {
      assert r.unmatchedDetections[j] in r.unmatchedDetections;
    }
    UnusedLength(|ds|, Detections(r.matches));
  }

  lemma {:induction false} UnusedLength(n: nat, used: set<nat>)
    ensures |Unused(n, used)| <= n
  {
    if n > 0 { UnusedLength(n - 1, used); }
  }

  /** Track `i` after this frame's association, matched or missed. */
  function Advance(o: Options, t: Track, ds: seq<RawDetection>, m: Option<nat>): Track
    requires m.Some? ==> m.value < |ds|
  {
    var p := PredictTrack(t);
    if m.Some? then FeedTrack(o, p, ds[m.value]) else MissTrack(p)
  }

  /** All tracks before the stale ones are dropped: the old ones in place, the new ones behind. */
  function Advanced(o: Options, ts: seq<Track>, ds: seq<RawDetection>, uuids: seq<string>, r: Result): (ts': seq<Track>)
    requires |uuids| == |ds| && Fits(r, |ts|, |ds|)
    ensures |ts'| == |ts| + |r.unmatchedDetections|
  {
    seq(|ts|, i requires 0 <= i < |ts| => MatchOfFacts(r.matches, i); Advance(o, ts[i], ds, MatchOf(r.matches, i))) +
    seq(|r.unmatchedDetections|,
      j requires 0 <= j < |r.unmatchedDetections| => NewTrack(uuids[j], ds[r.unmatchedDetections[j]]))
  }

  function Stepped(o: Options, ts: seq<Track>, ds: seq<RawDetection>, uuids: seq<string>): (ts': seq<Track>)
    requires |uuids| == |ds|
  {
    MatchedFits(o, ts, ds);
    Survivors(o, Advanced(o, ts, ds, uuids, Matched(o, ts, ds)))
  }

  /** The two `filter` calls of `step`. */
  function Survivors(o: Options, ts: seq<Track>): seq<Track> { Filtering.Filter(IsAlive(o), ts) }
  function Confirmed(o: Options, ts: seq<Track>): seq<Track> { Filtering.Filter(IsConfirmed(o), ts) }

  lemma AdvanceSound(o: Options, t: Track, ds: seq<RawDetection>, m: Option<nat>)
    requires Sound(t.filter) && (m.Some? ==> m.value < |ds|) && Inverts(o.inv)
    ensures Sound(Advance(o, t, ds, m).filter)
  {
    StepSound(t.filter, o.inv, Predict);
    if m.Some? { StepSound(PredictTrack(t).filter, o.inv, Update(ds[m.value].bbox)); }
  }

  lemma AdvancedOld(o: Options, ts: seq<Track>, ds: seq<RawDetection>, uuids: seq<string>, r: Result, i: nat)
    requires |uuids| == |ds| && Fits(r, |ts|, |ds|) && i < |ts|
    ensures var m := MatchOf(r.matches, i);
      (m.Some? ==> m.value < |ds|) && Advanced(o, ts, ds, uuids, r)[i] == Advance(o, ts[i], ds, m)
  {
    MatchOfFacts(r.matches, i);
  }

  lemma AdvancedNew(o: Options, ts: seq<Track>, ds: seq<RawDetection>, uuids: seq<string>, r: Result, j: nat)
    requires |uuids| == |ds| && Fits(r, |ts|, |ds|) && j < |r.unmatchedDetections|
    ensures Advanced(o, ts, ds, uuids, r)[|ts| + j] == NewTrack(uuids[j], ds[r.unmatchedDetections[j]])
  {}

  lemma OldSound(o: Options, ts: seq<Track>, ds: seq<RawDetection>, uuids: seq<string>, r: Result, i: nat)
    requires |uuids| == |ds| && Fits(r, |ts|, |ds|) && i < |ts| && Sound(ts[i].filter) && Inverts(o.inv)
    ensures Sound(Advanced(o, ts, ds, uuids, r)[i].filter)
  {
    AdvancedOld(o, ts, ds, uuids, r, i);
    AdvanceSound(o, ts[i], ds, MatchOf(r.matches, i));
  }

  lemma NewSound(o: Options, ts: seq<Track>, ds: seq<RawDetection>, uuids: seq<string>, r: Result, j: nat)
    requires |uuids| == |ds| && Fits(r, |ts|, |ds|) && j < |r.unmatchedDetections|
    ensures Sound(Advanced(o, ts, ds, uuids, r)[|ts| + j].filter)
  {
    AdvancedNew(o, ts, ds, uuids, r, j);
    InitialSound(ds[r.unmatchedDetections[j]].bbox);
  }

  lemma AdvancedHealthy(o: Options, ts: seq<Track>, ds: seq<RawDetection>, uuids: seq<string>, r: Result)
    requires Healthy(ts) && |uuids| == |ds| && Fits(r, |ts|, |ds|) && Inverts(o.inv)
    ensures Healthy(Advanced(o, ts, ds, uuids, r))
  {
    forall i | 0 <= i < |Advanced(o, ts, ds, uuids, r)| ensures Sound(Advanced(o, ts, ds, uuids, r)[i].filter) {
      if i < |ts| { OldSound(o, ts, ds, uuids, r, i); } else { NewSound(o, ts, ds, uuids, r, i - |ts|); }
    }
  }

  lemma SurvivorsHealthy(o: Options, ts: seq<Track>)
    requires Healthy(ts)
    ensures Healthy(Survivors(o, ts))
  {
    var live := Survivors(o, ts);
    forall i | 0 <= i < |live| ensures Sound(live[i].filter) {
      assert live[i] in live;
      Filtering.FilterMember(IsAlive(o), ts, live[i]);
      var k :| 0 <= k < |ts| && ts[k] == live[i];
    }
  }

  /** A frame never makes a filter throw, and leaves every filter sound. */
  lemma SteppedHealthy(o: Options, ts: seq<Track>, ds: seq<RawDetection>, uuids: seq<string>)
    requires Healthy(ts) && |uuids| == |ds| && Inverts(o.inv)
    ensures Healthy(Stepped(o, ts, ds, uuids))
  {
    MatchedFits(o, ts, ds);
    AdvancedHealthy(o, ts, ds, uuids, Matched(o, ts, ds));
    SurvivorsHealthy(o, Advanced(o, ts, ds, uuids, Matched(o, ts, ds)));
  }

  // ------------------------------------------------------------- whole runs

  /** One call of `step`: the detections, and the ids `randomUUID` would hand out. */
  datatype FrameInput = FrameInput(ds: seq<RawDetection>, uuids: seq<string>)
  type Frame = f: FrameInput | |f.uuids| == |f.ds| witness FrameInput([], [])

  /** A track, which new id it took in which frame, and the (frame, detection) pairs that fed it. */
  datatype Tagged = Tagged(track: Track, born: (nat, nat), feeds: seq<(nat, nat)>)

  ghost function Untag(tg: seq<Tagged>): (ts: seq<Track>)
    ensures |ts| == |tg|
  {
    seq(|tg|, i requires 0 <= i < |tg| => tg[i].track)
  }

  /** `Advanced` with tags; `n` is the number of the frame. */
  ghost function TagAdvanced(o: Options, tg: seq<Tagged>, f: Frame, n: nat, r: Result): (tg': seq<Tagged>)
    requires Fits(r, |tg|, |f.ds|)
    ensures Untag(tg') == Advanced(o, Untag(tg), f.ds, f.uuids, r)
  {
    var ts' := Advanced(o, Untag(tg), f.ds, f.uuids, r);
    var tg' := seq(|ts'|, i requires 0 <= i < |ts'| =>
      if i < |tg| then
        var m := MatchOf(r.matches, i);
        Tagged(ts'[i], tg[i].born, tg[i].feeds + (if m.Some? then [(n, m.value)] else []))
      else Tagged(ts'[i], (n, i - |tg|), [(n, r.unmatchedDetections[i - |tg|])]));
    assert Untag(tg') == ts';
    tg'
  }

  function TagAlive(o: Options): Tagged -> bool { (x: Tagged) => Alive(o, x.track) }

  /** The association `step` uses. */
  ghost function FrameMatch(o: Options, tg: seq<Tagged>, f: Frame): (r: Result)
    ensures Fits(r, |tg|, |f.ds|)
  {
    MatchedFits(o, Untag(tg), f.ds);
    Matched(o, Untag(tg), f.ds)
  }

  ghost function TagStepped(o: Options, tg: seq<Tagged>, f: Frame, n: nat): seq<Tagged> {
    Filtering.Filter(TagAlive(o), TagAdvanced(o, tg, f, n, FrameMatch(o, tg, f)))
  }

  lemma {:induction false} UntagFilter(o: Options, tg: seq<Tagged>)
    ensures Untag(Filtering.Filter(TagAlive(o), tg)) == Survivors(o, Untag(tg))
  {
    if tg != [] {
      UntagFilter(o, tg[..|tg| - 1]);
      assert Untag(tg)[..|tg| - 1] == Untag(tg[..|tg| - 1]);
    }
  }

  /** The tags ride along: forgetting them gives the code's own step. */
  lemma TagsRideAlong(o: Options, tg: seq<Tagged>, f: Frame, n: nat)
    ensures Untag(TagStepped(o, tg, f, n)) == Stepped(o, Untag(tg), f.ds, f.uuids)
  {
    UntagFilter(o, TagAdvanced(o, tg, f, n, FrameMatch(o, tg, f)));
  }

  /** All frames so far, from an empty tracker. */
  ghost function Run(o: Options, frames: seq<Frame>): (tg: seq<Tagged>)
  {
    if frames == [] then []
    else
      var n := |frames| - 1;
      TagStepped(o, Run(o, frames[..n]), frames[n], n)
  }

  /** The tracker's own state after all frames. */
  ghost function RunTracks(o: Options, frames: seq<Frame>): seq<Track> {
    if frames == [] then []
    else
      var n := |frames| - 1;
      Stepped(o, RunTracks(o, frames[..n]), frames[n].ds, frames[n].uuids)
  }

  /** Forgetting the tags gives the tracker's own state, and no filter ever threw on the way. */
  lemma {:induction false} RunIsSteps(o: Options, frames: seq<Frame>)
    requires Inverts(o.inv)
    ensures Untag(Run(o, frames)) == RunTracks(o, frames) && Healthy(RunTracks(o, frames))
  {
    if frames != [] {
      var n := |frames| - 1;
      RunIsSteps(o, frames[..n]);
      TagsRideAlong(o, Run(o, frames[..n]), frames[n], n);
      SteppedHealthy(o, RunTracks(o, frames[..n]), frames[n].ds, frames[n].uuids);
    }
  }

  /** What a track's counters mean. */
  ghost predicate TagOk(x: Tagged, frames: seq<Frame>) {
    var n, k := |frames|, |x.feeds|;
    && k > 0
    && (forall i :: 0 <= i < k ==> x.feeds[i].0 < n && x.feeds[i].1 < |frames[x.feeds[i].0].ds|)
    && (forall i, j :: 0 <= i < j < k ==> x.feeds[i].0 < x.feeds[j].0)
    && x.track.hits == k
    && x.track.age == n - x.feeds[0].0
    && x.track.framesSinceUpdate == n - 1 - x.feeds[k - 1].0
    && x.born.0 == x.feeds[0].0 && x.born.1 < |frames[x.born.0].uuids| && x.track.id == frames[x.born.0].uuids[x.born.1]
    && var d := frames[x.feeds[k - 1].0].ds[x.feeds[k - 1].1];
       x.track.classification == d.classification && x.track.confidence == d.confidence
  }

  ghost predicate Apart(x: Tagged, y: Tagged) {
    x.born != y.born && forall p :: p in x.feeds ==> p !in y.feeds
  }

  /** No detection feeds two tracks, and no two tracks take the same new id. */
  ghost predicate Separate(tg: seq<Tagged>) {
    forall i, j :: 0 <= i < j < |tg| ==> Apart(tg[i], tg[j])
  }

  ghost predicate TagsOk(tg: seq<Tagged>, frames: seq<Frame>) {
    Separate(tg) && forall i :: 0 <= i < |tg| ==> TagOk(tg[i], frames)
  }

  lemma MatchesApart(ms: seq<Pair>, i: nat, j: nat)
    requires OneToOne(ms) && i != j && MatchOf(ms, i).Some? && MatchOf(ms, j).Some?
    ensures MatchOf(ms, i).value != MatchOf(ms, j).value
  {
    MatchOfFacts(ms, i);
    MatchOfFacts(ms, j);
    var a :| 0 <= a < |ms| && ms[a].track == i && ms[a].detection == MatchOf(ms, i).value;
    var b :| 0 <= b < |ms| && ms[b].track == j && ms[b].detection == MatchOf(ms, j).value;
    assert if a < b then !Conflict(ms[a], ms[b]) else !Conflict(ms[b], ms[a]);
  }

  /** One more frame, matched to detection `m` or missed. */
  lemma TagExtends(x: Tagged, y: Tagged, frames: seq<Frame>, f: Frame, m: Option<nat>)
    requires TagOk(x, frames) && (m.Some? ==> m.value < |f.ds|)
    requires y.born == x.born && y.track.id == x.track.id && y.track.age == x.track.age + 1
    requires m.None? ==> y.feeds == x.feeds && y.track.hits == x.track.hits
    requires m.None? ==> y.track.framesSinceUpdate == x.track.framesSinceUpdate + 1
    requires m.None? ==> y.track.classification == x.track.classification && y.track.confidence == x.track.confidence
    requires m.Some? ==> y.feeds == x.feeds + [(|frames|, m.value)] && y.track.hits == x.track.hits + 1
    requires m.Some? ==> y.track.framesSinceUpdate == 0
    requires m.Some? ==> y.track.classification == f.ds[m.value].classification
    requires m.Some? ==> y.track.confidence == f.ds[m.value].confidence
    ensures TagOk(y, frames + [f])
  {
    var frames' := frames + [f];
    assert forall k :: 0 <= k < |frames| ==> frames'[k] == frames[k];
    assert frames'[|frames|] == f;
  }

  lemma TagStarts(y: Tagged, frames: seq<Frame>, f: Frame, j: nat, d: nat)
    requires j < |f.uuids| && d < |f.ds|
    requires y.track == NewTrack(f.uuids[j], f.ds[d]) && y.born == (|frames|, j) && y.feeds == [(|frames|, d)]
    ensures TagOk(y, frames + [f])
  {
    assert (frames + [f])[|frames|] == f;
  }

  lemma OldTag(o: Options, tg: seq<Tagged>, f: Frame, n: nat, r: Result, i: nat)
    requires Fits(r, |tg|, |f.ds|) && i < |tg|
    ensures var m := MatchOf(r.matches, i);
      var y := TagAdvanced(o, tg, f, n, r)[i];
      && (m.Some? ==> m.value < |f.ds|) && y.born == tg[i].born
      && y.track == Advance(o, tg[i].track, f.ds, m) &&
        y.feeds == tg[i].feeds + (if m.Some? then [(n, m.value)] else [])
  {
    AdvancedOld(o, Untag(tg), f.ds, f.uuids, r, i);
  }

  lemma NewTag(o: Options, tg: seq<Tagged>, f: Frame, n: nat, r: Result, j: nat)
    requires Fits(r, |tg|, |f.ds|) && j < |r.unmatchedDetections|
    ensures var d := r.unmatchedDetections[j];
      TagAdvanced(o, tg, f, n, r)[|tg| + j] == Tagged(NewTrack(f.uuids[j], f.ds[d]), (n, j), [(n, d)])
  {}

  /** The pairs of this frame, whichever track they go to, are all different. */
  lemma AdvancedApart(o: Options, tg: seq<Tagged>, frames: seq<Frame>, f: Frame, r: Result, i: nat, j: nat)
    requires TagsOk(tg, frames) && Fits(r, |tg|, |f.ds|)
    requires i < j < |tg| + |r.unmatchedDetections|
    ensures Apart(TagAdvanced(o, tg, f, |frames|, r)[i], TagAdvanced(o, tg, f, |frames|, r)[j])
  {
    OldFeeds(tg, frames);
    if j < |tg| {
      OldOldApart(o, tg, frames, f, r, i, j);
    } else if i < |tg| {
      OldNewApart(o, tg, frames, f, r, i, j - |tg|);
    } else {
      NewNewApart(o, tg, f, |frames|, r, i - |tg|, j - |tg|);
    }
  }

  lemma NewNewApart(o: Options, tg: seq<Tagged>, f: Frame, n: nat, r: Result, i: nat, j: nat)
    requires Fits(r, |tg|, |f.ds|) && i < j < |r.unmatchedDetections|
    ensures Apart(TagAdvanced(o, tg, f, n, r)[|tg| + i], TagAdvanced(o, tg, f, n, r)[|tg| + j])
  {
    NewTag(o, tg, f, n, r, i);
    NewTag(o, tg, f, n, r, j);
  }

  lemma OldOldApart(o: Options, tg: seq<Tagged>, frames: seq<Frame>, f: Frame, r: Result, i: nat, j: nat)
    requires TagsOk(tg, frames) && Fits(r, |tg|, |f.ds|) && i < j < |tg|
    requires forall i, p :: 0 <= i < |tg| && p in tg[i].feeds ==> p.0 < |frames|
    ensures Apart(TagAdvanced(o, tg, f, |frames|, r)[i], TagAdvanced(o, tg, f, |frames|, r)[j])
  {
    OldTag(o, tg, f, |frames|, r, i);
    OldTag(o, tg, f, |frames|, r, j);
    var a, b := MatchOf(r.matches, i), MatchOf(r.matches, j);
    if a.Some? && b.Some? { MatchesApart(r.matches, i, j); }
    assert Apart(tg[i], tg[j]);
    var all := TagAdvanced(o, tg, f, |frames|, r);
    StillApart(tg[i], tg[j], all[i], all[j], |frames|, a, b);
  }

  /** Two tracks fed different detections of frame `n`, if any, stay apart. */
  lemma StillApart(x: Tagged, y: Tagged, x': Tagged, y': Tagged, n: nat, a: Option<nat>, b: Option<nat>)
    requires Apart(x, y) && x'.born == x.born && y'.born == y.born && (a.Some? && b.Some? ==> a != b)
    requires x'.feeds == x.feeds + (if a.Some? then [(n, a.value)] else [])
    requires y'.feeds == y.feeds + (if b.Some? then [(n, b.value)] else [])
    requires (forall p :: p in x.feeds ==> p.0 < n) && (forall p :: p in y.feeds ==> p.0 < n)
    ensures Apart(x', y')
  {}

  lemma OldNewApart(o: Options, tg: seq<Tagged>, frames: seq<Frame>, f: Frame, r: Result, i: nat, j: nat)
    requires TagsOk(tg, frames) && Fits(r, |tg|, |f.ds|) && i < |tg| && j < |r.unmatchedDetections|
    requires forall i, p :: 0 <= i < |tg| && p in tg[i].feeds ==> p.0 < |frames|
    ensures Apart(TagAdvanced(o, tg, f, |frames|, r)[i], TagAdvanced(o, tg, f, |frames|, r)[|tg| + j])
  {
    var m := MatchOf(r.matches, i);
    OldTag(o, tg, f, |frames|, r, i);
    NewTag(o, tg, f, |frames|, r, j);
    assert TagOk(tg[i], frames);
    if m.Some? { MatchedIsUsed(r, |tg|, |f.ds|, i, j); }
    StillApart(tg[i], Tagged(tg[i].track, (|frames|, j), []), TagAdvanced(o, tg, f, |frames|, r)[i],
               TagAdvanced(o, tg, f, |frames|, r)[|tg| + j], |frames|, m, Some(r.unmatchedDetections[j]));
  }

  lemma MatchedIsUsed(r: Result, nt: nat, nd: nat, i: nat, j: nat)
    requires Fits(r, nt, nd) && i < nt && j < |r.unmatchedDetections| && MatchOf(r.matches, i).Some?
    ensures MatchOf(r.matches, i).value != r.unmatchedDetections[j]
  {
    MatchOfFacts(r.matches, i);
    assert r.unmatchedDetections[j] in r.unmatchedDetections;
    var a :| 0 <= a < |r.matches| && r.matches[a].track == i && r.matches[a].detection == MatchOf(r.matches, i).value;
    assert r.matches[a].detection in Detections(r.matches);
  }

  lemma OldFeeds(tg: seq<Tagged>, frames: seq<Frame>)
    requires TagsOk(tg, frames)
    ensures forall i, p :: 0 <= i < |tg| && p in tg[i].feeds ==> p.0 < |frames|
  {
    forall i, p | 0 <= i < |tg| && p in tg[i].feeds ensures p.0 < |frames| {
      assert TagOk(tg[i], frames);
      var k :| 0 <= k < |tg[i].feeds| && tg[i].feeds[k] == p;
    }
  }

  lemma AdvancedTagOk(o: Options, tg: seq<Tagged>, frames: seq<Frame>, f: Frame, r: Result, i: nat)
    requires TagsOk(tg, frames) && Fits(r, |tg|, |f.ds|) && i < |tg| + |r.unmatchedDetections|
    ensures TagOk(TagAdvanced(o, tg, f, |frames|, r)[i], frames + [f])
  {
    var n := |frames|;
    var y := TagAdvanced(o, tg, f, n, r)[i];
    if i < |tg| {
      OldTag(o, tg, f, n, r, i);
      TagExtends(tg[i], y, frames, f, MatchOf(r.matches, i));
    } else {
      NewTag(o, tg, f, n, r, i - |tg|);
      TagStarts(y, frames, f, i - |tg|, r.unmatchedDetections[i - |tg|]);
    }
  }

  lemma AdvancedTagsOk(o: Options, tg: seq<Tagged>, frames: seq<Frame>, f: Frame, r: Result)
    requires TagsOk(tg, frames) && Fits(r, |tg|, |f.ds|)
    ensures TagsOk(TagAdvanced(o, tg, f, |frames|, r), frames + [f])
  {
    var tg' := TagAdvanced(o, tg, f, |frames|, r);
    forall i | 0 <= i < |tg'| ensures TagOk(tg'[i], frames + [f]) {
      AdvancedTagOk(o, tg, frames, f, r, i);
    }
    forall i, j | 0 <= i < j < |tg'| ensures Apart(tg'[i], tg'[j]) {
      AdvancedApart(o, tg, frames, f, r, i, j);
    }
  }

  lemma FilterSeparate(p: Tagged -> bool, tg: seq<Tagged>)
    requires Separate(tg)
    ensures Separate(Filtering.Filter(p, tg))
  {
    Filtering.FilterPairwise(p, IsApart(), tg);
  }

  ghost function IsApart(): (Tagged, Tagged) -> bool { (x: Tagged, y: Tagged) => Apart(x, y) }

  lemma FilterTagsOk(o: Options, all: seq<Tagged>, frames: seq<Frame>)
    requires TagsOk(all, frames)
    ensures TagsOk(Filtering.Filter(TagAlive(o), all), frames)
    ensures forall i :: 0 <= i < |Filtering.Filter(TagAlive(o), all)| ==>
        Alive(o, Filtering.Filter(TagAlive(o), all)[i].track)
  {
    var live := Filtering.Filter(TagAlive(o), all);
    FilterSeparate(TagAlive(o), all);
    forall i | 0 <= i < |live| ensures TagOk(live[i], frames) && Alive(o, live[i].track) {
      assert live[i] in live;
      Filtering.FilterMember(TagAlive(o), all, live[i]);
      var k :| 0 <= k < |all| && all[k] == live[i];
    }
  }

  /** The invariant of every run, and nothing stale stays. */
  lemma {:induction false} RunTagsOk(o: Options, frames: seq<Frame>)
    ensures TagsOk(Run(o, frames), frames)
    ensures forall i :: 0 <= i < |Run(o, frames)| ==> Alive(o, Run(o, frames)[i].track)
  {
    if frames != [] {
      var n := |frames| - 1;
      var init, last := frames[..n], frames[n];
      assert init + [last] == frames;
      RunTagsOk(o, init);
      RunUnfold(o, init, last);
      StepTagsOk(o, Run(o, init), init, last);
    }
  }

  lemma StepTagsOk(o: Options, tg: seq<Tagged>, frames: seq<Frame>, f: Frame)
    requires TagsOk(tg, frames)
    ensures TagsOk(TagStepped(o, tg, f, |frames|), frames + [f])
    ensures forall i :: 0 <= i < |TagStepped(o, tg, f, |frames|)| ==> Alive(o, TagStepped(o, tg, f, |frames|)[i].track)
  {
    var r := FrameMatch(o, tg, f);
    AdvancedTagsOk(o, tg, frames, f, r);
    FilterTagsOk(o, TagAdvanced(o, tg, f, |frames|, r), frames + [f]);
  }

  lemma RunUnfold(o: Options, init: seq<Frame>, last: Frame)
    ensures Run(o, init + [last]) == TagStepped(o, Run(o, init), last, |init|)
  {
    assert (init + [last])[..|init|] == init;
  }

  // ---------------------------------------------------------- population bound

  ghost function Detected(frames: seq<Frame>, lo: nat, hi: nat): nat
    requires lo <= hi <= |frames|
    decreases hi - lo
  {
    if lo == hi then 0 else Detected(frames, lo, hi - 1) + |frames[hi - 1].ds|
  }

  ghost function Cells(f: nat, k: nat): (s: set<(nat, nat)>)
    ensures forall p :: p in s <==> p.0 == f && p.1 < k
    ensures |s| == k
  {
    if k == 0 then {} else Cells(f, k - 1) + {(f, k - 1)}
  }

  /** The detections of frames `lo` up to `hi`. */
  ghost function Slots(frames: seq<Frame>, lo: nat, hi: nat): (s: set<(nat, nat)>)
    requires lo <= hi <= |frames|
    ensures forall p :: p in s <==> lo <= p.0 < hi && p.1 < |frames[p.0].ds|
    ensures |s| == Detected(frames, lo, hi)
    decreases hi - lo
  {
    if lo == hi then {}
    else
      var a, b := Slots(frames, lo, hi - 1), Cells(hi - 1, |frames[hi - 1].ds|);
      assert forall p :: p in a ==> p.0 < hi - 1;
      assert a !! b;
      a + b
  }

  /** Distinct representatives in a set: at most as many as the set has elements. */
  lemma {:induction false} Pigeonhole(xs: seq<(nat, nat)>, s: set<(nat, nat)>)
    requires forall i, j :: 0 <= i < j < |xs| ==> xs[i] != xs[j]
    requires forall i :: 0 <= i < |xs| ==> xs[i] in s
    ensures |xs| <= |s|
  {
    if xs != [] {
      var last := xs[|xs| - 1];
      Pigeonhole(xs[..|xs| - 1], s - {last});
      assert last in s;
    }
  }

  /** The first of the last `maxMissedFrames + 1` of `n` frames. */
  function WindowStart(o: Options, n: nat): (lo: nat)
    ensures lo <= n
  {
    if o.maxMissedFrames < 0 then n
    else if o.maxMissedFrames + 1 >= n then 0
    else n - (o.maxMissedFrames + 1)
  }

  /**
    After any frames the live tracks are at most as many as the detections of the
    last `maxMissedFrames + 1` frames: each is paired with the detection that fed it
    last, and no detection feeds two tracks.
  */
  lemma PopulationBound(o: Options, frames: seq<Frame>)
    ensures |Run(o, frames)| <= Detected(frames, WindowStart(o, |frames|), |frames|)
  {
    RunTagsOk(o, frames);
    TagsBound(o, Run(o, frames), frames, WindowStart(o, |frames|));
  }

  lemma TagsBound(o: Options, tg: seq<Tagged>, frames: seq<Frame>, lo: nat)
    requires TagsOk(tg, frames) && forall i :: 0 <= i < |tg| ==> Alive(o, tg[i].track)
    requires lo <= |frames| && (lo > 0 ==> o.maxMissedFrames < 0 || lo + o.maxMissedFrames + 1 == |frames|)
    ensures |tg| <= Detected(frames, lo, |frames|)
  {
    forall i | 0 <= i < |tg| ensures tg[i].feeds != [] && Last(tg[i]) in Slots(frames, lo, |frames|) {
      assert TagOk(tg[i], frames) && Alive(o, tg[i].track);
    }
    var lasts := seq(|tg|, i requires 0 <= i < |tg| => Last(tg[i]));
    forall i, j | 0 <= i < j < |tg| ensures lasts[i] != lasts[j] {
      assert Apart(tg[i], tg[j]) && Last(tg[i]) in tg[i].feeds && Last(tg[j]) in tg[j].feeds;
    }
    Pigeonhole(lasts, Slots(frames, lo, |frames|));
  }

  ghost function Last(x: Tagged): (nat, nat) {
    if x.feeds == [] then (0, 0) else x.feeds[|x.feeds| - 1]
  }

  ghost predicate NeverRepeats(frames: seq<Frame>) {
    forall f, g, a, b ::
      0 <= f < |frames| && 0 <= g < |frames| && 0 <= a < |frames[f].uuids| && 0 <= b < |frames[g].uuids| ==>
      frames[f].uuids[a] == frames[g].uuids[b] ==> f == g && a == b
  }

  /** If `randomUUID` never repeats, neither does a live track's id. */
  lemma IdsUnique(o: Options, frames: seq<Frame>, i: nat, j: nat)
    requires i < j < |Run(o, frames)|
    requires NeverRepeats(frames)
    ensures Run(o, frames)[i].track.id != Run(o, frames)[j].track.id
  {
    RunTagsOk(o, frames);
    var x, y := Run(o, frames)[i], Run(o, frames)[j];
    assert TagOk(x, frames) && TagOk(y, frames);
    assert Apart(x, y);
  }

  /** Before stale tracks are dropped, every detection of the frame feeds or starts exactly one track. */
  lemma EachDetectionOnce(o: Options, frames: seq<Frame>, f: Frame, d: nat) returns (i: nat)
    requires d < |f.ds|
    ensures var tg := Run(o, frames);
      var all := TagAdvanced(o, tg, f, |frames|, FrameMatch(o, tg, f));
      i < |all| && forall k :: 0 <= k < |all| ==> ((|frames|, d) in all[k].feeds <==> k == i)
  {
    var tg := Run(o, frames);
    var r := FrameMatch(o, tg, f);
    RunTagsOk(o, frames);
    AdvancedTagsOk(o, tg, frames, f, r);
    i := FedTrack(o, tg, f, |frames|, r, d);
    OnlyOne(TagAdvanced(o, tg, f, |frames|, r), i, (|frames|, d));
  }

  lemma OnlyOne(all: seq<Tagged>, i: nat, p: (nat, nat))
    requires Separate(all) && i < |all| && p in all[i].feeds
    ensures forall k :: 0 <= k < |all| ==> (p in all[k].feeds <==> k == i)
  {
    forall k | 0 <= k < |all| ensures p in all[k].feeds <==> k == i {
      assert k < i ==> Apart(all[k], all[i]);
      assert i < k ==> Apart(all[i], all[k]);
    }
  }

  lemma FedTrack(o: Options, tg: seq<Tagged>, f: Frame, n: nat, r: Result, d: nat) returns (i: nat)
    requires Fits(r, |tg|, |f.ds|) && d < |f.ds|
    ensures i < |TagAdvanced(o, tg, f, n, r)| && (n, d) in TagAdvanced(o, tg, f, n, r)[i].feeds
  {
    if d in Detections(r.matches) {
      var a :| 0 <= a < |r.matches| && r.matches[a].detection == d;
      i := r.matches[a].track;
      MatchOfPair(r.matches, a);
      OldTag(o, tg, f, n, r, i);
    } else {
      assert d in r.unmatchedDetections;
      var j :| 0 <= j < |r.unmatchedDetections| && r.unmatchedDetections[j] == d;
      i := |tg| + j;
      NewTag(o, tg, f, n, r, j);
    }
  }

  /** A live track is dropped by a frame exactly when it is missed for the `maxMissedFrames + 1`-th time running. */
  lemma DroppedExactly(o: Options, frames: seq<Frame>, f: Frame, i: nat)
    requires i < |Run(o, frames)|
    ensures var tg := Run(o, frames);
      var r := FrameMatch(o, tg, f);
      var y := TagAdvanced(o, tg, f, |frames|, r)[i];
      var missed := i !in Tracks(r.matches);
      && (y in TagStepped(o, tg, f, |frames|) <==> !(missed && tg[i].track.framesSinceUpdate == o.maxMissedFrames))
      && (missed ==> y.track.framesSinceUpdate == tg[i].track.framesSinceUpdate + 1)
      && (!missed ==> y.track.framesSinceUpdate == 0)
  {
    var tg := Run(o, frames);
    var r := FrameMatch(o, tg, f);
    RunTagsOk(o, frames);
    MatchOfFacts(r.matches, i);
    OldTag(o, tg, f, |frames|, r, i);
    assert Alive(o, tg[i].track);
    var all := TagAdvanced(o, tg, f, |frames|, r);
    assert all[i] in all;
    Filtering.FilterMember(TagAlive(o), all, all[i]);
  }

  // --------------------------------------------------------------- the class

  function Report(t: Track): TrackedObject
  {
    var s := t.filter.state;
    TrackedObject(t.id, BoxOf(s), Velocity(s[4], s[5]), t.classification, t.confidence, t.framesSinceUpdate, t.age)
  }

  /** The first `k` matches are done: their tracks are fed, and no other track has changed. */
  ghost predicate FedUpTo(o: Options, was: seq<Track>, now: seq<Track>, ms: seq<Pair>, ds: seq<RawDetection>, k: nat)
    requires k <= |ms|
    requires forall i :: 0 <= i < |ms| ==> ms[i].track < |was| && ms[i].detection < |ds|
  {
    && |now| == |was|
    && (forall i :: 0 <= i < |now| ==> (forall j :: 0 <= j < k ==> ms[j].track != i) ==> now[i] == was[i])
    && (forall j :: 0 <= j < k ==> now[ms[j].track] == FeedTrack(o, was[ms[j].track], ds[ms[j].detection]))
  }

  lemma FeedOne(o: Options, was: seq<Track>, now: seq<Track>, ms: seq<Pair>, ds: seq<RawDetection>, k: nat)
    requires OneToOne(ms) && k < |ms|
    requires forall i :: 0 <= i < |ms| ==> ms[i].track < |was| && ms[i].detection < |ds|
    requires FedUpTo(o, was, now, ms, ds, k)
    ensures var m := ms[k];
      FedUpTo(o, was, now[m.track := FeedTrack(o, now[m.track], ds[m.detection])], ms, ds, k + 1)
  {
    assert forall j :: 0 <= j < k ==> !Conflict(ms[j], ms[k]);
  }

  class DeepSortTracker {
    var tracks: seq<Track>
    const options: Options

    constructor (options: Options)
      ensures tracks == [] && this.options == options
    {
      tracks := [];
      this.options := options;
    }

    /** One frame; `uuids` are the ids `randomUUID` would return, in the order they are asked for. */
    method Step(detections: seq<RawDetection>, uuids: seq<string>) returns (reported: seq<TrackedObject>)
      requires |uuids| == |detections|
      modifies this
      ensures tracks == Stepped(options, old(tracks), detections, uuids)
      ensures reported == Reports(Confirmed(options, tracks))
    {
      AdvanceTracks(detections, uuids);
      tracks := Survivors(options, tracks);
      reported := Reports(Confirmed(options, tracks));
    }

    /** `step` up to its two filters. */
    method AdvanceTracks(detections: seq<RawDetection>, uuids: seq<string>)
      requires |uuids| == |detections|
      modifies this
      ensures Fits(Matched(options, old(tracks), detections), |old(tracks)|, |detections|)
      ensures tracks == Advanced(options, old(tracks), detections, uuids, Matched(options, old(tracks), detections))
    {
      ghost var before := tracks;
      MatchedFits(options, before, detections);
      tracks := PredictAll(tracks);
      var r := Associate(Boxes(tracks), DetectionBoxes(detections), options.iouThreshold);
      UpdateMatched(r.matches, detections);
      ghost var fed := tracks;
      AgeUnmatched(r.unmatchedTracks);
      ghost var aged := tracks;
      assert LoopStates(options, before, detections, r, fed, aged);
      StartTracks(r.unmatchedDetections, detections, uuids);
      AdvancedByAllLoops(options, before, detections, uuids, r, fed, aged, tracks);
    }

    method UpdateMatched(matches: seq<Pair>, detections: seq<RawDetection>)
      requires OneToOne(matches)
      requires forall i :: 0 <= i < |matches| ==> matches[i].track < |tracks| && matches[i].detection < |detections|
      modifies this
      ensures |tracks| == |old(tracks)|
      ensures forall i :: 0 <= i < |tracks| ==> i !in Tracks(matches) ==> tracks[i] == old(tracks)[i]
      ensures forall k :: 0 <= k < |matches| ==>
        tracks[matches[k].track] == FeedTrack(options, old(tracks)[matches[k].track], detections[matches[k].detection])
    {
      for k := 0 to |matches|
        invariant FedUpTo(options, old(tracks), tracks, matches, detections, k)
      {
        var m := matches[k];
        FeedOne(options, old(tracks), tracks, matches, detections, k);
        tracks := tracks[m.track := FeedTrack(options, tracks[m.track], detections[m.detection])];
      }
      assert forall i :: 0 <= i < |tracks| && i !in Tracks(matches) ==> forall j :: 0 <= j < |matches| ==>
          matches[j].track != i;
    }

    method AgeUnmatched(unmatched: seq<nat>)
      requires (forall i :: 0 <= i < |unmatched| ==> unmatched[i] < |tracks|)
      requires forall i, j :: 0 <= i < j < |unmatched| ==> unmatched[i] != unmatched[j]
      modifies this
      ensures |tracks| == |old(tracks)|
      ensures forall i :: 0 <= i < |tracks| ==> tracks[i] == if i in unmatched then MissTrack(old(tracks)[i])
          else old(tracks)[i]
    {
      for k := 0 to |unmatched|
        invariant |tracks| == |old(tracks)|
        invariant forall i :: 0 <= i < |tracks| ==> tracks[i] == if i in unmatched[..k] then MissTrack(old(tracks)[i])
            else old(tracks)[i]
      {
        var i := unmatched[k];
        assert unmatched[..k + 1] == unmatched[..k] + [i];
        tracks := tracks[i := MissTrack(tracks[i])];
      }
      assert unmatched[..|unmatched|] == unmatched;
    }

    method StartTracks(unmatched: seq<nat>, detections: seq<RawDetection>, uuids: seq<string>)
      requires |unmatched| <= |uuids| && forall j :: 0 <= j < |unmatched| ==> unmatched[j] < |detections|
      modifies this
      ensures tracks == old(tracks) +
          seq(|unmatched|, j requires 0 <= j < |unmatched| => NewTrack(uuids[j], detections[unmatched[j]]))
    {
      for k := 0 to |unmatched|
        invariant tracks == old(tracks) + seq(k, j requires 0 <= j < k => NewTrack(uuids[j], detections[unmatched[j]]))
      {
        tracks := tracks + [NewTrack(uuids[k], detections[unmatched[k]])];
      }
    }
  }

  /** The state after each of the three loops of `step`. */
  ghost predicate LoopStates(o: Options, ts: seq<Track>, ds: seq<RawDetection>, r: Result, fed: seq<Track>,
                             aged: seq<Track>)
    requires Fits(r, |ts|, |ds|)
  {
    && |fed| == |aged| == |ts|
    && (forall k :: 0 <= k < |r.matches| ==>
          fed[r.matches[k].track] == FeedTrack(o, PredictAll(ts)[r.matches[k].track], ds[r.matches[k].detection]))
    && (forall i :: 0 <= i < |ts| ==> i !in Tracks(r.matches) ==> fed[i] == PredictAll(ts)[i])
    && (forall i :: 0 <= i < |ts| ==> aged[i] == if i in r.unmatchedTracks then MissTrack(fed[i]) else fed[i])
  }

  /** Feeding the matched tracks, ageing the unmatched ones and adding the new ones advances every track once. */
  lemma AdvancedByAllLoops(o: Options, ts: seq<Track>, ds: seq<RawDetection>, uuids: seq<string>, r: Result,
                           fed: seq<Track>, aged: seq<Track>, all: seq<Track>)
    requires |uuids| == |ds| && Fits(r, |ts|, |ds|) && LoopStates(o, ts, ds, r, fed, aged)
    requires var u := r.unmatchedDetections;
      all == aged + seq(|u|, j requires 0 <= j < |u| => NewTrack(uuids[j], ds[u[j]]))
    ensures all == Advanced(o, ts, ds, uuids, r)
  {
    forall i | 0 <= i < |ts| ensures aged[i] == Advanced(o, ts, ds, uuids, r)[i] {
      AdvancedByLoops(o, ts, ds, uuids, r, fed, aged, i);
    }
  }

  lemma AdvancedByLoops(o: Options, ts: seq<Track>, ds: seq<RawDetection>, uuids: seq<string>, r: Result,
                        fed: seq<Track>, aged: seq<Track>, i: nat)
    requires |uuids| == |ds| && Fits(r, |ts|, |ds|) && i < |ts| && LoopStates(o, ts, ds, r, fed, aged)
    ensures aged[i] == Advanced(o, ts, ds, uuids, r)[i]
  {
    AdvancedOld(o, ts, ds, uuids, r, i);
    MatchOfFacts(r.matches, i);
    assert i in r.unmatchedTracks <==> i !in Tracks(r.matches);
    if MatchOf(r.matches, i).Some? {
      var k :| 0 <= k < |r.matches| && r.matches[k].track == i && r.matches[k].detection == MatchOf(r.matches, i).value;
    }
  }

  function Reports(ts: seq<Track>): seq<TrackedObject>
  {
    seq(|ts|, i requires 0 <= i < |ts| => Report(ts[i]))
  }
}
