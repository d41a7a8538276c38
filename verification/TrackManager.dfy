/**
  Correlation of one event-time ordered stream of observations onto tracks.  Over a
  whole run every track is explained by the observations assigned to it: its filter
  is their replay, its trajectory their last fused points, its other fields
  summaries of them, and each of them fell inside the gate when it was assigned.
*/
module TrackManager {
  import opened Wrappers
  import GeoFilter
  import Reals

  type Position = GeoFilter.GeoPosition
  type Clock = string -> real

  type Ekf = f: GeoFilter.Filter | f.Valid()
    witness GeoFilter.Initial(GeoFilter.GeoPosition(0.0, 0.0, 0.0), GeoFilter.Variances(1.0, 1.0, 1.0))

  datatype Affiliation = UNKNOWN | FRIENDLY | HOSTILE | NEUTRAL
  datatype Status = ACTIVE | CONFLICTED | LOST

  datatype Observation = Observation(domain: string, sensorId: string, position: Position, classification: string,
                                     affiliation: Affiliation, confidence: real, sensorTs: string)

  datatype Point = Point(lat: real, lon: real, ts: string)

  /** `sourceSensors` is a `Set`: no repeats, in order of insertion. */
  datatype Track = Track(entityId: string, ekf: Ekf, classification: string, confidence: real, affiliation: Affiliation,
                         status: Status, sourceSensors: seq<string>, trajectory: seq<Point>,
                         firstDetected: string, lastSensorTs: string)

  /** The constructor's options, the filter's configuration, `haversineMeters` and `Date.parse`. */
  datatype Options = Options(gateMeters: map<string, real>, correlationMaxGapSeconds: real, lostTimeoutMs: real,
                             filter: GeoFilter.Config, initialVar: GeoFilter.Variances,
                             distance: (Position, Position) -> real, parse: Clock)

  const DEFAULT_GATE_METERS: map<string, real> :=
    map["ais" := 1500.0, "adsb" := 3000.0, "ewrf" := 8000.0, "iot" := 300.0]
  const DEFAULT_GATE_METERS_FALLBACK: real := 2000.0
  const MAX_TRAJECTORY_POINTS: nat := 200

  function GateFor(o: Options, domain: string): real {
    var gates := DEFAULT_GATE_METERS + o.gateMeters;
    if domain in gates then gates[domain] else DEFAULT_GATE_METERS_FALLBACK
  }

  // ------------------------------------------------------------ the candidates

  function DtSeconds(o: Options, ts: string, obs: Observation): real {
    (o.parse(obs.sensorTs) - o.parse(ts)) / 1000.0
  }

  /** Distance of an observation from where a filter expects its target by then. */
  function DistanceM(o: Options, ekf: Ekf, ts: string, obs: Observation): real {
    o.distance(GeoFilter.Extrapolate(o.filter.trig, ekf.Position(), ekf.Velocity(), DtSeconds(o, ts, obs)),
      obs.position)
  }

  /** Not before the track's last fix, not too long after it, and inside the gate. */
  predicate InGate(o: Options, ekf: Ekf, ts: string, obs: Observation) {
    0.0 <= DtSeconds(o, ts, obs) <= o.correlationMaxGapSeconds && DistanceM(o, ekf, ts, obs) <= GateFor(o, obs.domain)
  }

  predicate Candidate(o: Options, t: Track, obs: Observation) {
    t.status != LOST && InGate(o, t.ekf, t.lastSensorTs, obs)
  }

  function Distance(o: Options, t: Track, obs: Observation): real { DistanceM(o, t.ekf, t.lastSensorTs, obs) }

  /** The nearest candidate, the earliest track on ties. */
  function Nearest(o: Options, ts: seq<Track>, obs: Observation): (r: Option<nat>)
    ensures r.Some? ==> r.value < |ts|
  {
    if ts == [] then None
    else
      var last := |ts| - 1;
      var r := Nearest(o, ts[..last], obs);
      if Candidate(o, ts[last], obs) &&
        (r.None? || Distance(o, ts[last], obs) < Distance(o, ts[r.value], obs)) then Some(last)
      else r
  }

  ghost predicate IsNearest(o: Options, ts: seq<Track>, obs: Observation, i: nat) {
    && i < |ts| && Candidate(o, ts[i], obs)
    && forall j :: 0 <= j < |ts| && Candidate(o, ts[j], obs) ==>
         if j < i then Distance(o, ts[i], obs) < Distance(o, ts[j], obs)
           else Distance(o, ts[i], obs) <= Distance(o, ts[j], obs)
  }

  ghost predicate NoCandidate(o: Options, ts: seq<Track>, obs: Observation) {
    forall j :: 0 <= j < |ts| ==> !Candidate(o, ts[j], obs)
  }

  lemma {:induction false} NearestFacts(o: Options, ts: seq<Track>, obs: Observation)
    ensures var r := Nearest(o, ts, obs);
      if r.None? then NoCandidate(o, ts, obs) else IsNearest(o, ts, obs, r.value)
  {
    if ts != [] { NearestFacts(o, ts[..|ts| - 1], obs); }
  }

  /** An observation goes to track `i` exactly when `i` is the earliest of the nearest candidates. */
  lemma NearestIs(o: Options, ts: seq<Track>, obs: Observation, i: nat)
    ensures Nearest(o, ts, obs) == Some(i) <==> IsNearest(o, ts, obs, i)
    ensures Nearest(o, ts, obs) == None <==> NoCandidate(o, ts, obs)
  {
    NearestFacts(o, ts, obs);
    var r := Nearest(o, ts, obs);
    if r.Some? && r.value < i < |ts| { assert Candidate(o, ts[r.value], obs); }
    if r.Some? && i < r.value { assert Candidate(o, ts[r.value], obs); }
  }

  // --------------------------------------------------------------- the updates

  /** The filter after one correlated observation; where `inv` would throw, it stays as predicted. */
  function Fuse(o: Options, ekf: Ekf, dt: real, z: Position): Ekf {
    var p := if dt > 0.0 then GeoFilter.Predicted(o.filter.trig, ekf, o.filter.process, dt) else ekf;
    var u := GeoFilter.Updated(p, o.filter.measurement, z, o.filter.inv);
    if u.Some? then u.value else p
  }

  function Push(trajectory: seq<Point>, p: Point): seq<Point> {
    var longer := trajectory + [p];
    if |longer| > MAX_TRAJECTORY_POINTS then longer[1..] else longer
  }

  function AddSensor(sensors: seq<string>, id: string): seq<string> {
    if id in sensors then sensors else sensors + [id]
  }

  function Correlate(o: Options, t: Track, obs: Observation): Track {
    var ekf := Fuse(o, t.ekf, DtSeconds(o, t.lastSensorTs, obs), obs.position);
    var conflicting := obs.classification != t.classification && obs.confidence > 0.5 && t.confidence > 0.5;
    Track(t.entityId, ekf, t.classification, Reals.Max(t.confidence, obs.confidence),
          if obs.affiliation != UNKNOWN then obs.affiliation else t.affiliation,
          if conflicting then CONFLICTED else ACTIVE, AddSensor(t.sourceSensors, obs.sensorId),
          Push(t.trajectory, Point(ekf.Position().lat, ekf.Position().lon, obs.sensorTs)), t.firstDetected,
          obs.sensorTs)
  }

  function Spawn(o: Options, id: string, obs: Observation): Track {
    Track(id, GeoFilter.Initial(obs.position, o.initialVar), obs.classification, obs.confidence, obs.affiliation,
          ACTIVE, [obs.sensorId], [Point(obs.position.lat, obs.position.lon, obs.sensorTs)], obs.sensorTs,
          obs.sensorTs)
  }

  /** All tracks after one observation; `id` is what `randomUUID` would return. */
  function Correlated(o: Options, ts: seq<Track>, obs: Observation, id: string): seq<Track> {
    var i := Nearest(o, ts, obs);
    if i.Some? then ts[i.value := Correlate(o, ts[i.value], obs)] else ts + [Spawn(o, id, obs)]
  }

  /** The track an observation ends up on. */
  function Target(o: Options, ts: seq<Track>, obs: Observation): (i: nat)
    ensures i <= |ts|
  {
    var r := Nearest(o, ts, obs);
    if r.Some? then r.value else |ts|
  }

  predicate Stale(o: Options, t: Track, nowMs: real) {
    t.status != LOST && nowMs - o.parse(t.lastSensorTs) > o.lostTimeoutMs
  }

  function Evict(o: Options, t: Track, nowMs: real): Track {
    if Stale(o, t, nowMs) then t.(status := LOST) else t
  }

  function Evicted(o: Options, ts: seq<Track>, nowMs: real): (r: seq<Track>)
    ensures |r| == |ts|
  {
    seq(|ts|, i requires 0 <= i < |ts| => Evict(o, ts[i], nowMs))
  }

  /** The tracks an eviction reports, in order. */
  function JustLost(o: Options, ts: seq<Track>, nowMs: real): (r: seq<Track>)
    ensures |r| <= |ts|
  {
    if ts == [] then []
    else
      var t := ts[|ts| - 1];
      if Stale(o, t, nowMs) then JustLost(o, ts[..|ts| - 1], nowMs) + [Evict(o, t, nowMs)]
        else JustLost(o, ts[..|ts| - 1], nowMs)
  }

  // ------------------------------------------------------------------ the class

  class TrackManager {
    var tracks: seq<Track>
    const options: Options

    constructor (options: Options)
      ensures tracks == [] && this.options == options
    {
      tracks := [];
      this.options := options;
    }

    method Observe(obs: Observation, uuid: string) returns (index: nat, isNew: bool)
      modifies this
      ensures tracks == Correlated(options, old(tracks), obs, uuid) && index == Target(options, old(tracks), obs)
      ensures index < |tracks| && (isNew <==> NoCandidate(options, old(tracks), obs))
      ensures !isNew ==> IsNearest(options, old(tracks), obs, index)
    {
      var best: Option<nat>, bestDistance := None, 0.0;
      for i := 0 to |tracks|
        invariant best == Nearest(options, tracks[..i], obs)
        invariant best.Some? ==> best.value < i && bestDistance == Distance(options, tracks[best.value], obs)
      {
        assert tracks[..i + 1][..i] == tracks[..i];
        var track := tracks[i];
        if track.status == LOST { continue; }
        var dtSeconds := DtSeconds(options, track.lastSensorTs, obs);
        if dtSeconds < 0.0 || dtSeconds > options.correlationMaxGapSeconds { continue; }
        var distanceM := Distance(options, track, obs);
        if distanceM <= GateFor(options, obs.domain) && (best.None? || distanceM < bestDistance) {
          best, bestDistance := Some(i), distanceM;
        }
      }
      assert tracks[..|tracks|] == tracks;
      if best.Some? {
        index, isNew := best.value, false;
        NearestIs(options, tracks, obs, index);
        UpdateTrack(index, obs);
        return;
      }
      NearestIs(options, tracks, obs, 0);
      index, isNew := |tracks|, true;
      tracks := tracks + [Spawn(options, uuid, obs)];
    }

    /** The field by field update of the matched track. */
    method UpdateTrack(i: nat, obs: Observation)
      requires i < |tracks|
      modifies this
      ensures tracks == old(tracks)[i := Correlate(options, old(tracks)[i], obs)]
    {
      var t := tracks[i];
      var ekf := FuseFix(t.ekf, DtSeconds(options, t.lastSensorTs, obs), obs.position);
      t := t.(ekf := ekf, sourceSensors := AddSensor(t.sourceSensors, obs.sensorId), lastSensorTs := obs.sensorTs);
      t := t.(trajectory := t.trajectory + [Point(ekf.Position().lat, ekf.Position().lon, obs.sensorTs)]);
      if |t.trajectory| > MAX_TRAJECTORY_POINTS { t := t.(trajectory := t.trajectory[1..]); }
      var conflicting := obs.classification != t.classification && obs.confidence > 0.5 && t.confidence > 0.5;
      t := t.(status := if conflicting then CONFLICTED else ACTIVE);
      t := t.(confidence := Reals.Max(t.confidence, obs.confidence));
      if obs.affiliation != UNKNOWN { t := t.(affiliation := obs.affiliation); }
      tracks := tracks[i := t];
    }

    /** The filter's two calls. */
    method FuseFix(before: Ekf, dtSeconds: real, position: Position) returns (ekf: Ekf)
      ensures ekf == Fuse(options, before, dtSeconds, position)
    {
      ekf := before;
      if dtSeconds > 0.0 { ekf := GeoFilter.Predicted(options.filter.trig, ekf, options.filter.process, dtSeconds); }
      var u := GeoFilter.Updated(ekf, options.filter.measurement, position, options.filter.inv);
      if u.Some? { ekf := u.value; }
    }

    method EvictStale(nowIso: string) returns (justLost: seq<Track>)
      modifies this
      ensures tracks == Evicted(options, old(tracks), options.parse(nowIso))
      ensures justLost == JustLost(options, old(tracks), options.parse(nowIso))
    {
      var nowMs := options.parse(nowIso);
      justLost := [];
      for i := 0 to |tracks|
        invariant |tracks| == |old(tracks)|
        invariant justLost == JustLost(options, old(tracks)[..i], nowMs)
        invariant forall j :: 0 <= j < |tracks| ==> tracks[j] == if j < i then Evict(options, old(tracks)[j], nowMs)
            else old(tracks)[j]
      {
        assert old(tracks)[..i + 1][..i] == old(tracks)[..i];
        var track := tracks[i];
        if track.status == LOST { continue; }
        if nowMs - options.parse(track.lastSensorTs) > options.lostTimeoutMs {
          track := track.(status := LOST);
          tracks := tracks[i := track];
          justLost := justLost + [track];
        }
      }
      assert old(tracks)[..|tracks|] == old(tracks);
    }
  }

  // ----------------------------------------------------------------- whole runs

  datatype Step = Observe(obs: Observation, id: string) | EvictAt(nowMs: real)

  /** The tracks, every observation so far, and for each the track it went to. */
  datatype History = History(tracks: seq<Track>, observed: seq<Observation>, targets: seq<nat>)

  ghost function Next(o: Options, h: History, step: Step): History {
    match step
    case Observe(obs, id) =>
      History(Correlated(o, h.tracks, obs, id), h.observed + [obs], h.targets + [Target(o, h.tracks, obs)])
    case EvictAt(nowMs) => h.(tracks := Evicted(o, h.tracks, nowMs))
  }

  ghost function Run(o: Options, steps: seq<Step>): History {
    if steps == [] then History([], [], []) else Next(o, Run(o, steps[..|steps| - 1]), steps[|steps| - 1])
  }

  lemma RunSnoc(o: Options, steps: seq<Step>, step: Step)
    ensures Run(o, steps + [step]) == Next(o, Run(o, steps), step)
  {
    assert (steps + [step])[..|steps|] == steps;
  }

  /** The observations assigned to track `i`, in order. */
  ghost function Own(observed: seq<Observation>, targets: seq<nat>, i: nat): seq<Observation>
    requires |observed| == |targets|
  {
    if observed == [] then []
    else
      var n := |observed| - 1;
      var own := Own(observed[..n], targets[..n], i);
      if targets[n] == i then own + [observed[n]] else own
  }

  // ------------------------------------------------- a track from its observations

  /** The filter that has seen exactly these observations. */
  function EkfOf(o: Options, os: seq<Observation>): Ekf
    requires os != []
  {
    var n := |os| - 1;
    if n == 0 then GeoFilter.Initial(os[0].position, o.initialVar)
    else Fuse(o, EkfOf(o, os[..n]), DtSeconds(o, os[n - 1].sensorTs, os[n]), os[n].position)
  }

  /** The fused position after each observation. */
  function FusedPoints(o: Options, os: seq<Observation>): (r: seq<Point>)
    ensures |r| == |os|
  {
    if os == [] then []
    else
      var p := EkfOf(o, os).Position();
      FusedPoints(o, os[..|os| - 1]) + [Point(p.lat, p.lon, os[|os| - 1].sensorTs)]
  }

  /** The last `min(200, n)` points. */
  function LastPoints(s: seq<Point>): (r: seq<Point>)
    ensures |r| <= MAX_TRAJECTORY_POINTS
  {
    if |s| <= MAX_TRAJECTORY_POINTS then s else s[|s| - MAX_TRAJECTORY_POINTS..]
  }

  /** Each observation was within the gate of what came before it. */
  ghost predicate Chained(o: Options, os: seq<Observation>) {
    var n := |os| - 1;
    n > 0 ==> Chained(o, os[..n]) && InGate(o, EkfOf(o, os[..n]), os[n - 1].sensorTs, os[n])
  }

  ghost predicate IsMaxConfidence(c: real, os: seq<Observation>) {
    (exists k :: 0 <= k < |os| && os[k].confidence == c) && forall k :: 0 <= k < |os| ==> os[k].confidence <= c
  }

  ghost predicate IsSensorSet(sensors: seq<string>, os: seq<Observation>) {
    && (forall i, j :: 0 <= i < j < |sensors| ==> sensors[i] != sensors[j])
    && (forall k :: 0 <= k < |os| ==> os[k].sensorId in sensors)
    && (forall x :: x in sensors ==> exists k :: 0 <= k < |os| && os[k].sensorId == x)
  }

  /** The affiliation is the last one known, if any. */
  ghost predicate IsLastKnown(a: Affiliation, os: seq<Observation>) {
    if a == UNKNOWN then forall k :: 0 <= k < |os| ==> os[k].affiliation == UNKNOWN
    else exists k :: 0 <= k < |os| && os[k].affiliation == a && forall j :: k < j < |os| ==>
      os[j].affiliation == UNKNOWN
  }

  /** The last observation and an earlier one were both confident, and the last one disagrees with the track's class. */
  ghost predicate Disagrees(os: seq<Observation>)
    requires os != []
  {
    var n := |os| - 1;
    && os[n].classification != os[0].classification && os[n].confidence > 0.5
    && exists k :: 0 <= k < n && os[k].confidence > 0.5
  }

  ghost predicate Explained(o: Options, t: Track, os: seq<Observation>) {
    && os != []
    && Chained(o, os)
    && t.ekf == EkfOf(o, os)
    && t.trajectory == LastPoints(FusedPoints(o, os))
    && t.classification == os[0].classification
    && t.firstDetected == os[0].sensorTs && t.lastSensorTs == os[|os| - 1].sensorTs
    && IsMaxConfidence(t.confidence, os)
    && IsSensorSet(t.sourceSensors, os)
    && IsLastKnown(t.affiliation, os)
    && (t.status != LOST ==> (t.status == CONFLICTED <==> Disagrees(os)))
  }

  lemma SpawnExplained(o: Options, id: string, obs: Observation)
    ensures Explained(o, Spawn(o, id, obs), [obs])
  {
    var os := [obs];
    assert os[..0] == [];
    assert FusedPoints(o, os) == [Point(obs.position.lat, obs.position.lon, obs.sensorTs)];
    assert os[0].confidence == obs.confidence && os[0].sensorId == obs.sensorId;
  }

  lemma PushKeeps(points: seq<Point>, p: Point)
    ensures Push(LastPoints(points), p) == LastPoints(points + [p])
  {}

  lemma ChainKeeps(o: Options, os: seq<Observation>, obs: Observation)
    requires os != [] && Chained(o, os) && InGate(o, EkfOf(o, os), os[|os| - 1].sensorTs, obs)
    ensures Chained(o, os + [obs])
  {
    assert (os + [obs])[..|os|] == os;
  }

  lemma EkfKeeps(o: Options, os: seq<Observation>, obs: Observation)
    requires os != []
    ensures EkfOf(o, os + [obs]) == Fuse(o, EkfOf(o, os), DtSeconds(o, os[|os| - 1].sensorTs, obs), obs.position)
    ensures var p := EkfOf(o, os + [obs]).Position();
      FusedPoints(o, os + [obs]) == FusedPoints(o, os) + [Point(p.lat, p.lon, obs.sensorTs)]
  {
    assert (os + [obs])[..|os|] == os;
  }

  lemma SummariesKeep(t: Track, os: seq<Observation>, obs: Observation)
    requires os != [] && IsMaxConfidence(t.confidence, os) && IsSensorSet(t.sourceSensors, os)
    ensures IsMaxConfidence(Reals.Max(t.confidence, obs.confidence), os + [obs])
    ensures IsSensorSet(AddSensor(t.sourceSensors, obs.sensorId), os + [obs])
  {
    var all, n := os + [obs], |os|;
    assert all[n] == obs;
    var k :| 0 <= k < |os| && os[k].confidence == t.confidence;
    assert all[k].confidence == t.confidence;
    forall x | x in AddSensor(t.sourceSensors, obs.sensorId)
      ensures exists k :: 0 <= k < |all| && all[k].sensorId == x
    {
      if x in t.sourceSensors {
        var j :| 0 <= j < |os| && os[j].sensorId == x;
        assert all[j].sensorId == x;
      } else {
        assert all[n].sensorId == x;
      }
    }
  }

  lemma AffiliationKeeps(a: Affiliation, os: seq<Observation>, obs: Observation)
    requires IsLastKnown(a, os)
    ensures IsLastKnown(if obs.affiliation != UNKNOWN then obs.affiliation else a, os + [obs])
  {
    var all, n := os + [obs], |os|;
    assert all[n] == obs;
    if obs.affiliation == UNKNOWN && a != UNKNOWN {
      var k :| 0 <= k < |os| && os[k].affiliation == a && forall j :: k < j < |os| ==> os[j].affiliation == UNKNOWN;
      assert all[k].affiliation == a;
    }
  }

  lemma StatusKeeps(t: Track, os: seq<Observation>, obs: Observation)
    requires os != [] && IsMaxConfidence(t.confidence, os) && t.classification == os[0].classification
    ensures Disagrees(os + [obs]) <==>
        obs.classification != t.classification && obs.confidence > 0.5 && t.confidence > 0.5
  {
    var all, n := os + [obs], |os|;
    var k :| 0 <= k < |os| && os[k].confidence == t.confidence;
    assert all[k] == os[k] && all[n] == obs;
  }

  lemma CorrelateExplained(o: Options, t: Track, os: seq<Observation>, obs: Observation)
    requires Explained(o, t, os) && Candidate(o, t, obs)
    ensures Explained(o, Correlate(o, t, obs), os + [obs])
  {
    ChainKeeps(o, os, obs);
    EkfKeeps(o, os, obs);
    var p := EkfOf(o, os + [obs]).Position();
    PushKeeps(FusedPoints(o, os), Point(p.lat, p.lon, obs.sensorTs));
    SummariesKeep(t, os, obs);
    AffiliationKeeps(t.affiliation, os, obs);
    StatusKeeps(t, os, obs);
  }

  /** Every observation has gone to one of the tracks. */
  ghost predicate Targeted(h: History) {
    |h.observed| == |h.targets| && forall k :: 0 <= k < |h.targets| ==> h.targets[k] < |h.tracks|
  }

  lemma {:induction false} RunTargeted(o: Options, steps: seq<Step>)
    ensures Targeted(Run(o, steps))
  {
    if steps != [] { RunTargeted(o, steps[..|steps| - 1]); }
  }

  lemma OwnSnoc(observed: seq<Observation>, targets: seq<nat>, obs: Observation, target: nat, i: nat)
    requires |observed| == |targets|
    ensures Own(observed + [obs], targets + [target], i) ==
      if target == i then Own(observed, targets, i) + [obs] else Own(observed, targets, i)
  {
    assert (observed + [obs])[..|observed|] == observed && (targets + [target])[..|observed|] == targets;
  }

  lemma {:induction false} OwnNone(observed: seq<Observation>, targets: seq<nat>, i: nat)
    requires |observed| == |targets| && i !in targets
    ensures Own(observed, targets, i) == []
  {
    if observed != [] { OwnNone(observed[..|observed| - 1], targets[..|observed| - 1], i); }
  }

  /** Track `i` and its observations after one more, which it may or may not get. */
  lemma ObserveExplained(o: Options, h: History, obs: Observation, id: string, i: nat)
    requires Targeted(h) && i < |Correlated(o, h.tracks, obs, id)|
    requires i < |h.tracks| ==> Explained(o, h.tracks[i], Own(h.observed, h.targets, i))
    ensures Explained(o, Correlated(o, h.tracks, obs, id)[i],
        Own(h.observed + [obs], h.targets + [Target(o, h.tracks, obs)], i))
  {
    var target := Target(o, h.tracks, obs);
    OwnSnoc(h.observed, h.targets, obs, target, i);
    NearestFacts(o, h.tracks, obs);
    if i == |h.tracks| {
      OwnNone(h.observed, h.targets, i);
      assert [] + [obs] == [obs];
      SpawnExplained(o, id, obs);
    } else if i == target {
      CorrelateExplained(o, h.tracks[i], Own(h.observed, h.targets, i), obs);
    }
  }

  lemma EvictExplained(o: Options, t: Track, os: seq<Observation>, nowMs: real)
    requires Explained(o, t, os)
    ensures Explained(o, Evict(o, t, nowMs), os)
  {}

  /** At every moment of every run each track is explained by the observations that went to it. */
  lemma {:induction false} RunExplained(o: Options, steps: seq<Step>, i: nat)
    requires i < |Run(o, steps).tracks|
    ensures Targeted(Run(o, steps))
    ensures Explained(o, Run(o, steps).tracks[i], Own(Run(o, steps).observed, Run(o, steps).targets, i))
  {
    RunTargeted(o, steps);
    var init, h := steps[..|steps| - 1], Run(o, steps[..|steps| - 1]);
    RunTargeted(o, init);
    if i < |h.tracks| { RunExplained(o, init, i); }
    match steps[|steps| - 1]
    case Observe(obs, id) => ObserveExplained(o, h, obs, id, i);
    case EvictAt(nowMs) => EvictExplained(o, h.tracks[i], Own(h.observed, h.targets, i), nowMs);
  }

  lemma {:induction false} TrajectoryShort(o: Options, steps: seq<Step>, i: nat)
    requires i < |Run(o, steps).tracks|
    ensures |Run(o, steps).tracks[i].trajectory| <= MAX_TRAJECTORY_POINTS
  {
    var init, h := steps[..|steps| - 1], Run(o, steps[..|steps| - 1]);
    if i < |h.tracks| { TrajectoryShort(o, init, i); }
  }

  // ------------------------------------------------------- what the filter is

  /** The EKF calls that a track's observations amount to. */
  function Calls(o: Options, os: seq<Observation>): seq<GeoFilter.Step> {
    var n := |os| - 1;
    if n <= 0 then []
    else
      var dt := DtSeconds(o, os[n - 1].sensorTs, os[n]);
      Calls(o, os[..n]) + (if dt > 0.0 then [GeoFilter.Predict(dt)] else []) + [GeoFilter.Update(os[n].position)]
  }

  /** A track's filter is the EKF run on its own observations; none of its inversions ever failed. */
  lemma {:induction false} EkfIsReplay(o: Options, os: seq<Observation>)
    requires os != [] && o.filter.Ok() && o.initialVar.Positive()
    ensures GeoFilter.Run(o.filter, GeoFilter.Initial(os[0].position, o.initialVar), Calls(o, os)) == Some(EkfOf(o, os))
    ensures GeoFilter.Healthy(EkfOf(o, os))
  {
    var start := GeoFilter.Initial(os[0].position, o.initialVar);
    GeoFilter.RunHealthy(o.filter, os[0].position, o.initialVar, Calls(o, os));
    var n := |os| - 1;
    if n > 0 {
      EkfIsReplay(o, os[..n]);
      FuseIsRun(o, start, Calls(o, os[..n]), EkfOf(o, os[..n]), DtSeconds(o, os[n - 1].sensorTs, os[n]),
        os[n].position);
    }
  }

  lemma FuseIsRun(o: Options, start: Ekf, calls: seq<GeoFilter.Step>, ekf: Ekf, dt: real, z: Position)
    requires GeoFilter.Run(o.filter, start, calls) == Some(ekf) && GeoFilter.Healthy(ekf) && o.filter.Ok()
    ensures GeoFilter.Run(o.filter, start, calls + (if dt > 0.0 then [GeoFilter.Predict(dt)] else []) +
        [GeoFilter.Update(z)])
         == Some(Fuse(o, ekf, dt, z))
  {
    var predicted := calls + (if dt > 0.0 then [GeoFilter.Predict(dt)] else []);
    if dt > 0.0 {
      GeoFilter.RunSnoc(o.filter, start, calls, GeoFilter.Predict(dt));
      GeoFilter.PredictHealthy(o.filter, ekf, dt);
    } else {
      assert predicted == calls;
    }
    GeoFilter.RunSnoc(o.filter, start, predicted, GeoFilter.Update(z));
    GeoFilter.UpdateHealthy(o.filter, GeoFilter.Run(o.filter, start, predicted).value, z);
  }

  // --------------------------------------------------------- growth along a run

  /** What never goes back in a track's life. */
  ghost predicate Grows(o: Options, t: Track, t': Track) {
    && t'.entityId == t.entityId && t'.classification == t.classification && t'.firstDetected == t.firstDetected
    && o.parse(t.lastSensorTs) <= o.parse(t'.lastSensorTs)
    && t.confidence <= t'.confidence
    && t.sourceSensors <= t'.sourceSensors
    && (t.affiliation != UNKNOWN ==> t'.affiliation != UNKNOWN)
    && |t.trajectory| <= |t'.trajectory| <= MAX_TRAJECTORY_POINTS
    && (t.status == LOST ==> t' == t)
  }

  lemma StepGrows(o: Options, h: History, step: Step, i: nat)
    requires i < |h.tracks| && |h.tracks[i].trajectory| <= MAX_TRAJECTORY_POINTS
    ensures i < |Next(o, h, step).tracks| && Grows(o, h.tracks[i], Next(o, h, step).tracks[i])
  {
    if step.Observe? { NearestFacts(o, h.tracks, step.obs); }
  }

  lemma GrowsOn(o: Options, a: Track, b: Track, c: Track)
    requires Grows(o, a, b) && Grows(o, b, c)
    ensures Grows(o, a, c)
  {}

  /** From any moment of a run to any later one, every track only grows; a lost one never changes again. */
  lemma {:induction false} LaterGrows(o: Options, steps: seq<Step>, more: seq<Step>, i: nat)
    requires i < |Run(o, steps).tracks|
    ensures i < |Run(o, steps + more).tracks| && Grows(o, Run(o, steps).tracks[i], Run(o, steps + more).tracks[i])
  {
    if more == [] {
      assert steps + more == steps;
      TrajectoryShort(o, steps, i);
    } else {
      var init, last := more[..|more| - 1], more[|more| - 1];
      var mid, all := steps + init, steps + more;
      assert all == mid + [last];
      LaterGrows(o, steps, init, i);
      OneStepGrows(o, mid, last, all, i);
      GrowsOn(o, Run(o, steps).tracks[i], Run(o, mid).tracks[i], Run(o, all).tracks[i]);
    }
  }

  lemma OneStepGrows(o: Options, steps: seq<Step>, step: Step, longer: seq<Step>, i: nat)
    requires longer == steps + [step] && i < |Run(o, steps).tracks|
    ensures i < |Run(o, longer).tracks| && Grows(o, Run(o, steps).tracks[i], Run(o, longer).tracks[i])
  {
    TrajectoryShort(o, steps, i);
    StepGrows(o, Run(o, steps), step, i);
    assert (steps + [step])[..|steps|] == steps;
  }

  // ----------------------------------------------------------- time-sorted input

  ghost predicate TimeSorted(o: Options, os: seq<Observation>) {
    forall i, j :: 0 <= i < j < |os| ==> o.parse(os[i].sensorTs) <= o.parse(os[j].sensorTs)
  }

  /** The observation a track was last updated from. */
  lemma {:induction false} LastFix(o: Options, steps: seq<Step>, i: nat) returns (k: nat)
    requires i < |Run(o, steps).tracks|
    ensures k < |Run(o, steps).observed| && Run(o, steps).tracks[i].lastSensorTs == Run(o, steps).observed[k].sensorTs
  {
    var init, last := steps[..|steps| - 1], steps[|steps| - 1];
    var h := Run(o, init);
    if last.Observe? && i == Target(o, h.tracks, last.obs) { k := |h.observed|; } else { k := LastFix(o, init, i); }
  }

  /** If the observations come in time order, none is ever skipped for lying before a track's last fix. */
  lemma NeverBehind(o: Options, steps: seq<Step>, obs: Observation, i: nat)
    requires i < |Run(o, steps).tracks| && TimeSorted(o, Run(o, steps).observed + [obs])
    ensures o.parse(Run(o, steps).tracks[i].lastSensorTs) <= o.parse(obs.sensorTs)
  {
    var k := LastFix(o, steps, i);
    var all := Run(o, steps).observed + [obs];
    assert all[k] == Run(o, steps).observed[k] && all[|all| - 1] == obs;
  }
}
