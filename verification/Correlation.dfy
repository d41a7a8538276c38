/**
  What one observation and one sweep do to the fused tracks, with every helper of
  the track manager written out: which tracks an observation may join, where it
  moves the one it joins, and which tracks a sweep gives up.
*/
module Correlation {
  import opened Wrappers
  import opened TrackManager
  import GeoCorrection
  import GeoFilter

  /** Seconds from a track's last fix to an observation. */
  function Elapsed(o: Options, t: Track, obs: Observation): real {
    (o.parse(obs.sensorTs) - o.parse(t.lastSensorTs)) / 1000.0
  }

  /** Where the track's own filter would predict it at the time of an observation. */
  function Expected(o: Options, t: Track, obs: Observation): Position {
    GeoFilter.Predicted(o.filter.trig, t.ekf, o.filter.process, Elapsed(o, t, obs)).Position()
  }

  /** The gate in metres: the caller's for that domain if given, else the built-in one. */
  function Gate(gateMeters: map<string, real>, domain: string): real {
    if domain in gateMeters then gateMeters[domain]
    else match domain
      case "ais" => 1500.0
      case "adsb" => 3000.0
      case "ewrf" => 8000.0
      case "iot" => 300.0
      case _ => 2000.0
  }

  /** What an observation has to meet to join a track. */
  ghost predicate MayJoin(o: Options, t: Track, obs: Observation) {
    && t.status != LOST
    && 0.0 <= Elapsed(o, t, obs) <= o.correlationMaxGapSeconds
    && o.distance(Expected(o, t, obs), obs.position) <= Gate(o.gateMeters, obs.domain)
  }

  lemma GateIs(o: Options, domain: string)
    ensures GateFor(o, domain) == Gate(o.gateMeters, domain)
  {}

  lemma CandidateIs(o: Options, t: Track, obs: Observation)
    ensures Candidate(o, t, obs) <==> MayJoin(o, t, obs)
    ensures Distance(o, t, obs) == o.distance(Expected(o, t, obs), obs.position)
  {
    GeoFilter.ExtrapolateIsPrediction(o.filter.trig, t.ekf, o.filter.process, Elapsed(o, t, obs));
    GateIs(o, obs.domain);
  }

  /** The first of the tracks that an observation may join whose expected position is nearest to it. */
  ghost predicate Joins(o: Options, ts: seq<Track>, obs: Observation, i: nat) {
    && i < |ts| && MayJoin(o, ts[i], obs)
    && var d := o.distance(Expected(o, ts[i], obs), obs.position);
    forall j :: 0 <= j < |ts| && MayJoin(o, ts[j], obs) ==>
      if j < i then d < o.distance(Expected(o, ts[j], obs), obs.position)
        else d <= o.distance(Expected(o, ts[j], obs), obs.position)
  }

  lemma JoinsIs(o: Options, ts: seq<Track>, obs: Observation, i: nat)
    ensures Nearest(o, ts, obs) == Some(i) <==> Joins(o, ts, obs, i)
    ensures Nearest(o, ts, obs) == None <==> forall j :: 0 <= j < |ts| ==> !MayJoin(o, ts[j], obs)
  {
    NearestIs(o, ts, obs, i);
    forall j | 0 <= j < |ts|
      ensures Candidate(o, ts[j], obs) <==> MayJoin(o, ts[j], obs)
      ensures Distance(o, ts[j], obs) == o.distance(Expected(o, ts[j], obs), obs.position)
    {
      CandidateIs(o, ts[j], obs);
    }
  }

  /**
    In any run an observation joins the first track expected nearest to it, leaving all
    others as they are, and starts a track of its own exactly when it may join none.
  */
  lemma ObserveJoins(o: Options, steps: seq<Step>, obs: Observation, id: string, longer: seq<Step>)
    requires longer == steps + [Observe(obs, id)]
    ensures var ts, ts' := Run(o, steps).tracks, Run(o, longer).tracks;
      if forall j :: 0 <= j < |ts| ==> !MayJoin(o, ts[j], obs)
      then |ts'| == |ts| + 1 && ts'[..|ts|] == ts && ts'[|ts|].entityId == id && Explained(o, ts'[|ts|], [obs])
      else exists i: nat :: Joins(o, ts, obs, i) && |ts'| == |ts| && ts' == ts[i := ts'[i]]
  {
    var ts := Run(o, steps).tracks;
    RunSnoc(o, steps, Observe(obs, id));
    var r := Nearest(o, ts, obs);
    JoinsIs(o, ts, obs, if r.Some? then r.value else 0);
    SpawnExplained(o, id, obs);
  }

  /** An observation where one of the filters expects it never starts a track. */
  lemma OnCourse(o: Options, steps: seq<Step>, obs: Observation, id: string, longer: seq<Step>, i: nat)
    requires longer == steps + [Observe(obs, id)] && i < |Run(o, steps).tracks|
    requires OnTrack(o, Run(o, steps).tracks[i], obs)
    requires o.distance(obs.position, obs.position) == 0.0 && Gate(o.gateMeters, obs.domain) >= 0.0
    ensures |Run(o, longer).tracks| == |Run(o, steps).tracks|
  {
    RunSnoc(o, steps, Observe(obs, id));
    OnCourseJoins(o, Run(o, steps).tracks, obs, i);
  }

  /** In time, and where the track's filter expects it. */
  ghost predicate OnTrack(o: Options, t: Track, obs: Observation) {
    && t.status != LOST && 0.0 <= Elapsed(o, t, obs) <= o.correlationMaxGapSeconds
    && obs.position == Expected(o, t, obs)
  }

  lemma OnCourseJoins(o: Options, ts: seq<Track>, obs: Observation, i: nat)
    requires i < |ts| && OnTrack(o, ts[i], obs)
    requires o.distance(obs.position, obs.position) == 0.0 && Gate(o.gateMeters, obs.domain) >= 0.0
    ensures Nearest(o, ts, obs).Some?
  {
    assert MayJoin(o, ts[i], obs);
    JoinsIs(o, ts, obs, i);
  }

  // ------------------------------------------------ where the fix moves a track

  lemma FuseCorrects(o: Options, ekf: Ekf, dt: real, z: Position)
    requires o.filter.Ok() && GeoFilter.Healthy(ekf)
    ensures var p := if dt > 0.0 then GeoFilter.Predicted(o.filter.trig, ekf, o.filter.process, dt) else ekf;
      GeoCorrection.Corrects(p, o.filter.measurement, z, Fuse(o, ekf, dt, z))
  {
    if dt > 0.0 { GeoFilter.PredictHealthy(o.filter, ekf, dt); }
    var p := if dt > 0.0 then GeoFilter.Predicted(o.filter.trig, ekf, o.filter.process, dt) else ekf;
    GeoCorrection.UpdateCorrects(o.filter, p, z);
  }

  /** In any run the joined track's filter is the predicted one, corrected by the observed position. */
  lemma FixMovesTrack(o: Options, steps: seq<Step>, obs: Observation, id: string, longer: seq<Step>, i: nat)
    requires o.filter.Ok() && o.initialVar.Positive() && longer == steps + [Observe(obs, id)]
    requires Joins(o, Run(o, steps).tracks, obs, i)
    ensures i < |Run(o, longer).tracks|
    ensures var t, dt := Run(o, steps).tracks[i], Elapsed(o, Run(o, steps).tracks[i], obs);
      var p := if dt > 0.0 then GeoFilter.Predicted(o.filter.trig, t.ekf, o.filter.process, dt) else t.ekf;
      GeoCorrection.Corrects(p, o.filter.measurement, obs.position, Run(o, longer).tracks[i].ekf)
  {
    var h := Run(o, steps);
    RunExplained(o, steps, i);
    EkfIsReplay(o, Own(h.observed, h.targets, i));
    RunSnoc(o, steps, Observe(obs, id));
    JoinsIs(o, h.tracks, obs, i);
    FuseCorrects(o, h.tracks[i].ekf, Elapsed(o, h.tracks[i], obs), obs.position);
  }

  // ------------------------------------------------------------------ sweeps

  /** A sweep gives a track up exactly when its last fix is more than the timeout ago, and changes nothing else. */
  lemma SweepLoses(o: Options, ts: seq<Track>, nowMs: real, i: nat)
    requires i < |ts|
    ensures var t := Evicted(o, ts, nowMs)[i];
      && t == ts[i].(status := t.status)
      && t.status == if nowMs - o.parse(ts[i].lastSensorTs) > o.lostTimeoutMs then LOST else ts[i].status
  {}

  /** A track the sweep gives up. */
  predicate Overdue(o: Options, t: Track, nowMs: real) {
    t.status != LOST && nowMs - o.parse(t.lastSensorTs) > o.lostTimeoutMs
  }

  /** The tracks at these positions, given up. */
  ghost predicate GivenUp(ts: seq<Track>, from: seq<nat>, lost: seq<Track>) {
    |from| == |lost| && forall a :: 0 <= a < |from| ==> from[a] < |ts| && lost[a] == ts[from[a]].(status := LOST)
  }

  /** It reports exactly the tracks it changed, in their order. */
  lemma {:induction false} SweepReports(o: Options, ts: seq<Track>, nowMs: real) returns (from: seq<nat>)
    ensures GivenUp(ts, from, JustLost(o, ts, nowMs))
    ensures forall a, b :: 0 <= a < b < |from| ==> from[a] < from[b]
    ensures forall i: nat :: i < |ts| ==> (i in from <==> Overdue(o, ts[i], nowMs))
  {
    from := [];
    if ts != [] {
      var n := |ts| - 1;
      var before := SweepReports(o, ts[..n], nowMs);
      from := before + if Overdue(o, ts[n], nowMs) then [n] else [];
      GivenUpNext(ts, before, JustLost(o, ts[..n], nowMs), Overdue(o, ts[n], nowMs), from, JustLost(o, ts, nowMs));
      forall i: nat | i < |ts| ensures i in from <==> Overdue(o, ts[i], nowMs) {
        if i < n { assert ts[..n][i] == ts[i]; }
      }
    }
  }

  lemma GivenUpNext(ts: seq<Track>, before: seq<nat>, lost: seq<Track>, last: bool, from: seq<nat>, lost': seq<Track>)
    requires ts != [] && GivenUp(ts[..|ts| - 1], before, lost)
    requires from == before + if last then [|ts| - 1] else []
    requires lost' == if last then lost + [ts[|ts| - 1].(status := LOST)] else lost
    ensures GivenUp(ts, from, lost') && forall a :: 0 <= a < |before| ==> before[a] < |ts| - 1
  {}
}
