/**
  What one observation makes the pipeline say, with the mapper, the column list and
  the comparison of stored and fused values written out: a new entity, an update
  naming exactly the changed fields, or nothing.
*/
module Announcements {
  import opened Wrappers
  import opened Pipeline
  import DeltaSync
  import Filtering
  import TrackManager
  import Watermark
  import Cycles

  function Motion(env: Env, t: Track): Kinematics {
    Kinematics(env.speedKmh(t.ekf), env.headingDeg(t.ekf), t.trajectory)
  }

  /** The names an update can carry, in order, and whether what is stored under them is not the track's. */
  ghost function Compared(env: Env, row: Row, t: Track, noStrike: bool): seq<(string, bool)> {
    [("classification", row.classification != t.classification),
     ("confidence", row.confidence != t.confidence),
     ("status", row.status != t.status),
     ("affiliation", row.affiliation != t.affiliation),
     ("source_sensors", row.sourceSensors != t.sourceSensors),
     ("position", row.lon != t.ekf.state[1] || row.lat != t.ekf.state[0] || row.alt != t.ekf.state[2] ||
        row.accuracy != env.accuracy(t.ekf)),
     ("kinematics", env.storedText(row.kinematics) != env.text(Motion(env, t))),
     ("metadata", env.storedMetaText(row.metadata) != env.metaText(Metadata(noStrike)))]
  }

  /** The names that hold. */
  ghost function Named(cs: seq<(string, bool)>): seq<string> {
    if cs == [] then []
    else
      var last := cs[|cs| - 1];
      Named(cs[..|cs| - 1]) + if last.1 then [last.0] else []
  }

  lemma NamedStep(cs: seq<(string, bool)>, k: nat, n: seq<string>) returns (n': seq<string>)
    requires k < |cs| && n == Named(cs[..k])
    ensures n' == Named(cs[..k + 1]) && n' == Flag(n, cs[k].1, cs[k].0)
  {
    n' := Named(cs[..k + 1]);
    assert cs[..k + 1][..k] == cs[..k];
    if !cs[k].1 { assert n + [] == n; }
  }

  ghost function ChangedNames(env: Env, row: Row, t: Track, noStrike: bool): seq<string> {
    Named(Compared(env, row, t, noStrike))
  }

  lemma NamedEight(cs: seq<(string, bool)>)
    requires |cs| == 8
    ensures Named(cs) ==
      Flag(Flag(Flag(Flag(Flag(Flag(Flag(Flag([], cs[0].1, cs[0].0), cs[1].1, cs[1].0), cs[2].1, cs[2].0),
        cs[3].1, cs[3].0), cs[4].1, cs[4].0), cs[5].1, cs[5].0), cs[6].1, cs[6].0), cs[7].1, cs[7].0)
  {
    assert cs[..0] == [] && cs[..8] == cs;
    var n := Named(cs[..0]);
    n := NamedStep(cs, 0, n);
    n := NamedStep(cs, 1, n);
    n := NamedStep(cs, 2, n);
    n := NamedStep(cs, 3, n);
    n := NamedStep(cs, 4, n);
    n := NamedStep(cs, 5, n);
    n := NamedStep(cs, 6, n);
    n := NamedStep(cs, 7, n);
  }

  lemma DiffByFlags(env: Env, row: Row, e: Entity, cs: seq<(string, bool)>)
    requires |cs| == 8
    requires cs[0] == ("classification", row.classification != e.classification)
    requires cs[1] == ("confidence", row.confidence != e.confidence)
    requires cs[2] == ("status", row.status != e.status)
    requires cs[3] == ("affiliation", row.affiliation != e.affiliation)
    requires cs[4] == ("source_sensors", row.sourceSensors != e.sourceSensors)
    requires cs[5] == ("position", Moved(row, e))
    requires cs[6] == ("kinematics", env.storedText(row.kinematics) != env.text(e.kinematics))
    requires cs[7] == ("metadata", env.storedMetaText(row.metadata) != env.metaText(e.metadata))
    ensures Diff(env, row, e) == Named(cs)
  {
    NamedEight(cs);
  }

  /** The update's list is exactly the names whose stored values differ. */
  lemma DiffIsChanged(env: Env, row: Row, t: Track, noStrike: bool)
    ensures Diff(env, row, MapToEntity(env, t, noStrike)) == ChangedNames(env, row, t, noStrike)
  {
    DiffByFlags(env, row, MapToEntity(env, t, noStrike), Compared(env, row, t, noStrike));
  }

  /** An entity that is the track's, field by field. */
  ghost predicate Exactly(env: Env, e: Entity, t: Track, noStrike: bool) {
    && e.entityId == t.entityId && e.classification == t.classification && e.confidence == t.confidence
    && e.status == t.status && e.affiliation == t.affiliation && e.sourceSensors == t.sourceSensors
    && e.position.lat == t.ekf.state[0] && e.position.lon == t.ekf.state[1] && e.position.alt == t.ekf.state[2]
    && e.position.mgrs == env.mgrs(t.ekf.state[1], t.ekf.state[0]) && e.position.accuracy == env.accuracy(t.ekf)
    && e.kinematics == Motion(env, t) && e.metadata == Metadata(noStrike)
    && e.firstDetected == t.firstDetected && e.lastUpdated == t.lastSensorTs
  }

  /** What is said of the track an observation ended up on. */
  ghost predicate Announced(env: Env, s: State, s': State, t: Track, noStrike: bool) {
    var k := t.entityId;
    if k in s.rows && ChangedNames(env, s.rows[k], t, noStrike) == []
    then s'.emitted == s.emitted && s'.log == s.log && s'.rows == s.rows
    else
      exists e: Entity ::
        && Exactly(env, e, t, noStrike)
        && s'.emitted == s.emitted +
             [if k in s.rows then Updated(k, ChangedNames(env, s.rows[k], t, noStrike), e) else Created(e)]
        && s'.log == s.log + [DeltaSync.Message(k, Some(e), t.lastSensorTs)]
  }

  /** In any state, one observation: what is said, and that the row then holds the zone answer. */
  lemma ProcessAnnounces(env: Env, s: State, obs: Observation, id: string, noStrike: bool)
    requires Faithful(env)
    ensures var s', i := Processed(env, s, obs, id, noStrike), TrackManager.Target(env.options, s.tracks, obs);
      && i < |s'.tracks|
      && var t := s'.tracks[i];
         Announced(env, s, s', t, noStrike) && t.entityId in s'.rows &&
         s'.rows[t.entityId].metadata == Metadata(noStrike)
  {
    var tracks := TrackManager.Correlated(env.options, s.tracks, obs, id);
    var t := tracks[TrackManager.Target(env.options, s.tracks, obs)];
    PublishAnnounces(env, s.(tracks := tracks), t, noStrike);
  }

  lemma PublishAnnounces(env: Env, s: State, t: Track, noStrike: bool)
    requires Faithful(env)
    ensures var s' := Publish(env, s, MapToEntity(env, t, noStrike));
      Announced(env, s, s', t, noStrike) && t.entityId in s'.rows &&
      s'.rows[t.entityId].metadata == Metadata(noStrike)
  {
    var e := MapToEntity(env, t, noStrike);
    assert Exactly(env, e, t, noStrike);
    if t.entityId in s.rows {
      DiffIsChanged(env, s.rows[t.entityId], t, noStrike);
      if Diff(env, s.rows[t.entityId], e) == [] { NoDiff(env, s.rows[t.entityId], e); }
    }
  }

  /** Losing a track: its last fused position goes out, null is published, and its row loses any no-strike mark. */
  lemma LoseSays(env: Env, s: State, t: Track, nowIso: string)
    requires Faithful(env)
    ensures var s' := Lose(env, s, t, nowIso);
      && t.entityId in s'.rows && s'.rows[t.entityId].metadata == Metadata(false)
      && (exists e :: SaysLost(env, e, t) && e.ts == nowIso && s'.emitted == s.emitted + [e])
      && s'.log == s.log + [DeltaSync.Message(t.entityId, None, nowIso)]
  {
    var e := MapToEntity(env, t, false);
    assert SaysLost(env, Lost(t.entityId, e.position, nowIso), t);
    if t.entityId in s.rows && Diff(env, s.rows[t.entityId], e) == [] { NoDiff(env, s.rows[t.entityId], e); }
  }

  // -------------------------------------------------------------- what is observed

  predicate Known(domain: string) { domain == "ais" || domain == "adsb" || domain == "ewrf" || domain == "iot" }

  /** An event the mapper of its own domain can place. */
  predicate Yields(env: Env, e: Watermark.Event, obs: Observation) {
    Known(e.domain) && env.fromDomain(e.domain, e.payload) == Some(obs)
  }

  /** The correlator is given one observation for each event of the four domains that its mapper can place, in order. */
  lemma {:induction false} ObservationsAre(env: Env, es: seq<Watermark.Event>) returns (at: seq<nat>)
    ensures |at| == |Cycles.Observations(env, es)|
    ensures forall j :: 0 <= j < |at| ==> at[j] < |es| && Yields(env, es[at[j]], Cycles.Observations(env, es)[j])
    ensures forall i, j :: 0 <= i < j < |at| ==> at[i] < at[j]
    ensures forall i: nat :: i < |es| ==> (i in at <==> exists obs :: Yields(env, es[i], obs))
  {
    at := [];
    if es != [] {
      var n := |es| - 1;
      at := ObservationsAre(env, es[..n]);
      assert forall i :: 0 <= i < n ==> es[..n][i] == es[i];
      assert forall i :: i in at ==> i < n;
      var obs := ToObservation(env, es[n]);
      if obs.Some? {
        assert Yields(env, es[n], obs.value);
        at := at + [n];
      }
    }
  }
}
