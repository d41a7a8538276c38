/**
  One fusion cycle: poll, correlate, persist, emit and publish, then sweep the stale
  tracks.  Seen from a single entity a run is a small life: it is created, updated
  any number of times and at most once lost, on the gateway and in the topic alike,
  and its database row always shows its track.  With the replay of the topic this
  makes a caught-up mirror agree with the database.
*/
module Pipeline {
  import opened Wrappers
  import Filtering
  import TrackManager
  import Watermark
  import DeltaSync

  type Ekf = TrackManager.Ekf
  type Track = TrackManager.Track
  type Observation = TrackManager.Observation

  datatype Kinematics = Kinematics(speedKmh: real, headingDeg: real, trajectory: seq<TrackManager.Point>)
  datatype Metadata = Metadata(noStrike: bool)
  datatype Place = Place(lat: real, lon: real, alt: real, mgrs: string, accuracy: real)

  datatype Entity = Entity(entityId: string, classification: string, confidence: real, status: TrackManager.Status,
                           affiliation: TrackManager.Affiliation, sourceSensors: seq<string>, position: Place,
                           kinematics: Kinematics, metadata: Metadata, firstDetected: string, lastUpdated: string)

  /** A row of the `entities` table; its two timestamps are in milliseconds. */
  datatype Row = Row(classification: string, confidence: real, status: TrackManager.Status,
                     affiliation: TrackManager.Affiliation, sourceSensors: seq<string>,
                     lon: real, lat: real, alt: real, accuracy: real,
                     kinematics: Kinematics, metadata: Metadata, firstDetected: real, lastUpdated: real)

  type Message = DeltaSync.Message<Entity>

  /** What goes out on the gateway. */
  datatype Emission =
    | Created(entity: Entity)
    | Updated(id: string, changedFields: seq<string>, entity: Entity)
    | Lost(id: string, position: Place, ts: string)

  function EmittedFor(e: Emission): string { if e.Created? then e.entity.entityId else e.id }

  /**
    The functions the cycle calls: the track manager's, the wire mappers, MGRS, the
    filter's getters, the rounding of a `real` column, and `JSON.stringify` of a
    value and of what comes back from a `jsonb` column (which may order keys differently).
  */
  datatype Env = Env(options: TrackManager.Options, fromDomain: (string, string) -> Option<Observation>,
                     mgrs: (real, real) -> string, accuracy: Ekf -> real,
                     speedKmh: Ekf -> real, headingDeg: Ekf -> real, single: real -> real,
                     text: Kinematics -> string, storedText: Kinematics -> string,
                     metaText: Metadata -> string, storedMetaText: Metadata -> string)

  /** Equal texts come from equal values, and rounding twice changes nothing. */
  ghost predicate Faithful(env: Env) {
    && (forall a, b :: env.storedText(a) == env.text(b) ==> a == b)
    && (forall a, b :: env.storedMetaText(a) == env.metaText(b) ==> a == b)
    && (forall x :: env.single(env.single(x)) == env.single(x))
  }

  function ToObservation(env: Env, e: Watermark.Event): Option<Observation> {
    if e.domain in ["ais", "adsb", "ewrf", "iot"] then env.fromDomain(e.domain, e.payload) else None
  }

  // -------------------------------------------------------------- persistence

  function MapToEntity(env: Env, t: Track, noStrike: bool): Entity {
    var p := t.ekf.Position();
    Entity(t.entityId, t.classification, t.confidence, t.status, t.affiliation, t.sourceSensors,
           Place(p.lat, p.lon, p.alt, env.mgrs(p.lon, p.lat), env.accuracy(t.ekf)),
           Kinematics(env.speedKmh(t.ekf), env.headingDeg(t.ekf), t.trajectory), Metadata(noStrike),
           t.firstDetected, t.lastSensorTs)
  }

  /** What is stored for an entity. */
  function RowOf(env: Env, e: Entity): Row {
    Row(e.classification, env.single(e.confidence), e.status, e.affiliation, e.sourceSensors,
        e.position.lon, e.position.lat, env.single(e.position.alt), env.single(e.position.accuracy), e.kinematics,
        e.metadata, env.options.parse(e.firstDetected), env.options.parse(e.lastUpdated))
  }

  predicate Moved(row: Row, e: Entity) {
    row.lon != e.position.lon || row.lat != e.position.lat || row.alt != e.position.alt ||
      row.accuracy != e.position.accuracy
  }

  function Flag(names: seq<string>, changed: bool, name: string): (r: seq<string>)
    ensures r == [] <==> names == [] && !changed
  {
    if changed then names + [name] else names
  }

  /** The changed fields; `last_updated` and `first_detected` are not compared. */
  function Diff(env: Env, row: Row, e: Entity): seq<string> {
    var c := Flag([], row.classification != e.classification, "classification");
    var c := Flag(c, row.confidence != e.confidence, "confidence");
    var c := Flag(c, row.status != e.status, "status");
    var c := Flag(c, row.affiliation != e.affiliation, "affiliation");
    var c := Flag(c, row.sourceSensors != e.sourceSensors, "source_sensors");
    var c := Flag(c, Moved(row, e), "position");
    var c := Flag(c, env.storedText(row.kinematics) != env.text(e.kinematics), "kinematics");
    Flag(c, env.storedMetaText(row.metadata) != env.metaText(e.metadata), "metadata")
  }

  method DiffFields(env: Env, row: Row, next: Entity) returns (changed: seq<string>)
    ensures changed == Diff(env, row, next)
  {
    changed := [];
    if row.classification != next.classification { changed := changed + ["classification"]; }
    if row.confidence != next.confidence { changed := changed + ["confidence"]; }
    if row.status != next.status { changed := changed + ["status"]; }
    if row.affiliation != next.affiliation { changed := changed + ["affiliation"]; }
    if row.sourceSensors != next.sourceSensors { changed := changed + ["source_sensors"]; }
    if Moved(row, next) { changed := changed + ["position"]; }
    if env.storedText(row.kinematics) != env.text(next.kinematics) { changed := changed + ["kinematics"]; }
    if env.storedMetaText(row.metadata) != env.metaText(next.metadata) { changed := changed + ["metadata"]; }
  }

  /** An empty diff means the row already stores all the compared columns. */
  lemma NoDiff(env: Env, row: Row, e: Entity)
    requires Faithful(env) && Diff(env, row, e) == []
    ensures row == Row(e.classification, e.confidence, e.status, e.affiliation, e.sourceSensors,
                       e.position.lon, e.position.lat, e.position.alt, e.position.accuracy, e.kinematics, e.metadata,
                       row.firstDetected, row.lastUpdated)
  {
    assert env.storedText(row.kinematics) == env.text(e.kinematics);
    assert env.storedMetaText(row.metadata) == env.metaText(e.metadata);
  }

  // --------------------------------------------------------------- the effects

  datatype State = State(tracks: seq<Track>, rows: map<string, Row>, emitted: seq<Emission>, log: seq<Message>)

  const START: State := State([], map[], [], [])

  /** `upsertEntity`: an update leaves `first_detected` as it is. */
  function Upsert(env: Env, rows: map<string, Row>, e: Entity): map<string, Row> {
    if e.entityId !in rows then rows[e.entityId := RowOf(env, e)]
    else if Diff(env, rows[e.entityId], e) == [] then rows
    else rows[e.entityId := RowOf(env, e).(firstDetected := rows[e.entityId].firstDetected)]
  }

  /** The emission for an upsert, if any. */
  function Announcement(env: Env, rows: map<string, Row>, e: Entity): Option<Emission> {
    if e.entityId !in rows then Some(Created(e))
    else
      var changed := Diff(env, rows[e.entityId], e);
      if changed == [] then None else Some(Updated(e.entityId, changed, e))
  }

  /** Persisting, announcing and publishing one fused entity. */
  function Publish(env: Env, s: State, e: Entity): State {
    var a := Announcement(env, s.rows, e);
    var s' := s.(rows := Upsert(env, s.rows, e));
    if a.None? then s'
    else s'.(emitted := s.emitted + [a.value],
             log := s.log + [DeltaSync.Message(e.entityId, Some(e), e.lastUpdated)])
  }

  /** One observation; `id` is what `randomUUID` would return, `noStrike` the zone query's answer. */
  function Processed(env: Env, s: State, obs: Observation, id: string, noStrike: bool): State {
    var tracks := TrackManager.Correlated(env.options, s.tracks, obs, id);
    var t := tracks[TrackManager.Target(env.options, s.tracks, obs)];
    Publish(env, s.(tracks := tracks), MapToEntity(env, t, noStrike))
  }

  /** One lost track. */
  function Lose(env: Env, s: State, t: Track, nowIso: string): State {
    var e := MapToEntity(env, t, false);
    s.(rows := Upsert(env, s.rows, e), emitted := s.emitted + [Lost(t.entityId, e.position, nowIso)],
       log := s.log + [DeltaSync.Message(e.entityId, None, nowIso)])
  }

  function LoseAll(env: Env, s: State, lost: seq<Track>, nowIso: string): State {
    if lost == [] then s else Lose(env, LoseAll(env, s, lost[..|lost| - 1], nowIso), lost[|lost| - 1], nowIso)
  }

  function Swept(env: Env, s: State, nowIso: string): State {
    var nowMs := env.options.parse(nowIso);
    LoseAll(env, s.(tracks := TrackManager.Evicted(env.options, s.tracks, nowMs)),
            TrackManager.JustLost(env.options, s.tracks, nowMs), nowIso)
  }

  /** A batch, with the ids and zone answers it would draw at each of its events. */
  function Batched(env: Env, s: State, batch: seq<Watermark.Event>, uuids: nat -> string, zones: nat -> bool): State {
    if batch == [] then s
    else
      var n := |batch| - 1;
      var s' := Batched(env, s, batch[..n], uuids, zones);
      var obs := ToObservation(env, batch[n]);
      if obs.None? then s' else Processed(env, s', obs.value, uuids(n), zones(n))
  }

  // ------------------------------------------------------------------ the class

  class FusionPipeline {
    const env: Env
    const window: Watermark.WatermarkWindow
    const trackManager: TrackManager.TrackManager
    var rows: map<string, Row>
    var emitted: seq<Emission>
    var log: seq<Message>

    function Value(): State reads this, trackManager { State(trackManager.tracks, rows, emitted, log) }

    constructor (env: Env, window: Watermark.WatermarkWindow, trackManager: TrackManager.TrackManager)
      requires trackManager.tracks == []
      ensures this.env == env && this.window == window && this.trackManager == trackManager && Value() == START
    {
      this.env, this.window, this.trackManager := env, window, trackManager;
      rows, emitted, log := map[], [], [];
    }

    /** One poll-and-process cycle. */
    method RunOnce(streams: Watermark.Streams, blocking: bool, uuids: nat -> string, zones: nat -> bool, nowIso: string)
      requires trackManager.options == env.options
      modifies this, window, trackManager
      ensures var polled := Watermark.Polled(window.config, old(window.Value()), streams, blocking);
        && window.Value() == polled.window
        && Value() == Swept(env, Batched(env, old(Value()), polled.released, uuids, zones), nowIso)
    {
      var batch := window.Poll(streams, blocking);
      ProcessBatch(batch, uuids, zones);
      SweepStale(nowIso);
    }

    /** The second half of the cycle: the tracks nothing has updated for too long. */
    method SweepStale(nowIso: string)
      requires trackManager.options == env.options
      modifies this, trackManager
      ensures Value() == Swept(env, old(Value()), nowIso)
    {
      var lost := trackManager.EvictStale(nowIso);
      ghost var evicted := Value();
      for i := 0 to |lost|
        invariant Value() == LoseAll(env, evicted, lost[..i], nowIso)
      {
        LoseNext(env, evicted, lost, i, nowIso);
        PublishLost(lost[i], nowIso);
      }
      assert lost[..|lost|] == lost;
    }

    method PublishLost(track: Track, nowIso: string)
      modifies this
      ensures Value() == Lose(env, old(Value()), track, nowIso)
    {
      var entity := MapToEntity(env, track, false);
      rows := Upsert(env, rows, entity);
      emitted := emitted + [Lost(track.entityId, entity.position, nowIso)];
      log := log + [DeltaSync.Message(entity.entityId, None, nowIso)];
    }

    method ProcessBatch(batch: seq<Watermark.Event>, uuids: nat -> string, zones: nat -> bool)
      requires trackManager.options == env.options
      modifies this, trackManager
      ensures Value() == Batched(env, old(Value()), batch, uuids, zones)
    {
      for i := 0 to |batch|
        invariant Value() == Batched(env, old(Value()), batch[..i], uuids, zones)
      {
        assert batch[..i + 1][..i] == batch[..i];
        var obs := ToObservation(env, batch[i]);
        if obs.None? { continue; }
        var index, _ := trackManager.Observe(obs.value, uuids(i));
        var entity := MapToEntity(env, trackManager.tracks[index], zones(i));
        PublishEntity(entity);
      }
      assert batch[..|batch|] == batch;
    }

    /** Persist, announce, publish. */
    method PublishEntity(entity: Entity)
      modifies this
      ensures Value() == Publish(env, old(Value()), entity)
    {
      if entity.entityId !in rows {
        rows := rows[entity.entityId := RowOf(env, entity)];
        emitted := emitted + [Created(entity)];
        log := log + [DeltaSync.Message(entity.entityId, Some(entity), entity.lastUpdated)];
        return;
      }
      var existing := rows[entity.entityId];
      var changedFields := DiffFields(env, existing, entity);
      if |changedFields| > 0 {
        rows := rows[entity.entityId := RowOf(env, entity).(firstDetected := existing.firstDetected)];
        emitted := emitted + [Updated(entity.entityId, changedFields, entity)];
        log := log + [DeltaSync.Message(entity.entityId, Some(entity), entity.lastUpdated)];
      }
    }
  }

  lemma LoseNext(env: Env, s: State, lost: seq<Track>, i: nat, nowIso: string)
    requires i < |lost|
    ensures LoseAll(env, s, lost[..i + 1], nowIso) == Lose(env, LoseAll(env, s, lost[..i], nowIso), lost[i], nowIso)
  {
    assert lost[..i + 1][..i] == lost[..i];
  }

  // ---------------------------------------------------------------- whole runs

  datatype Step = Process(obs: Observation, id: string, noStrike: bool) | Sweep(nowIso: string)

  ghost function Next(env: Env, s: State, step: Step): State {
    match step
    case Process(obs, id, noStrike) => Processed(env, s, obs, id, noStrike)
    case Sweep(nowIso) => Swept(env, s, nowIso)
  }

  ghost function Run(env: Env, steps: seq<Step>): State {
    if steps == [] then START else Next(env, Run(env, steps[..|steps| - 1]), steps[|steps| - 1])
  }

  /** The steps of one cycle. */
  ghost function CycleSteps(env: Env, batch: seq<Watermark.Event>,
                            uuids: nat -> string, zones: nat -> bool): seq<Step> {
    if batch == [] then []
    else
      var n := |batch| - 1;
      var obs := ToObservation(env, batch[n]);
      CycleSteps(env, batch[..n], uuids, zones) + (if obs.Some? then [Process(obs.value, uuids(n), zones(n))] else [])
  }

  lemma RunSnoc(env: Env, steps: seq<Step>, step: Step)
    ensures Run(env, steps + [step]) == Next(env, Run(env, steps), step)
  {
    assert (steps + [step])[..|steps|] == steps;
  }

  /** A cycle of the class is a run of these steps. */
  lemma {:induction false} CycleIsSteps(env: Env, steps: seq<Step>, batch: seq<Watermark.Event>,
                                        uuids: nat -> string, zones: nat -> bool, nowIso: string)
    ensures Batched(env, Run(env, steps), batch, uuids, zones) == Run(env, steps + CycleSteps(env, batch, uuids, zones))
    ensures Swept(env, Batched(env, Run(env, steps), batch, uuids, zones), nowIso)
         == Run(env, steps + CycleSteps(env, batch, uuids, zones) + [Sweep(nowIso)])
  {
    var cycle := CycleSteps(env, batch, uuids, zones);
    if batch == [] {
      assert steps + cycle == steps;
    } else {
      var n := |batch| - 1;
      var init, obs := CycleSteps(env, batch[..n], uuids, zones), ToObservation(env, batch[n]);
      CycleIsSteps(env, steps, batch[..n], uuids, zones, nowIso);
      if obs.Some? {
        RunSnoc(env, steps + init, Process(obs.value, uuids(n), zones(n)));
        assert steps + cycle == (steps + init) + [Process(obs.value, uuids(n), zones(n))];
      } else {
        assert cycle == init;
      }
    }
    RunSnoc(env, steps + cycle, Sweep(nowIso));
  }

  /** The ids drawn never repeat. */
  ghost predicate Fresh(steps: seq<Step>) {
    forall i, j :: 0 <= i < j < |steps| && steps[i].Process? && steps[j].Process? ==> steps[i].id != steps[j].id
  }

  // ------------------------------------------------------ one entity's view of it

  function Concerns(k: string): Emission -> bool { (e: Emission) => EmittedFor(e) == k }
  function Keyed(k: string): Message -> bool { (m: Message) => m.entityId == k }

  /** The row, the emissions and the messages of one entity. */
  datatype View = View(row: Option<Row>, emitted: seq<Emission>, log: seq<Message>)

  const NOTHING: View := View(None, [], [])

  function ViewOf(s: State, k: string): View {
    View(DeltaSync.Find(s.rows, k), Filtering.Filter(Concerns(k), s.emitted), Filtering.Filter(Keyed(k), s.log))
  }

  function UpsertedRow(env: Env, row: Option<Row>, e: Entity): Row {
    if row.None? then RowOf(env, e)
    else if Diff(env, row.value, e) == [] then row.value
    else RowOf(env, e).(firstDetected := row.value.firstDetected)
  }

  function PublishedView(env: Env, v: View, e: Entity): View {
    var row := Some(UpsertedRow(env, v.row, e));
    var m := DeltaSync.Message(e.entityId, Some(e), e.lastUpdated);
    if v.row.None? then View(row, v.emitted + [Created(e)], v.log + [m])
    else
      var changed := Diff(env, v.row.value, e);
      if changed == [] then v.(row := row) else View(row, v.emitted + [Updated(e.entityId, changed, e)], v.log + [m])
  }

  function LostView(env: Env, v: View, t: Track, nowIso: string): View {
    var e := MapToEntity(env, t, false);
    View(Some(UpsertedRow(env, v.row, e)), v.emitted + [Lost(t.entityId, e.position, nowIso)],
         v.log + [DeltaSync.Message(e.entityId, None, nowIso)])
  }

  /** Publishing one entity is invisible to every other. */
  lemma PublishLocal(env: Env, s: State, e: Entity, k: string)
    ensures ViewOf(Publish(env, s, e), k) == if e.entityId == k then PublishedView(env, ViewOf(s, k), e)
        else ViewOf(s, k)
  {
    var a := Announcement(env, s.rows, e);
    if a.Some? { Filtering.FilterSnoc(Concerns(k), s.emitted, a.value); }
    Filtering.FilterSnoc(Keyed(k), s.log, DeltaSync.Message(e.entityId, Some(e), e.lastUpdated));
  }

  lemma LoseLocal(env: Env, s: State, t: Track, nowIso: string, k: string)
    ensures ViewOf(Lose(env, s, t, nowIso), k) == if t.entityId == k then LostView(env, ViewOf(s, k), t, nowIso)
        else ViewOf(s, k)
  {
    var e := MapToEntity(env, t, false);
    Filtering.FilterSnoc(Concerns(k), s.emitted, Lost(t.entityId, e.position, nowIso));
    Filtering.FilterSnoc(Keyed(k), s.log, DeltaSync.Message(e.entityId, None, nowIso));
  }

  ghost predicate DistinctIds(ts: seq<Track>) {
    forall i, j :: 0 <= i < j < |ts| ==> ts[i].entityId != ts[j].entityId
  }

  /** What a sweep does to the view of track `i`. */
  function SweptView(env: Env, v: View, t: Track, nowIso: string): View {
    var nowMs := env.options.parse(nowIso);
    if TrackManager.Stale(env.options, t, nowMs)
      then LostView(env, v, TrackManager.Evict(env.options, t, nowMs), nowIso) else v
  }

  /** The view of `k` once the stale ones of some tracks are lost. */
  function ViewAfter(env: Env, s: State, ts: seq<Track>, nowIso: string, k: string): View {
    ViewOf(LoseAll(env, s, TrackManager.JustLost(env.options, ts, env.options.parse(nowIso)), nowIso), k)
  }

  /** A sweep treats each track by itself. */
  lemma {:induction false} SweepLocal(env: Env, s: State, ts: seq<Track>, nowIso: string, i: nat)
    requires DistinctIds(ts) && i < |ts|
    ensures ViewAfter(env, s, ts, nowIso, ts[i].entityId) == SweptView(env, ViewOf(s, ts[i].entityId), ts[i], nowIso)
  {
    var n := |ts| - 1;
    LoseLast(env, s, ts, nowIso, ts[i].entityId);
    LastIdApart(ts);
    if i == n {
      SweepElsewhere(env, s, ts[..n], nowIso, ts[i].entityId);
    } else {
      assert ts[..n][i] == ts[i];
      SweepLocal(env, s, ts[..n], nowIso, i);
    }
  }

  lemma LastIdApart(ts: seq<Track>)
    requires DistinctIds(ts) && ts != []
    ensures var init, last := ts[..|ts| - 1], ts[|ts| - 1];
      DistinctIds(init) && forall j :: 0 <= j < |init| ==> init[j].entityId != last.entityId
  {}

  lemma {:induction false} SweepElsewhere(env: Env, s: State, ts: seq<Track>, nowIso: string, k: string)
    requires forall j :: 0 <= j < |ts| ==> ts[j].entityId != k
    ensures ViewAfter(env, s, ts, nowIso, k) == ViewOf(s, k)
  {
    if ts != [] {
      SweepElsewhere(env, s, ts[..|ts| - 1], nowIso, k);
      LoseLast(env, s, ts, nowIso, k);
    }
  }

  /** The last track's turn in a sweep. */
  lemma LoseLast(env: Env, s: State, ts: seq<Track>, nowIso: string, k: string)
    requires ts != []
    ensures var t, before := ts[|ts| - 1], ViewAfter(env, s, ts[..|ts| - 1], nowIso, k);
      ViewAfter(env, s, ts, nowIso, k) == if t.entityId == k then SweptView(env, before, t, nowIso) else before
  {
    var nowMs, t := env.options.parse(nowIso), ts[|ts| - 1];
    if TrackManager.Stale(env.options, t, nowMs) {
      var lost := TrackManager.JustLost(env.options, ts[..|ts| - 1], nowMs);
      var gone := TrackManager.Evict(env.options, t, nowMs);
      assert (lost + [gone])[..|lost|] == lost;
      LoseLocal(env, LoseAll(env, s, lost, nowIso), gone, nowIso, k);
    }
  }

  // -------------------------------------------------------------- the life cycle

  /** An emission and the message published with it. */
  ghost predicate Paired(e: Emission, m: Message) {
    && m.entityId == EmittedFor(e)
    && match e
       case Created(entity) => m.entity == Some(entity) && m.ts == entity.lastUpdated
       case Updated(_, _, entity) => m.entity == Some(entity) && m.ts == entity.lastUpdated
       case Lost(_, _, ts) => m.entity == None && m.ts == ts
  }

  /** `new updated* lost?`, and the topic in step with it. */
  ghost predicate Lifecycle(v: View, lost: bool) {
    var n := |v.emitted|;
    && 0 < n == |v.log|
    && (forall j :: 0 <= j < n ==> Paired(v.emitted[j], v.log[j]))
    && (forall j :: 0 <= j < n ==> (v.emitted[j].Created? <==> j == 0))
    && (forall j :: 0 <= j < n ==> (v.emitted[j].Lost? <==> lost && j == n - 1))
  }

  /** The row holds the track's fields, the numbers in `real` columns rounded and the timestamps in milliseconds. */
  ghost predicate Stores(env: Env, row: Row, t: Track) {
    && row.classification == t.classification && row.confidence == env.single(t.confidence)
    && row.status == t.status && row.affiliation == t.affiliation && row.sourceSensors == t.sourceSensors
    && row.lat == t.ekf.state[0] && row.lon == t.ekf.state[1] && row.alt == env.single(t.ekf.state[2])
    && row.accuracy == env.single(env.accuracy(t.ekf))
    && row.kinematics == Kinematics(env.speedKmh(t.ekf), env.headingDeg(t.ekf), t.trajectory)
    && row.firstDetected == env.options.parse(t.firstDetected)
    && row.lastUpdated == env.options.parse(t.lastSensorTs)
  }

  /** So does a published entity, up to the same rounding. */
  ghost predicate Says(env: Env, e: Entity, row: Row, t: Track) {
    && e.entityId == t.entityId && e.classification == t.classification
    && env.single(e.confidence) == env.single(t.confidence)
    && e.status == t.status && e.affiliation == t.affiliation && e.sourceSensors == t.sourceSensors
    && e.position.lat == t.ekf.state[0] && e.position.lon == t.ekf.state[1]
    && env.single(e.position.alt) == env.single(t.ekf.state[2])
    && env.single(e.position.accuracy) == env.single(env.accuracy(t.ekf))
    && e.position.mgrs == env.mgrs(t.ekf.state[1], t.ekf.state[0])
    && e.kinematics == Kinematics(env.speedKmh(t.ekf), env.headingDeg(t.ekf), t.trajectory)
    && e.metadata == row.metadata
    && env.options.parse(e.firstDetected) == env.options.parse(t.firstDetected)
    && env.options.parse(e.lastUpdated) == env.options.parse(t.lastSensorTs)
  }

  /** The gateway was told where a lost track was last. */
  ghost predicate SaysLost(env: Env, e: Emission, t: Track) {
    && e.Lost? && e.id == t.entityId
    && e.position.lat == t.ekf.state[0] && e.position.lon == t.ekf.state[1] && e.position.alt == t.ekf.state[2]
    && e.position.mgrs == env.mgrs(t.ekf.state[1], t.ekf.state[0]) && e.position.accuracy == env.accuracy(t.ekf)
  }

  /** The row shows the track, and so does the last entity published while it is live. */
  ghost predicate Shows(env: Env, v: View, t: Track) {
    && v.row.Some? && Stores(env, v.row.value, t)
    && (t.status != TrackManager.LOST && v.log != [] ==>
          var m := v.log[|v.log| - 1];
          m.entity.Some? && Says(env, m.entity.value, v.row.value, t))
    && (t.status == TrackManager.LOST && v.emitted != [] ==> SaysLost(env, v.emitted[|v.emitted| - 1], t))
  }

  ghost predicate ViewOk(env: Env, v: View, t: Track) {
    Lifecycle(v, t.status == TrackManager.LOST) && Shows(env, v, t)
  }

  /** The last trajectory point carries the track's timestamp. */
  ghost predicate Stamped(t: Track) {
    t.trajectory != [] && t.trajectory[|t.trajectory| - 1].ts == t.lastSensorTs
  }

  /**
    Although timestamps are not compared, an unchanged row is up to date: the compared
    trajectory ends with the timestamp.
  */
  lemma UnchangedIsCurrent(env: Env, row: Row, t: Track, t': Track, noStrike: bool)
    requires Faithful(env) && Stamped(t) && Stamped(t') && t'.firstDetected == t.firstDetected
    requires Stores(env, row, t) && Diff(env, row, MapToEntity(env, t', noStrike)) == []
    ensures Stores(env, row, t') && row.metadata == Metadata(noStrike)
  {
    var e := MapToEntity(env, t', noStrike);
    NoDiff(env, row, e);
    assert row.kinematics.trajectory == t.trajectory == t'.trajectory;
    SingleTwice(env, t.confidence);
    SingleTwice(env, t.ekf.state[2]);
    SingleTwice(env, env.accuracy(t.ekf));
  }

  lemma SingleTwice(env: Env, x: real)
    requires Faithful(env)
    ensures env.single(env.single(x)) == env.single(x)
  {}

  lemma PublishNew(env: Env, t: Track, noStrike: bool)
    requires t.status != TrackManager.LOST
    ensures ViewOk(env, PublishedView(env, NOTHING, MapToEntity(env, t, noStrike)), t)
  {}

  lemma PublishAgain(env: Env, v: View, t: Track, t': Track, noStrike: bool)
    requires Faithful(env) && Stamped(t) && Stamped(t') && t'.firstDetected == t.firstDetected
    requires t'.entityId == t.entityId
    requires ViewOk(env, v, t) && t.status != TrackManager.LOST && t'.status != TrackManager.LOST
    ensures ViewOk(env, PublishedView(env, v, MapToEntity(env, t', noStrike)), t')
  {
    var e := MapToEntity(env, t', noStrike);
    if Diff(env, v.row.value, e) == [] {
      UnchangedIsCurrent(env, v.row.value, t, t', noStrike);
      assert PublishedView(env, v, e) == v;
      SameRow(env, v, t, t');
    } else {
      PublishChanged(env, v, t, t', noStrike);
    }
  }

  /** An up-to-date row needs nothing said. */
  lemma SameRow(env: Env, v: View, t: Track, t': Track)
    requires ViewOk(env, v, t) && t.status != TrackManager.LOST && t'.status != TrackManager.LOST
    requires Stores(env, v.row.value, t') && t'.entityId == t.entityId
    ensures ViewOk(env, v, t')
  {}

  lemma PublishChanged(env: Env, v: View, t: Track, t': Track, noStrike: bool)
    requires t'.firstDetected == t.firstDetected && t'.entityId == t.entityId
    requires ViewOk(env, v, t) && t.status != TrackManager.LOST && t'.status != TrackManager.LOST
    requires Diff(env, v.row.value, MapToEntity(env, t', noStrike)) != []
    ensures ViewOk(env, PublishedView(env, v, MapToEntity(env, t', noStrike)), t')
  {}

  /** Losing a track always changes its row's status, so the row is written. */
  lemma LoseOnce(env: Env, v: View, t: Track, nowIso: string)
    requires ViewOk(env, v, t) && t.status != TrackManager.LOST
    ensures ViewOk(env, LostView(env, v, t.(status := TrackManager.LOST), nowIso), t.(status := TrackManager.LOST))
  {
    var e := MapToEntity(env, t.(status := TrackManager.LOST), false);
    assert v.row.value.status != e.status;
    assert Diff(env, v.row.value, e) != [];
  }

  // --------------------------------------------------------- the run's invariant

  ghost predicate Unknown(ts: seq<Track>, k: string) {
    forall i :: 0 <= i < |ts| ==> ts[i].entityId != k
  }

  lemma TracksAfter(env: Env, s: State, step: Step)
    ensures Next(env, s, step).tracks ==
      match step
      case Process(obs, id, _) => TrackManager.Correlated(env.options, s.tracks, obs, id)
      case Sweep(nowIso) => TrackManager.Evicted(env.options, s.tracks, env.options.parse(nowIso))
  {
    if step.Sweep? {
      var nowMs := env.options.parse(step.nowIso);
      LoseAllTracks(env, s.(tracks := TrackManager.Evicted(env.options, s.tracks, nowMs)),
                    TrackManager.JustLost(env.options, s.tracks, nowMs), step.nowIso);
    }
  }

  lemma {:induction false} LoseAllTracks(env: Env, s: State, lost: seq<Track>, nowIso: string)
    ensures LoseAll(env, s, lost, nowIso).tracks == s.tracks
  {
    if lost != [] { LoseAllTracks(env, s, lost[..|lost| - 1], nowIso); }
  }

  /** A step keeps all ids, and the only id it can add is the one it draws. */
  lemma IdsAfter(env: Env, s: State, step: Step)
    ensures var ts, ts' := s.tracks, Next(env, s, step).tracks;
      && |ts| <= |ts'| <= |ts| + 1 && (forall i :: 0 <= i < |ts| ==> ts'[i].entityId == ts[i].entityId)
      && (|ts'| == |ts| + 1 ==> step.Process? && ts'[|ts|].entityId == step.id)
  {
    TracksAfter(env, s, step);
  }

  /** Every track's id was drawn by one of the steps. */
  lemma {:induction false} IdDrawn(env: Env, steps: seq<Step>, i: nat) returns (j: nat)
    requires i < |Run(env, steps).tracks|
    ensures j < |steps| && steps[j].Process? && steps[j].id == Run(env, steps).tracks[i].entityId
  {
    var n := |steps| - 1;
    IdsAfter(env, Run(env, steps[..n]), steps[n]);
    if i < |Run(env, steps[..n]).tracks| { j := IdDrawn(env, steps[..n], i); } else { j := n; }
  }

  /** No two tracks share an id, and none has the id that is drawn next. */
  lemma {:induction false} IdsDistinct(env: Env, steps: seq<Step>, i: nat, j: nat)
    requires Fresh(steps) && i < j < |Run(env, steps).tracks|
    ensures Run(env, steps).tracks[i].entityId != Run(env, steps).tracks[j].entityId
  {
    var n := |steps| - 1;
    IdsAfter(env, Run(env, steps[..n]), steps[n]);
    if j < |Run(env, steps[..n]).tracks| {
      IdsDistinct(env, steps[..n], i, j);
    } else {
      var d := IdDrawn(env, steps[..n], i);
      assert steps[..n][d] == steps[d] && steps[d].id != steps[n].id;
    }
  }

  lemma StampedAfter(o: TrackManager.Options, ts: seq<Track>, obs: Observation, id: string, i: nat)
    requires i < |TrackManager.Correlated(o, ts, obs, id)| && (i < |ts| ==> Stamped(ts[i]))
    ensures Stamped(TrackManager.Correlated(o, ts, obs, id)[i])
  {}

  lemma {:induction false} RunStamped(env: Env, steps: seq<Step>, i: nat)
    requires i < |Run(env, steps).tracks|
    ensures Stamped(Run(env, steps).tracks[i])
  {
    var init, last := steps[..|steps| - 1], steps[|steps| - 1];
    var ts := Run(env, init).tracks;
    TracksAfter(env, Run(env, init), last);
    if i < |ts| { RunStamped(env, init, i); }
    if last.Process? { StampedAfter(env.options, ts, last.obs, last.id, i); }
  }

  /** Nothing has happened to an id no track has. */
  lemma {:induction false} RunAbsent(env: Env, steps: seq<Step>, k: string)
    requires Unknown(Run(env, steps).tracks, k)
    ensures ViewOf(Run(env, steps), k) == NOTHING
  {
    if steps != [] {
      StepAbsent(env, Run(env, steps[..|steps| - 1]), steps[|steps| - 1], k);
      RunAbsent(env, steps[..|steps| - 1], k);
    }
  }

  lemma StepAbsent(env: Env, s: State, step: Step, k: string)
    requires Unknown(Next(env, s, step).tracks, k)
    ensures Unknown(s.tracks, k) && ViewOf(Next(env, s, step), k) == ViewOf(s, k)
  {
    TracksAfter(env, s, step);
    StillUnknown(env, s.tracks, step, Next(env, s, step).tracks, k);
    match step
    case Process(obs, id, noStrike) =>
      var tracks := TrackManager.Correlated(env.options, s.tracks, obs, id);
      var t := tracks[TrackManager.Target(env.options, s.tracks, obs)];
      PublishLocal(env, s.(tracks := tracks), MapToEntity(env, t, noStrike), k);
    case Sweep(nowIso) =>
      SweepElsewhere(env, s.(tracks := TrackManager.Evicted(env.options, s.tracks, env.options.parse(nowIso))),
        s.tracks, nowIso, k);
  }

  lemma StillUnknown(env: Env, ts: seq<Track>, step: Step, ts': seq<Track>, k: string)
    requires Unknown(ts', k) && match step
      case Process(obs, id, _) => ts' == TrackManager.Correlated(env.options, ts, obs, id)
      case Sweep(nowIso) => ts' == TrackManager.Evicted(env.options, ts, env.options.parse(nowIso))
    ensures Unknown(ts, k)
  {
    forall i | 0 <= i < |ts| ensures ts[i].entityId != k {
      assert ts'[i].entityId == ts[i].entityId;
    }
  }

  /** One observation concerns its target only. */
  lemma ProcessLocal(env: Env, s: State, obs: Observation, id: string, noStrike: bool, k: string)
    ensures var ts, s' := TrackManager.Correlated(env.options, s.tracks, obs, id), Processed(env, s, obs, id, noStrike);
      var t := ts[TrackManager.Target(env.options, s.tracks, obs)];
      && s'.tracks == ts
      && ViewOf(s', k) == if k == t.entityId then PublishedView(env, ViewOf(s, k), MapToEntity(env, t, noStrike))
        else ViewOf(s, k)
  {
    var ts := TrackManager.Correlated(env.options, s.tracks, obs, id);
    PublishLocal(env, s.(tracks := ts), MapToEntity(env, ts[TrackManager.Target(env.options, s.tracks, obs)], noStrike),
      k);
  }

  /** One observation, seen from the track it updates, from the track it starts, and from any other. */
  lemma TargetView(env: Env, s: State, obs: Observation, id: string, noStrike: bool, i: nat)
    requires Faithful(env) && i == TrackManager.Target(env.options, s.tracks, obs) < |s.tracks|
    requires ViewOk(env, ViewOf(s, s.tracks[i].entityId), s.tracks[i]) && Stamped(s.tracks[i])
    ensures var s' := Processed(env, s, obs, id, noStrike);
      |s'.tracks| == |s.tracks| && ViewOk(env, ViewOf(s', s'.tracks[i].entityId), s'.tracks[i])
  {
    var t' := TrackManager.Correlated(env.options, s.tracks, obs, id)[i];
    CorrelatedTrack(env.options, s.tracks, obs, id);
    ProcessLocal(env, s, obs, id, noStrike, t'.entityId);
    PublishAgain(env, ViewOf(s, t'.entityId), s.tracks[i], t', noStrike);
  }

  lemma NewView(env: Env, s: State, obs: Observation, id: string, noStrike: bool)
    requires TrackManager.Target(env.options, s.tracks, obs) == |s.tracks| && ViewOf(s, id) == NOTHING
    ensures var s' := Processed(env, s, obs, id, noStrike);
      |s'.tracks| == |s.tracks| + 1 && ViewOk(env, ViewOf(s', s'.tracks[|s.tracks|].entityId), s'.tracks[|s.tracks|])
  {
    var t := TrackManager.Correlated(env.options, s.tracks, obs, id)[|s.tracks|];
    ProcessLocal(env, s, obs, id, noStrike, t.entityId);
    PublishNew(env, t, noStrike);
  }

  lemma OtherView(env: Env, s: State, obs: Observation, id: string, noStrike: bool, i: nat)
    requires i < |s.tracks| && i != TrackManager.Target(env.options, s.tracks, obs)
    requires var ts := TrackManager.Correlated(env.options, s.tracks, obs, id);
      ts[i].entityId != ts[TrackManager.Target(env.options, s.tracks, obs)].entityId
    ensures var s' := Processed(env, s, obs, id, noStrike);
      s'.tracks[i] == s.tracks[i] && ViewOf(s', s.tracks[i].entityId) == ViewOf(s, s.tracks[i].entityId)
  {
    ProcessLocal(env, s, obs, id, noStrike, s.tracks[i].entityId);
  }

  lemma ProcessView(env: Env, s: State, obs: Observation, id: string, noStrike: bool, i: nat)
    requires Faithful(env) && i < |TrackManager.Correlated(env.options, s.tracks, obs, id)|
    requires i < |s.tracks| ==> ViewOk(env, ViewOf(s, s.tracks[i].entityId), s.tracks[i]) && Stamped(s.tracks[i])
    requires i == |s.tracks| ==> ViewOf(s, id) == NOTHING
    requires var ts, target := TrackManager.Correlated(env.options, s.tracks, obs, id),
        TrackManager.Target(env.options, s.tracks, obs);
      i != target ==> ts[i].entityId != ts[target].entityId
    ensures var s' := Processed(env, s, obs, id, noStrike);
      i < |s'.tracks| && ViewOk(env, ViewOf(s', s'.tracks[i].entityId), s'.tracks[i])
  {
    if i == |s.tracks| {
      NewView(env, s, obs, id, noStrike);
    } else if i == TrackManager.Target(env.options, s.tracks, obs) {
      TargetView(env, s, obs, id, noStrike, i);
    } else {
      OtherView(env, s, obs, id, noStrike, i);
    }
  }

  lemma CorrelatedTrack(o: TrackManager.Options, ts: seq<Track>, obs: Observation, id: string)
    requires TrackManager.Target(o, ts, obs) < |ts|
    ensures var i := TrackManager.Target(o, ts, obs);
      var t, t' := ts[i], TrackManager.Correlated(o, ts, obs, id)[i];
      && t.status != TrackManager.LOST && t'.status != TrackManager.LOST && Stamped(t')
      && t'.entityId == t.entityId && t'.firstDetected == t.firstDetected
  {
    TrackManager.NearestFacts(o, ts, obs);
  }

  /**
    Over any failure-free run with fresh ids each track's entity has been announced as
    `new updated* lost?`, has published in step with that, and is stored as it is.
  */
  lemma {:induction false} RunView(env: Env, steps: seq<Step>, i: nat)
    requires Faithful(env) && Fresh(steps) && i < |Run(env, steps).tracks|
    ensures ViewOk(env, ViewOf(Run(env, steps), Run(env, steps).tracks[i].entityId), Run(env, steps).tracks[i])
  {
    var n := |steps| - 1;
    var s, last := Run(env, steps[..n]), steps[n];
    TracksAfter(env, s, last);
    if i < |s.tracks| {
      RunView(env, steps[..n], i);
      RunStamped(env, steps[..n], i);
    }
    if last.Process? {
      LastProcess(env, steps, s, i);
    } else {
      AllDistinct(env, steps[..n]);
      SweepView(env, s, last.nowIso, i);
    }
  }

  lemma LastProcess(env: Env, steps: seq<Step>, s: State, i: nat)
    requires Faithful(env) && Fresh(steps) && i < |Run(env, steps).tracks|
    requires steps != [] && s == Run(env, steps[..|steps| - 1]) && steps[|steps| - 1].Process?
    requires i < |s.tracks| ==> ViewOk(env, ViewOf(s, s.tracks[i].entityId), s.tracks[i]) && Stamped(s.tracks[i])
    ensures var s' := Next(env, s, steps[|steps| - 1]);
      i < |s'.tracks| && ViewOk(env, ViewOf(s', s'.tracks[i].entityId), s'.tracks[i])
  {
    var last := steps[|steps| - 1];
    ApartFromTarget(env, steps, i);
    TracksAfter(env, s, last);
    if i == |s.tracks| { NewIdIsAbsent(env, steps, last.id); }
    ProcessView(env, s, last.obs, last.id, last.noStrike, i);
  }

  lemma ApartFromTarget(env: Env, steps: seq<Step>, i: nat)
    requires steps != [] && Fresh(steps) && steps[|steps| - 1].Process? && i < |Run(env, steps).tracks|
    ensures var s, obs, id := Run(env, steps[..|steps| - 1]), steps[|steps| - 1].obs, steps[|steps| - 1].id;
      var ts, target := TrackManager.Correlated(env.options, s.tracks, obs, id),
          TrackManager.Target(env.options, s.tracks, obs);
      i < |ts| && (i != target ==> ts[i].entityId != ts[target].entityId)
  {
    var s := Run(env, steps[..|steps| - 1]);
    TracksAfter(env, s, steps[|steps| - 1]);
    var target := TrackManager.Target(env.options, s.tracks, steps[|steps| - 1].obs);
    if i < target { IdsDistinct(env, steps, i, target); }
    if target < i { IdsDistinct(env, steps, target, i); }
  }

  lemma AllDistinct(env: Env, steps: seq<Step>)
    requires Fresh(steps)
    ensures DistinctIds(Run(env, steps).tracks)
  {
    var ts := Run(env, steps).tracks;
    forall j, k | 0 <= j < k < |ts| ensures ts[j].entityId != ts[k].entityId {
      IdsDistinct(env, steps, j, k);
    }
  }

  lemma NewIdIsAbsent(env: Env, steps: seq<Step>, id: string)
    requires steps != [] && Fresh(steps) && steps[|steps| - 1].Process? && steps[|steps| - 1].id == id
    ensures ViewOf(Run(env, steps[..|steps| - 1]), id) == NOTHING
  {
    var init := steps[..|steps| - 1];
    forall j | 0 <= j < |Run(env, init).tracks| ensures Run(env, init).tracks[j].entityId != id {
      var d := IdDrawn(env, init, j);
      assert init[d] == steps[d];
    }
    RunAbsent(env, init, id);
  }

  lemma SweepView(env: Env, s: State, nowIso: string, i: nat)
    requires i < |s.tracks| && ViewOk(env, ViewOf(s, s.tracks[i].entityId), s.tracks[i])
    requires DistinctIds(s.tracks)
    ensures var s' := Swept(env, s, nowIso);
      |s'.tracks| == |s.tracks| && ViewOk(env, ViewOf(s', s'.tracks[i].entityId), s'.tracks[i])
  {
    var nowMs, t := env.options.parse(nowIso), s.tracks[i];
    TracksAfter(env, s, Sweep(nowIso));
    SweepLocal(env, s.(tracks := TrackManager.Evicted(env.options, s.tracks, nowMs)), s.tracks, nowIso, i);
    if TrackManager.Stale(env.options, t, nowMs) { LoseOnce(env, ViewOf(s, t.entityId), t, nowIso); }
  }

  // ------------------------------------------------------ the mirror at the edge

  /** The messages of a partition's records. */
  function Payloads(records: seq<DeltaSync.Record<Entity>>): seq<Message> {
    if records == [] then []
    else
      var v := records[|records| - 1].value;
      if v.Some? then Payloads(records[..|records| - 1]) + [v.value] else Payloads(records[..|records| - 1])
  }

  function RoutedTo(c: DeltaSync.Config, p: nat): Message -> bool { (m: Message) => c.partitionOf(m.entityId) == p }

  /** The topic's partition `p` holds what the pipeline published for it, in order. */
  ghost predicate Carries(c: DeltaSync.Config, records: seq<DeltaSync.Record<Entity>>, log: seq<Message>, p: nat) {
    Payloads(records) == Filtering.Filter(RoutedTo(c, p), log)
  }

  lemma {:induction false} LatestIsLast(records: seq<DeltaSync.Record<Entity>>, k: string)
    ensures var own := Filtering.Filter(Keyed(k), Payloads(records));
      DeltaSync.Latest(records, k) ==
        if own == [] then None else Some(DeltaSync.Row(own[|own| - 1].entity, own[|own| - 1].ts))
  {
    if records != [] {
      var init, v := records[..|records| - 1], records[|records| - 1].value;
      LatestIsLast(init, k);
      if v.Some? { Filtering.FilterSnoc(Keyed(k), Payloads(init), v.value); }
    }
  }

  /** The last message for an entity in its partition is the last one published for it. */
  lemma LatestIsPublished(c: DeltaSync.Config, s: State, records: seq<DeltaSync.Record<Entity>>, k: string)
    requires Carries(c, records, s.log, c.partitionOf(k))
    ensures var own := ViewOf(s, k).log;
      DeltaSync.Latest(records, k) == if own == [] then None
        else Some(DeltaSync.Row(own[|own| - 1].entity, own[|own| - 1].ts))
  {
    LatestIsLast(records, k);
    Filtering.FilterAfter(Keyed(k), RoutedTo(c, c.partitionOf(k)), s.log);
  }

  /**
    End to end.  Once the edge node is caught up on the partition of a track's entity
    (however often it crashed, and whatever was delivered twice), its mirror holds what
    the database row shows if the track is live, and holds null exactly if it is lost.
  */
  lemma MirrorAgrees(env: Env, steps: seq<Step>, i: nat, c: DeltaSync.Config, edge: seq<DeltaSync.Step<Entity>>)
    requires Faithful(env) && Fresh(steps) && i < |Run(env, steps).tracks|
    requires DeltaSync.ValidRun(c, edge)
    requires var k := Run(env, steps).tracks[i].entityId;
      var p, e := c.partitionOf(k), DeltaSync.Run(c, edge);
      && DeltaSync.CaughtUp(c, e, p) && Carries(c, DeltaSync.Log(e, p), Run(env, steps).log, p)
      && p in e.past && DeltaSync.Received(e, p, k)
    ensures var s, e := Run(env, steps), DeltaSync.Run(c, edge);
      var t := s.tracks[i];
      var mirrored := DeltaSync.Find(e.store.rows, t.entityId);
      && mirrored.Some? && t.entityId in s.rows
      && (mirrored.value.entity.None? <==> t.status == TrackManager.LOST)
      && (t.status != TrackManager.LOST ==>
            Stores(env, s.rows[t.entityId], t) && Says(env, mirrored.value.entity.value, s.rows[t.entityId], t))
  {
    var s, e := Run(env, steps), DeltaSync.Run(c, edge);
    var t := s.tracks[i];
    var p := c.partitionOf(t.entityId);
    RunView(env, steps, i);
    LatestIsPublished(c, s, DeltaSync.Log(e, p), t.entityId);
    DeltaSync.CaughtUpMirror(c, edge, p, t.entityId);
    LastMessage(env, ViewOf(s, t.entityId), t);
  }

  lemma LastMessage(env: Env, v: View, t: Track)
    requires ViewOk(env, v, t)
    ensures v.log != [] && v.row.Some?
    ensures var m := v.log[|v.log| - 1];
      (m.entity.None? <==> t.status == TrackManager.LOST) &&
        (m.entity.Some? ==> Stores(env, v.row.value, t) && Says(env, m.entity.value, v.row.value, t))
  {
    var n := |v.emitted| - 1;
    assert Paired(v.emitted[n], v.log[n]);
  }

  // ------------------------------------------------------- the track manager inside

  ghost function TrackStep(env: Env, step: Step): TrackManager.Step {
    match step
    case Process(obs, id, _) => TrackManager.Observe(obs, id)
    case Sweep(nowIso) => TrackManager.EvictAt(env.options.parse(nowIso))
  }

  /** The track manager's own run inside a pipeline run. */
  ghost function TrackSteps(env: Env, steps: seq<Step>): (r: seq<TrackManager.Step>)
    ensures |r| == |steps|
  {
    seq(|steps|, i requires 0 <= i < |steps| => TrackStep(env, steps[i]))
  }

  /** The pipeline's tracks are the track manager's, so all that holds of its runs holds here. */
  lemma {:induction false} SameTracks(env: Env, steps: seq<Step>)
    ensures Run(env, steps).tracks == TrackManager.Run(env.options, TrackSteps(env, steps)).tracks
  {
    if steps == [] {
      SameTracksAtStart(env, steps);
    } else {
      SameTracks(env, steps[..|steps| - 1]);
      SameTracksNext(env, steps);
    }
  }

  lemma SameTracksAtStart(env: Env, steps: seq<Step>)
    requires steps == []
    ensures Run(env, steps).tracks == TrackManager.Run(env.options, TrackSteps(env, steps)).tracks
  {}

  lemma SameTracksNext(env: Env, steps: seq<Step>)
    requires steps != []
    requires var init := steps[..|steps| - 1];
      Run(env, init).tracks == TrackManager.Run(env.options, TrackSteps(env, init)).tracks
    ensures Run(env, steps).tracks == TrackManager.Run(env.options, TrackSteps(env, steps)).tracks
  {
    var init, last := steps[..|steps| - 1], steps[|steps| - 1];
    TrackStepsLast(env, steps);
    TrackManager.RunSnoc(env.options, TrackSteps(env, init), TrackStep(env, last));
    SameStep(env, Run(env, init), TrackManager.Run(env.options, TrackSteps(env, init)), last);
  }

  lemma TrackStepsLast(env: Env, steps: seq<Step>)
    requires steps != []
    ensures var init, last := steps[..|steps| - 1], steps[|steps| - 1];
      TrackSteps(env, steps) == TrackSteps(env, init) + [TrackStep(env, last)]
  {}

  lemma TrackStepsSnoc(env: Env, steps: seq<Step>, step: Step)
    ensures TrackSteps(env, steps + [step]) == TrackSteps(env, steps) + [TrackStep(env, step)]
  {}

  lemma SameStep(env: Env, s: State, h: TrackManager.History, step: Step)
    requires s.tracks == h.tracks
    ensures Next(env, s, step).tracks == TrackManager.Next(env.options, h, TrackStep(env, step)).tracks
  {
    TracksAfter(env, s, step);
  }
}
