/**
  Whole runs of the pipeline's cycles: what the watermark window releases, poll by
  poll, is what the correlator sees.  On a feed that is on time it sees it in time
  order, so no observation is passed over for lying before a track's last fix.
*/
module Cycles {
  import opened Wrappers
  import opened Pipeline
  import DeltaSync
  import StableSort
  import TrackManager
  import Watermark

  /** The observations of a feed: what the mappers can place, in order. */
  function Observations(env: Env, es: seq<Watermark.Event>): seq<Observation> {
    if es == [] then []
    else
      var obs := ToObservation(env, es[|es| - 1]);
      if obs.Some? then Observations(env, es[..|es| - 1]) + [obs.value] else Observations(env, es[..|es| - 1])
  }

  /** The mappers keep the timestamp the stream entry was filed under. */
  ghost predicate KeepsTime(env: Env) {
    forall e :: ToObservation(env, e).Some? ==> ToObservation(env, e).value.sensorTs == e.sensorTs
  }

  lemma {:induction false} ObservationsFrom(env: Env, es: seq<Watermark.Event>, j: nat) returns (k: nat)
    requires j < |Observations(env, es)|
    ensures k < |es| && ToObservation(env, es[k]) == Some(Observations(env, es)[j])
  {
    var n := |es| - 1;
    if j < |Observations(env, es[..n])| { k := ObservationsFrom(env, es[..n], j); } else { k := n; }
  }

  lemma {:induction false} ObservationsSorted(env: Env, es: seq<Watermark.Event>)
    requires KeepsTime(env) && StableSort.Sorted(Watermark.ByTs(env.options.parse), es)
    ensures TrackManager.TimeSorted(env.options, Observations(env, es))
  {
    if es != [] {
      var n := |es| - 1;
      var init := Observations(env, es[..n]);
      ObservationsSorted(env, es[..n]);
      forall j | 0 <= j < |init| ensures env.options.parse(init[j].sensorTs) <= env.options.parse(es[n].sensorTs) {
        var k := ObservationsFrom(env, es[..n], j);
        var key := Watermark.ByTs(env.options.parse);
        assert key(es[k]) <= key(es[n]);
      }
    }
  }

  /** Feeds that are on time are released in time order. */
  lemma OnTimeFeed(env: Env, c: Watermark.Config, polls: seq<Watermark.Poll>)
    requires KeepsTime(env) && c.parse == env.options.parse && Watermark.OnTime(c, polls)
    ensures TrackManager.TimeSorted(env.options, Observations(env, Watermark.Run(c, polls).released))
  {
    Watermark.RunOrders(c, polls);
    ObservationsSorted(env, Watermark.Run(c, polls).released);
  }

  lemma {:induction false} ObservationsAppend(env: Env, a: seq<Watermark.Event>, b: seq<Watermark.Event>)
    ensures Observations(env, a + b) == Observations(env, a) + Observations(env, b)
  {
    if b == [] {
      assert a + b == a;
    } else {
      assert (a + b)[..|a + b| - 1] == a + b[..|b| - 1];
      ObservationsAppend(env, a, b[..|b| - 1]);
    }
  }

  // ------------------------------------------------------------- runs of cycles

  /** What one call of `runOnce` finds: its poll, and the ids, zone answers and clock it would draw. */
  datatype Cycle = Cycle(poll: Watermark.Poll, uuids: nat -> string, zones: nat -> bool, nowIso: string)

  ghost function Polls(cycles: seq<Cycle>): (polls: seq<Watermark.Poll>)
    ensures |polls| == |cycles|
  {
    if cycles == [] then [] else Polls(cycles[..|cycles| - 1]) + [cycles[|cycles| - 1].poll]
  }

  /** What the last poll releases to the correlator. */
  ghost function Batch(c: Watermark.Config, before: seq<Watermark.Poll>, p: Watermark.Poll): seq<Watermark.Event> {
    Watermark.Polled(c, Watermark.Run(c, before).window, p.streams, p.blocking).released
  }

  /** The pipeline's state after all cycles, as `runOnce` leaves it. */
  ghost function Cycled(env: Env, c: Watermark.Config, cycles: seq<Cycle>): State {
    if cycles == [] then START
    else
      var init, last := cycles[..|cycles| - 1], cycles[|cycles| - 1];
      Swept(env, Batched(env, Cycled(env, c, init), Batch(c, Polls(init), last.poll), last.uuids, last.zones),
        last.nowIso)
  }

  /** The steps of all cycles. */
  ghost function AllSteps(env: Env, c: Watermark.Config, cycles: seq<Cycle>): seq<Step> {
    if cycles == [] then []
    else
      var init, last := cycles[..|cycles| - 1], cycles[|cycles| - 1];
      AllSteps(env, c, init) + CycleSteps(env, Batch(c, Polls(init), last.poll), last.uuids, last.zones) +
        [Sweep(last.nowIso)]
  }

  lemma {:induction false} CyclesAreSteps(env: Env, c: Watermark.Config, cycles: seq<Cycle>)
    ensures Cycled(env, c, cycles) == Run(env, AllSteps(env, c, cycles))
  {
    if cycles != [] {
      var init, last := cycles[..|cycles| - 1], cycles[|cycles| - 1];
      CyclesAreSteps(env, c, init);
      CycleIsSteps(env, AllSteps(env, c, init), Batch(c, Polls(init), last.poll), last.uuids, last.zones, last.nowIso);
    }
  }

  /** The observations among some steps, in order. */
  ghost function Observed(steps: seq<Step>): seq<Observation> {
    if steps == [] then []
    else
      var init, last := steps[..|steps| - 1], steps[|steps| - 1];
      if last.Process? then Observed(init) + [last.obs] else Observed(init)
  }

  lemma {:induction false} ObservedAppend(a: seq<Step>, b: seq<Step>)
    ensures Observed(a + b) == Observed(a) + Observed(b)
  {
    if b == [] {
      assert a + b == a;
    } else {
      assert (a + b)[..|a + b| - 1] == a + b[..|b| - 1];
      ObservedAppend(a, b[..|b| - 1]);
    }
  }

  lemma {:induction false} ObservedInCycle(env: Env, batch: seq<Watermark.Event>,
                                           uuids: nat -> string, zones: nat -> bool)
    ensures Observed(CycleSteps(env, batch, uuids, zones)) == Observations(env, batch)
  {
    if batch != [] {
      var n := |batch| - 1;
      var init, obs := CycleSteps(env, batch[..n], uuids, zones), ToObservation(env, batch[n]);
      ObservedInCycle(env, batch[..n], uuids, zones);
      if obs.Some? { OneObserved(init, Process(obs.value, uuids(n), zones(n))); } else { assert init + [] == init; }
    }
  }

  lemma OneObserved(steps: seq<Step>, step: Step)
    ensures Observed(steps + [step]) == if step.Process? then Observed(steps) + [step.obs] else Observed(steps)
  {
    assert (steps + [step])[..|steps|] == steps;
  }

  /** The correlator is given exactly what the window has released, in that order. */
  lemma {:induction false} ObservedIsReleased(env: Env, c: Watermark.Config, cycles: seq<Cycle>)
    ensures Observed(AllSteps(env, c, cycles)) == Observations(env, Watermark.Run(c, Polls(cycles)).released)
  {
    if cycles != [] {
      var init, last := cycles[..|cycles| - 1], cycles[|cycles| - 1];
      var batch := Batch(c, Polls(init), last.poll);
      var steps := CycleSteps(env, batch, last.uuids, last.zones);
      ObservedIsReleased(env, c, init);
      ObservedInCycle(env, batch, last.uuids, last.zones);
      ObservedAppend(AllSteps(env, c, init), steps);
      OneObserved(AllSteps(env, c, init) + steps, Sweep(last.nowIso));
      ReleasedNext(c, Polls(init), last.poll);
      ObservationsAppend(env, Watermark.Run(c, Polls(init)).released, batch);
    }
  }

  lemma ReleasedNext(c: Watermark.Config, before: seq<Watermark.Poll>, p: Watermark.Poll)
    ensures Watermark.Run(c, before + [p]).released == Watermark.Run(c, before).released + Batch(c, before, p)
  {
    assert (before + [p])[..|before|] == before;
  }

  lemma {:induction false} TrackerObserved(env: Env, steps: seq<Step>)
    ensures TrackManager.Run(env.options, TrackSteps(env, steps)).observed == Observed(steps)
  {
    if steps == [] {
      assert TrackSteps(env, steps) == [];
    } else {
      var init, last := steps[..|steps| - 1], steps[|steps| - 1];
      TrackerObserved(env, init);
      TrackStepsSnoc(env, init, last);
      assert steps == init + [last];
      TrackManager.RunSnoc(env.options, TrackSteps(env, init), TrackStep(env, last));
    }
  }

  /** A step of a run whose observations are in time order finds no track ahead of its observation. */
  lemma StepInTime(env: Env, steps: seq<Step>, k: nat, i: nat)
    requires TrackManager.TimeSorted(env.options, Observed(steps))
    requires k < |steps| && steps[k].Process? && i < |Run(env, steps[..k]).tracks|
    ensures env.options.parse(Run(env, steps[..k]).tracks[i].lastSensorTs) <= env.options.parse(steps[k].obs.sensorTs)
  {
    var before, obs := steps[..k], steps[k].obs;
    SameTracks(env, before);
    TrackerObserved(env, before);
    PrefixSorted(env, steps, k);
    TrackManager.NeverBehind(env.options, TrackSteps(env, before), obs, i);
  }

  lemma PrefixSorted(env: Env, steps: seq<Step>, k: nat)
    requires TrackManager.TimeSorted(env.options, Observed(steps)) && k < |steps| && steps[k].Process?
    ensures TrackManager.TimeSorted(env.options, Observed(steps[..k]) + [steps[k].obs])
  {
    ObservedSplit(steps, k);
    SortedPrefix(env.options, Observed(steps[..k]) + [steps[k].obs], Observed(steps[k + 1..]));
  }

  lemma ObservedSplit(steps: seq<Step>, k: nat)
    requires k < |steps| && steps[k].Process?
    ensures Observed(steps) == (Observed(steps[..k]) + [steps[k].obs]) + Observed(steps[k + 1..])
  {
    var before, after := steps[..k], steps[k + 1..];
    assert steps == (before + [steps[k]]) + after;
    OneObserved(before, steps[k]);
    ObservedAppend(before + [steps[k]], after);
  }

  lemma SortedPrefix(o: TrackManager.Options, a: seq<Observation>, b: seq<Observation>)
    requires TrackManager.TimeSorted(o, a + b)
    ensures TrackManager.TimeSorted(o, a)
  {
    var all := a + b;
    forall i, j | 0 <= i < j < |a| ensures o.parse(a[i].sensorTs) <= o.parse(a[j].sensorTs) {
      assert all[i] == a[i] && all[j] == a[j];
    }
  }

  /**
    On a feed that is on time nothing is ever passed over: whatever cycles are run, at
    every observation processed every track there is was last fixed no later than it.
  */
  lemma NothingPassedOver(env: Env, c: Watermark.Config, cycles: seq<Cycle>, k: nat, i: nat)
    requires KeepsTime(env) && c.parse == env.options.parse && Watermark.OnTime(c, Polls(cycles))
    requires var steps := AllSteps(env, c, cycles);
      k < |steps| && steps[k].Process? && i < |Run(env, steps[..k]).tracks|
    ensures var steps := AllSteps(env, c, cycles);
      && Cycled(env, c, cycles) == Run(env, steps)
      && env.options.parse(Run(env, steps[..k]).tracks[i].lastSensorTs) <= env.options.parse(steps[k].obs.sensorTs)
  {
    CyclesAreSteps(env, c, cycles);
    ObservedIsReleased(env, c, cycles);
    OnTimeFeed(env, c, Polls(cycles));
    StepInTime(env, AllSteps(env, c, cycles), k, i);
  }

  /**
    End to end over whole runs of `runOnce`: whatever the polls find, a caught-up edge
    node shows every live track as its database row does, and null exactly for lost ones.
  */
  lemma CycledMirrorAgrees(env: Env, w: Watermark.Config, cycles: seq<Cycle>, i: nat, c: DeltaSync.Config,
                           edge: seq<DeltaSync.Step<Entity>>)
    requires Faithful(env) && Fresh(AllSteps(env, w, cycles)) && i < |Cycled(env, w, cycles).tracks|
    requires DeltaSync.ValidRun(c, edge)
    requires var s, e := Cycled(env, w, cycles), DeltaSync.Run(c, edge);
      var k := s.tracks[i].entityId;
      var p := c.partitionOf(k);
      && DeltaSync.CaughtUp(c, e, p) && Carries(c, DeltaSync.Log(e, p), s.log, p)
      && p in e.past && DeltaSync.Received(e, p, k)
    ensures var s, e := Cycled(env, w, cycles), DeltaSync.Run(c, edge);
      var t := s.tracks[i];
      var mirrored := DeltaSync.Find(e.store.rows, t.entityId);
      && mirrored.Some? && t.entityId in s.rows
      && (mirrored.value.entity.None? <==> t.status == TrackManager.LOST)
      && (t.status != TrackManager.LOST ==>
            Stores(env, s.rows[t.entityId], t) && Says(env, mirrored.value.entity.value, s.rows[t.entityId], t))
  {
    CyclesAreSteps(env, w, cycles);
    MirrorAgrees(env, AllSteps(env, w, cycles), i, c, edge);
  }
}
