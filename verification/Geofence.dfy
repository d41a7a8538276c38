/**
  Geofence transitions: each check of an entity compares the zones containing it now
  with the set its last check stored.  A run is any sequence of checks of any
  entities over one store.
*/
module Geofence {
  import opened Filtering

  datatype Trigger = ENTRY_ONLY | EXIT_ONLY | BOTH

  datatype Zone = Zone(zoneId: string, trigger: Trigger)

  datatype Event = ENTRY | EXIT

  datatype Transition = Transition(zone: Zone, event: Event)

  function Ids(zones: seq<Zone>): set<string> {
    set i | 0 <= i < |zones| :: zones[i].zoneId
  }

  /**
    What one check finds: the zones now containing the entity (each once), the stored
    ids in the order Redis returns them, and the zone table to look exited zones up in.
  */
  datatype Visit = Visit(current: seq<Zone>, previous: seq<string>, zoneById: map<string, Zone>)

  function FiresEntry(z: Zone): bool { z.trigger != EXIT_ONLY }
  function FiresExit(z: Zone): bool { z.trigger != ENTRY_ONLY }

  function Entries(current: seq<Zone>, previous: set<string>): seq<Transition> {
    if current == [] then []
    else
      var z := current[|current| - 1];
      var before := Entries(current[..|current| - 1], previous);
      if z.zoneId !in previous && FiresEntry(z) then before + [Transition(z, ENTRY)] else before
  }

  function Exits(previous: seq<string>, current: set<string>, zoneById: map<string, Zone>): seq<Transition> {
    if previous == [] then []
    else
      var id := previous[|previous| - 1];
      var before := Exits(previous[..|previous| - 1], current, zoneById);
      if id !in current && id in zoneById && FiresExit(zoneById[id]) then before + [Transition(zoneById[id], EXIT)]
        else before
  }

  function AsSet(ids: seq<string>): (s: set<string>)
    ensures forall id :: id in s <==> id in ids
  {
    set id | id in ids
  }

  function Fired(v: Visit): seq<Transition> {
    Entries(v.current, AsSet(v.previous)) + Exits(v.previous, Ids(v.current), v.zoneById)
  }

  /** The set stored for an entity, and the store after a check has stored `ids`. */
  function MembersIn(sets: map<string, set<string>>, entityId: string): set<string> {
    if entityId in sets then sets[entityId] else {}
  }

  function Stored(sets: map<string, set<string>>, entityId: string, ids: set<string>): map<string, set<string>> {
    if ids != {} then sets[entityId := ids] else sets - {entityId}
  }

  /** The sets of zone ids stored per entity. */
  class ZoneStore {
    var sets: map<string, set<string>>

    constructor ()
      ensures sets == map[]
    {
      sets := map[];
    }

    function Members(entityId: string): set<string>
      reads this
    {
      MembersIn(sets, entityId)
    }

    /** One check; `previous` is the stored set in some order. */
    method CheckTransitions(entityId: string, current: seq<Zone>, previous: seq<string>, zoneById: map<string, Zone>)
      returns (transitions: seq<Transition>)
      requires AsSet(previous) == Members(entityId)
      modifies this
      ensures transitions == Fired(Visit(current, previous, zoneById))
      ensures sets == Stored(old(sets), entityId, Ids(current))
    {
      var previousIds := AsSet(previous);
      var currentIds := Ids(current);
      transitions := [];
      for i := 0 to |current|
        invariant transitions == Entries(current[..i], previousIds)
      {
        assert current[..i + 1][..i] == current[..i];
        var zone := current[i];
        if zone.zoneId !in previousIds && (zone.trigger == ENTRY_ONLY || zone.trigger == BOTH) {
          transitions := transitions + [Transition(zone, ENTRY)];
        }
      }
      assert current[..|current|] == current;
      var entries := transitions;
      for i := 0 to |previous|
        invariant transitions == entries + Exits(previous[..i], currentIds, zoneById)
      {
        assert previous[..i + 1][..i] == previous[..i];
        var id := previous[i];
        if id !in currentIds && id in zoneById && (zoneById[id].trigger == EXIT_ONLY || zoneById[id].trigger == BOTH) {
          transitions := transitions + [Transition(zoneById[id], EXIT)];
        }
      }
      assert previous[..|previous|] == previous;
      if currentIds != {} {
        sets := sets[entityId := currentIds];
      } else {
        sets := sets - {entityId};
      }
    }
  }

  // ---------------------------------------------------------------- whole runs

  /** The checks of one entity, each finding the set that the one before has stored, once per id. */
  ghost predicate Consecutive(visits: seq<Visit>) {
    forall i :: 0 <= i < |visits| ==> FollowsOn(visits, i)
  }

  ghost predicate FollowsOn(visits: seq<Visit>, i: nat)
    requires i < |visits|
  {
    && AsSet(visits[i].previous) == (if i == 0 then {} else Ids(visits[i - 1].current))
    && (forall j, k :: 0 <= j < k < |visits[i].previous| ==> visits[i].previous[j] != visits[i].previous[k])
    && (forall j, k :: 0 <= j < k < |visits[i].current| ==> visits[i].current[j].zoneId != visits[i].current[k].zoneId)
  }

  function AllFired(visits: seq<Visit>): seq<Transition> {
    if visits == [] then [] else AllFired(visits[..|visits| - 1]) + Fired(visits[|visits| - 1])
  }

  /** Whether the last check found the entity inside a zone. */
  predicate Inside(visits: seq<Visit>, id: string) {
    visits != [] && id in Ids(visits[|visits| - 1].current)
  }

  /** The zone keeps its row, wherever it shows up. */
  ghost predicate Stays(visits: seq<Visit>, z: Zone) {
    forall i :: 0 <= i < |visits| ==> Row(visits[i], z)
  }

  ghost predicate Row(v: Visit, z: Zone) {
    && z.zoneId in v.zoneById && v.zoneById[z.zoneId] == z
    && forall j :: 0 <= j < |v.current| && v.current[j].zoneId == z.zoneId ==> v.current[j] == z
  }

  function Of(id: string): Transition -> bool { (t: Transition) => t.zone.zoneId == id }

  /** The events of one zone, in order. */
  function EventsOf(id: string, ts: seq<Transition>): seq<Transition> { Filter(Of(id), ts) }

  /** What a zone should say when the entity's being inside changes from `was` to `now`. */
  function Expected(z: Zone, was: bool, now: bool): seq<Transition> {
    if !was && now && FiresEntry(z) then [Transition(z, ENTRY)]
    else if was && !now && FiresExit(z) then [Transition(z, EXIT)]
    else []
  }

  lemma {:induction false} EntriesOf(current: seq<Zone>, previous: set<string>, z: Zone)
    requires forall j, k :: 0 <= j < k < |current| ==> current[j].zoneId != current[k].zoneId
    requires forall j :: 0 <= j < |current| && current[j].zoneId == z.zoneId ==> current[j] == z
    ensures EventsOf(z.zoneId, Entries(current, previous)) ==
      if z.zoneId in Ids(current) && z.zoneId !in previous && FiresEntry(z) then [Transition(z, ENTRY)] else []
  {
    if current != [] {
      var init, last := current[..|current| - 1], current[|current| - 1];
      EntriesOf(init, previous, z);
      FilterSnoc(Of(z.zoneId), Entries(init, previous), Transition(last, ENTRY));
      IdsSnoc(init, last);
      assert current == init + [last];
      assert last.zoneId == z.zoneId ==> z.zoneId !in Ids(init);
    }
  }

  lemma IdsSnoc(zones: seq<Zone>, z: Zone)
    ensures Ids(zones + [z]) == Ids(zones) + {z.zoneId}
  {
    assert forall i :: 0 <= i < |zones| ==> (zones + [z])[i] == zones[i];
    assert (zones + [z])[|zones|] == z;
    forall id | id in Ids(zones) + {z.zoneId} ensures id in Ids(zones + [z]) {
      if id in Ids(zones) {
        var i :| 0 <= i < |zones| && zones[i].zoneId == id;
        assert (zones + [z])[i].zoneId == id;
      }
    }
  }

  lemma {:induction false} ExitsOf(previous: seq<string>, current: set<string>, zoneById: map<string, Zone>, z: Zone)
    requires forall j, k :: 0 <= j < k < |previous| ==> previous[j] != previous[k]
    requires z.zoneId in zoneById && zoneById[z.zoneId] == z && forall id :: id in zoneById ==>
        zoneById[id].zoneId == id
    ensures EventsOf(z.zoneId, Exits(previous, current, zoneById)) ==
      if z.zoneId in previous && z.zoneId !in current && FiresExit(z) then [Transition(z, EXIT)] else []
  {
    if previous != [] {
      var init, last := previous[..|previous| - 1], previous[|previous| - 1];
      ExitsOf(init, current, zoneById, z);
      assert previous == init + [last];
      assert last !in init;
      LastExit(init, last, previous, current, zoneById, z);
    }
  }

  /** Only the zone's own id adds to its events. */
  lemma LastExit(init: seq<string>, last: string, previous: seq<string>, current: set<string>,
                 zoneById: map<string, Zone>, z: Zone)
    requires previous == init + [last]
    requires z.zoneId in zoneById && zoneById[z.zoneId] == z && forall id :: id in zoneById ==>
        zoneById[id].zoneId == id
    ensures EventsOf(z.zoneId, Exits(previous, current, zoneById)) ==
        EventsOf(z.zoneId, Exits(init, current, zoneById)) +
      if last == z.zoneId && last !in current && FiresExit(z) then [Transition(z, EXIT)] else []
  {
    assert previous[..|previous| - 1] == init;
    if last in zoneById { FilterSnoc(Of(z.zoneId), Exits(init, current, zoneById), Transition(zoneById[last], EXIT)); }
  }

  /** The rows of the zone table carry their own ids. */
  ghost predicate Keyed(visits: seq<Visit>) {
    forall i :: 0 <= i < |visits| ==> forall id :: id in visits[i].zoneById ==> visits[i].zoneById[id].zoneId == id
  }

  /** One check says of a zone what its configuration wants said of the change. */
  lemma CheckSays(visits: seq<Visit>, z: Zone)
    requires visits != [] && Consecutive(visits) && Stays(visits, z) && Keyed(visits)
    ensures EventsOf(z.zoneId, Fired(visits[|visits| - 1])) ==
            Expected(z, Inside(visits[..|visits| - 1], z.zoneId), Inside(visits, z.zoneId))
  {
    var n := |visits| - 1;
    var v := visits[n];
    assert FollowsOn(visits, n) && Row(v, z);
    VisitSays(v, z);
    PreviouslyInside(visits, z.zoneId);
  }

  lemma PreviouslyInside(visits: seq<Visit>, id: string)
    requires visits != [] && FollowsOn(visits, |visits| - 1)
    ensures id in visits[|visits| - 1].previous <==> Inside(visits[..|visits| - 1], id)
  {
    var n := |visits| - 1;
    assert id in visits[n].previous <==> id in AsSet(visits[n].previous);
    if n > 0 { assert visits[..n][n - 1] == visits[n - 1]; }
  }

  lemma VisitSays(v: Visit, z: Zone)
    requires forall j, k :: 0 <= j < k < |v.previous| ==> v.previous[j] != v.previous[k]
    requires forall j, k :: 0 <= j < k < |v.current| ==> v.current[j].zoneId != v.current[k].zoneId
    requires Row(v, z) && forall id :: id in v.zoneById ==> v.zoneById[id].zoneId == id
    ensures EventsOf(z.zoneId, Fired(v)) == Expected(z, z.zoneId in v.previous, z.zoneId in Ids(v.current))
  {
    var previous := AsSet(v.previous);
    FilterAppend(Of(z.zoneId), Entries(v.current, previous), Exits(v.previous, Ids(v.current), v.zoneById));
    EntriesOf(v.current, previous, z);
    ExitsOf(v.previous, Ids(v.current), v.zoneById, z);
  }

  lemma PrefixOk(visits: seq<Visit>, z: Zone)
    requires visits != [] && Consecutive(visits) && Stays(visits, z) && Keyed(visits)
    ensures var init := visits[..|visits| - 1]; Consecutive(init) && Stays(init, z) && Keyed(init)
  {
    var init := visits[..|visits| - 1];
    forall i | 0 <= i < |init| ensures FollowsOn(init, i) && Row(init[i], z) {
      assert FollowsOn(visits, i) && Row(visits[i], z);
    }
  }

  function Count(event: Event, ts: seq<Transition>): nat {
    if ts == [] then 0 else Count(event, ts[..|ts| - 1]) + (if ts[|ts| - 1].event == event then 1 else 0)
  }

  /** ENTRY, EXIT, ENTRY and so on, all of one zone. */
  ghost predicate Alternates(z: Zone, ts: seq<Transition>) {
    forall i :: 0 <= i < |ts| ==> ts[i] == Transition(z, if i % 2 == 0 then ENTRY else EXIT)
  }

  /**
    A zone that reports both ways: over any run its events strictly alternate, ENTRY
    first, and the entity is inside exactly when there is one ENTRY more than EXITs.
  */
  lemma {:induction false} BothAlternates(visits: seq<Visit>, z: Zone)
    requires Consecutive(visits) && Stays(visits, z) && Keyed(visits) && z.trigger == BOTH
    ensures var ts := EventsOf(z.zoneId, AllFired(visits));
      && Alternates(z, ts) && (Inside(visits, z.zoneId) <==> |ts| % 2 == 1)
      && Count(ENTRY, ts) == Count(EXIT, ts) + (if Inside(visits, z.zoneId) then 1 else 0)
  {
    if visits != [] {
      var init := visits[..|visits| - 1];
      PrefixOk(visits, z);
      BothAlternates(init, z);
      CheckSays(visits, z);
      FilterAppend(Of(z.zoneId), AllFired(init), Fired(visits[|visits| - 1]));
      AlternatesOn(z, EventsOf(z.zoneId, AllFired(init)), Inside(init, z.zoneId), Inside(visits, z.zoneId));
    }
  }

  lemma AlternatesOn(z: Zone, ts: seq<Transition>, was: bool, now: bool)
    requires Alternates(z, ts) && (was <==> |ts| % 2 == 1)
    requires Count(ENTRY, ts) == Count(EXIT, ts) + (if was then 1 else 0)
    requires z.trigger == BOTH
    ensures var ts' := ts + Expected(z, was, now);
      Alternates(z, ts') && (now <==> |ts'| % 2 == 1) && Count(ENTRY, ts') == Count(EXIT, ts') + (if now then 1 else 0)
  {
    var said := Expected(z, was, now);
    if said == [] {
      assert ts + said == ts;
    } else {
      assert (ts + said)[..|ts|] == ts;
    }
  }

  /** How often a run enters (or leaves) a zone. */
  function Crossings(visits: seq<Visit>, id: string, inward: bool): nat {
    if visits == [] then 0
    else
      var init := visits[..|visits| - 1];
      Crossings(init, id, inward) + (if Inside(init, id) == !inward && Inside(visits, id) == inward then 1 else 0)
  }

  /** A zone that reports one way fires once per crossing that way, and never otherwise. */
  lemma {:induction false} OneWayFires(visits: seq<Visit>, z: Zone)
    requires Consecutive(visits) && Stays(visits, z) && Keyed(visits) && z.trigger != BOTH
    ensures var ts := EventsOf(z.zoneId, AllFired(visits));
      && |ts| == Crossings(visits, z.zoneId, z.trigger == ENTRY_ONLY)
      && forall i :: 0 <= i < |ts| ==> ts[i] == Transition(z, if z.trigger == ENTRY_ONLY then ENTRY else EXIT)
  {
    if visits != [] {
      var init := visits[..|visits| - 1];
      PrefixOk(visits, z);
      OneWayFires(init, z);
      CheckSays(visits, z);
      FilterAppend(Of(z.zoneId), AllFired(init), Fired(visits[|visits| - 1]));
    }
  }

  // ----------------------------------------------- checks of many entities

  datatype Check = Check(entityId: string, visit: Visit)

  /** What the store holds after all checks. */
  ghost function StoreAfter(checks: seq<Check>): map<string, set<string>> {
    if checks == [] then map[]
    else
      var last := checks[|checks| - 1];
      Stored(StoreAfter(checks[..|checks| - 1]), last.entityId, Ids(last.visit.current))
  }

  /** Each check is given the set stored for its entity, in some order, and each zone at most once. */
  ghost predicate StoreRun(checks: seq<Check>) {
    checks != [] ==>
      var init, last := checks[..|checks| - 1], checks[|checks| - 1];
      && StoreRun(init)
      && AsSet(last.visit.previous) == MembersIn(StoreAfter(init), last.entityId)
      && (forall j, k :: 0 <= j < k < |last.visit.previous| ==> last.visit.previous[j] != last.visit.previous[k])
      && (forall j, k :: 0 <= j < k < |last.visit.current| ==>
        last.visit.current[j].zoneId != last.visit.current[k].zoneId)
  }

  /** The visits of one entity's checks, and all that these checks report. */
  function Own(checks: seq<Check>, entityId: string): seq<Visit> {
    if checks == [] then []
    else
      var last := checks[|checks| - 1];
      Own(checks[..|checks| - 1], entityId) + (if last.entityId == entityId then [last.visit] else [])
  }

  function Reported(checks: seq<Check>, entityId: string): seq<Transition> {
    if checks == [] then []
    else
      var last := checks[|checks| - 1];
      Reported(checks[..|checks| - 1], entityId) + (if last.entityId == entityId then Fired(last.visit) else [])
  }

  /** Whether the store has the entity inside a zone. */
  ghost predicate StoredInside(checks: seq<Check>, entityId: string, id: string) {
    id in MembersIn(StoreAfter(checks), entityId)
  }

  /** How often the stored answer changes one way. */
  ghost function StoredCrossings(checks: seq<Check>, entityId: string, id: string, inward: bool): nat {
    if checks == [] then 0
    else
      var init := checks[..|checks| - 1];
      StoredCrossings(init, entityId, id, inward) +
      (if StoredInside(init, entityId, id) == !inward && StoredInside(checks, entityId, id) == inward then 1 else 0)
  }

  lemma ConsecutiveSnoc(visits: seq<Visit>, v: Visit)
    requires Consecutive(visits) && FollowsOn(visits + [v], |visits|)
    ensures Consecutive(visits + [v])
  {
    forall i | 0 <= i < |visits + [v]| ensures FollowsOn(visits + [v], i) {
      if i < |visits| { assert FollowsOn(visits, i); }
    }
  }

  lemma OwnUnfold(checks: seq<Check>, entityId: string)
    requires checks != []
    ensures var init, last := checks[..|checks| - 1], checks[|checks| - 1];
      Own(checks, entityId) == if last.entityId == entityId then Own(init, entityId) + [last.visit]
        else Own(init, entityId)
  {}

  /** Through the store each check of an entity finds what that entity's last check stored, whatever came between. */
  lemma {:induction false} OwnConsecutive(checks: seq<Check>, entityId: string)
    requires StoreRun(checks)
    ensures var own := Own(checks, entityId);
      Consecutive(own) && MembersIn(StoreAfter(checks), entityId) == if own == [] then {}
        else Ids(own[|own| - 1].current)
  {
    if checks != [] {
      var init, last := checks[..|checks| - 1], checks[|checks| - 1];
      OwnConsecutive(init, entityId);
      OwnUnfold(checks, entityId);
      if last.entityId == entityId { OwnNext(Own(init, entityId), last.visit, MembersIn(StoreAfter(init), entityId)); }
    }
  }

  lemma OwnNext(own: seq<Visit>, v: Visit, members: set<string>)
    requires Consecutive(own) && members == (if own == [] then {} else Ids(own[|own| - 1].current))
    requires AsSet(v.previous) == members
    requires forall j, k :: 0 <= j < k < |v.previous| ==> v.previous[j] != v.previous[k]
    requires forall j, k :: 0 <= j < k < |v.current| ==> v.current[j].zoneId != v.current[k].zoneId
    ensures Consecutive(own + [v])
  {
    assert (own + [v])[|own|] == v;
    assert own != [] ==> (own + [v])[|own| - 1] == own[|own| - 1];
    ConsecutiveSnoc(own, v);
  }

  /** What an entity's checks report and cross is what its own visits do. */
  lemma {:induction false} OwnReported(checks: seq<Check>, entityId: string, id: string, inward: bool)
    requires StoreRun(checks)
    ensures Reported(checks, entityId) == AllFired(Own(checks, entityId))
    ensures StoredInside(checks, entityId, id) <==> Inside(Own(checks, entityId), id)
    ensures StoredCrossings(checks, entityId, id, inward) == Crossings(Own(checks, entityId), id, inward)
  {
    OwnConsecutive(checks, entityId);
    if checks != [] {
      var init, last := checks[..|checks| - 1], checks[|checks| - 1];
      OwnReported(init, entityId, id, inward);
      OwnUnfold(checks, entityId);
      var own := Own(init, entityId);
      assert (own + [last.visit])[..|own|] == own;
    }
  }

  /** The zone keeps its row, and rows carry their own ids, in every check of the entity. */
  ghost predicate RowKept(checks: seq<Check>, entityId: string, z: Zone) {
    forall i :: 0 <= i < |checks| && checks[i].entityId == entityId ==>
      Row(checks[i].visit, z) && forall id :: id in checks[i].visit.zoneById ==>
        checks[i].visit.zoneById[id].zoneId == id
  }

  lemma {:induction false} OwnRows(checks: seq<Check>, entityId: string, z: Zone)
    requires RowKept(checks, entityId, z)
    ensures Stays(Own(checks, entityId), z) && Keyed(Own(checks, entityId))
  {
    if checks != [] {
      assert forall i :: 0 <= i < |checks| - 1 ==> checks[..|checks| - 1][i] == checks[i];
      OwnRows(checks[..|checks| - 1], entityId, z);
      OwnUnfold(checks, entityId);
    }
  }

  /**
    A zone that reports both ways, over any run of checks of any entities: the events
    reported of one entity strictly alternate, ENTRY first, and the store has it inside
    exactly when there is one ENTRY more than EXITs.
  */
  lemma StoreAlternates(checks: seq<Check>, entityId: string, z: Zone)
    requires StoreRun(checks) && RowKept(checks, entityId, z) && z.trigger == BOTH
    ensures var ts, inside := EventsOf(z.zoneId, Reported(checks, entityId)), StoredInside(checks, entityId, z.zoneId);
      && Alternates(z, ts) && (inside <==> |ts| % 2 == 1)
      && Count(ENTRY, ts) == Count(EXIT, ts) + (if inside then 1 else 0)
  {
    OwnConsecutive(checks, entityId);
    OwnReported(checks, entityId, z.zoneId, true);
    OwnRows(checks, entityId, z);
    BothAlternates(Own(checks, entityId), z);
  }

  /** A zone that reports one way fires once each time the store's answer changes that way, and never otherwise. */
  lemma StoreOneWay(checks: seq<Check>, entityId: string, z: Zone)
    requires StoreRun(checks) && RowKept(checks, entityId, z) && z.trigger != BOTH
    ensures var ts := EventsOf(z.zoneId, Reported(checks, entityId));
      && |ts| == StoredCrossings(checks, entityId, z.zoneId, z.trigger == ENTRY_ONLY)
      && forall i :: 0 <= i < |ts| ==> ts[i] == Transition(z, if z.trigger == ENTRY_ONLY then ENTRY else EXIT)
  {
    OwnConsecutive(checks, entityId);
    OwnReported(checks, entityId, z.zoneId, z.trigger == ENTRY_ONLY);
    OwnRows(checks, entityId, z);
    OneWayFires(Own(checks, entityId), z);
  }
}
