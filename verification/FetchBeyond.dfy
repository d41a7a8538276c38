/**
  Why a session must not start beyond `applied + 1`.  Here the consumer may fetch from
  any position.  A message that is passed over is then lost: once a later offset is
  recorded, no delivery, crash or restart ever applies it.
*/
module FetchBeyond {
  import opened Wrappers
  import opened DeltaSync

  /** As the replay model, but a fetch may start anywhere. */
  ghost predicate Allowed<E>(c: Config, s: State<E>, step: Step<E>) {
    if step.Fetch? then s.pending.None? && step.index <= |Log(s, step.p)| else Enabled(c, s, step)
  }

  ghost function After<E>(c: Config, s: State<E>, step: Step<E>): State<E>
    requires Allowed(c, s, step)
  {
    if step.Fetch? then s.(fetch := s.fetch[step.p := step.index]) else Next(c, s, step)
  }

  ghost predicate RunFrom<E>(c: Config, s: State<E>, steps: seq<Step<E>>)
    decreases |steps|
  {
    steps != [] ==> Allowed(c, s, steps[0]) && RunFrom(c, After(c, s, steps[0]), steps[1..])
  }

  ghost function AfterAll<E>(c: Config, s: State<E>, steps: seq<Step<E>>): State<E>
    requires RunFrom(c, s, steps)
    decreases |steps|
  {
    if steps == [] then s else AfterAll(c, After(c, s, steps[0]), steps[1..])
  }

  /** The records of partition `p` that a run writes to the mirror. */
  ghost function Written<E>(c: Config, s: State<E>, steps: seq<Step<E>>, p: nat): set<nat>
    requires RunFrom(c, s, steps)
    decreases |steps|
  {
    if steps == [] then {}
    else WrittenBy(c, s, steps[0], p) + Written(c, After(c, s, steps[0]), steps[1..], p)
  }

  ghost function WrittenBy<E>(c: Config, s: State<E>, step: Step<E>, p: nat): set<nat>
    requires Allowed(c, s, step)
  {
    if step == Deliver(p) && !Skips(s.store, c.topic, p, Log(s, p)[s.fetch[p]]) then {s.fetch[p]} else {}
  }

  /** Record `j` lies at or before the recorded offset, and so does what is about to be recorded after it. */
  ghost predicate Passed<E>(c: Config, s: State<E>, p: nat, j: nat) {
    && j < |Log(s, p)| && Applied(c, s, p).Some? && Log(s, p)[j].offset <= Applied(c, s, p).value
    && (s.pending == Some(p) ==>
      p in s.fetch && s.fetch[p] < |Log(s, p)| && Applied(c, s, p).value < Log(s, p)[s.fetch[p]].offset)
  }

  lemma StepKeepsPassed<E>(c: Config, s: State<E>, step: Step<E>, p: nat, j: nat)
    requires Passed(c, s, p, j) && Allowed(c, s, step)
    ensures Passed(c, After(c, s, step), p, j) && j !in WrittenBy(c, s, step, p)
    ensures Log(After(c, s, step), p)[j] == Log(s, p)[j]
    ensures Applied(c, s, p).value <= Applied(c, After(c, s, step), p).value
  {}

  /** Nothing writes a record again that lies at or before the recorded offset. */
  lemma {:induction false} NeverWritten<E>(c: Config, s: State<E>, steps: seq<Step<E>>, p: nat, j: nat)
    requires Passed(c, s, p, j) && RunFrom(c, s, steps)
    ensures Passed(c, AfterAll(c, s, steps), p, j) && j !in Written(c, s, steps, p)
    ensures Applied(c, s, p).value <= Applied(c, AfterAll(c, s, steps), p).value
    decreases |steps|
  {
    if steps != [] {
      StepKeepsPassed(c, s, steps[0], p, j);
      NeverWritten(c, After(c, s, steps[0]), steps[1..], p, j);
    }
  }

  /** The three steps that pass message `j` over: fetch from `i`, apply, record. */
  ghost function Overtake<E>(p: nat, i: nat): seq<Step<E>> {
    [Fetch(p, i)] + ([Deliver(p)] + ([RecordOffset] + []))
  }

  lemma Overtaken<E>(c: Config, s: State<E>, p: nat, j: nat, i: nat) returns (s': State<E>)
    requires s.pending.None? && Increasing(Log(s, p)) && j < i < |Log(s, p)| && Log(s, p)[i].value.Some?
    requires Applied(c, s, p).Some? && Applied(c, s, p).value < Log(s, p)[j].offset
    ensures RunFrom(c, s, Overtake(p, i)) && s' == AfterAll(c, s, Overtake(p, i))
    ensures Passed(c, s', p, j) && Applied(c, s', p) == Some(Log(s, p)[i].offset)
    ensures Written(c, s, Overtake(p, i), p) == {i}
  {
    var s1 := After(c, s, Fetch(p, i));
    var s2 := After(c, s1, Deliver(p));
    s' := After(c, s2, RecordOffset);
    OneStep(c, s2, RecordOffset, [], p);
    OneStep(c, s1, Deliver(p), [RecordOffset] + [], p);
    OneStep(c, s, Fetch(p, i), [Deliver(p)] + ([RecordOffset] + []), p);
  }

  lemma OneStep<E>(c: Config, s: State<E>, step: Step<E>, rest: seq<Step<E>>, p: nat)
    requires Allowed(c, s, step) && RunFrom(c, After(c, s, step), rest)
    ensures RunFrom(c, s, [step] + rest) && AfterAll(c, s, [step] + rest) == AfterAll(c, After(c, s, step), rest)
    ensures Written(c, s, [step] + rest, p) == WrittenBy(c, s, step, p) + Written(c, After(c, s, step), rest, p)
  {
    assert ([step] + rest)[1..] == rest;
  }

  /**
    From any state, a fetch beyond `applied + 1` past message `j`, a delivery there and
    its recording lose `j`: the fetch is one the replay model forbids, and whatever
    happens afterwards `j` is not written to the mirror.
  */
  lemma LostForGood<E>(c: Config, s: State<E>, p: nat, j: nat, i: nat, more: seq<Step<E>>)
    requires s.pending.None? && Increasing(Log(s, p)) && j < i < |Log(s, p)| && Log(s, p)[i].value.Some?
    requires Applied(c, s, p).Some? && Applied(c, s, p).value < Log(s, p)[j].offset
    requires RunFrom(c, s, Overtake(p, i) + more)
    ensures !NotBeyond(Log(s, p), i, Applied(c, s, p))
    ensures j !in Written(c, s, Overtake(p, i) + more, p)
    ensures Passed(c, AfterAll(c, s, Overtake(p, i) + more), p, j)
  {
    var s' := Overtaken(c, s, p, j, i);
    SplitRun(c, s, Overtake(p, i), more, p);
    NeverWritten(c, s', more, p, j);
  }

  lemma {:induction false} SplitRun<E>(c: Config, s: State<E>, a: seq<Step<E>>, b: seq<Step<E>>, p: nat)
    requires RunFrom(c, s, a + b)
    ensures RunFrom(c, s, a) && RunFrom(c, AfterAll(c, s, a), b)
    ensures AfterAll(c, s, a + b) == AfterAll(c, AfterAll(c, s, a), b)
    ensures Written(c, s, a + b, p) == Written(c, s, a, p) + Written(c, AfterAll(c, s, a), b, p)
    decreases |a|
  {
    if a == [] {
      assert a + b == b;
    } else {
      assert (a + b)[1..] == a[1..] + b;
      SplitRun(c, After(c, s, a[0]), a[1..], b, p);
    }
  }
}
