/**
  The edge node's replay of the entity topic.  The mirror row and the offset are two
  separate writes, so the run model lets the node crash between them, lets Kafka
  deliver again from anywhere not beyond `applied + 1`, and interleaves partitions
  freely.  Whatever happens, the mirror shows each partition's log up to the recorded
  offset, or one message further while that message's offset is not yet recorded.
*/
module DeltaSync {
  import opened Wrappers

  /** `entity` is `None` for a lost track. */
  datatype Message<E> = Message(entityId: string, entity: Option<E>, ts: string)

  /** A Kafka record; one without a value carries nothing to apply. */
  datatype Record<E> = Record(offset: int, value: Option<Message<E>>)

  datatype Row<E> = Row(entity: Option<E>, ts: string)

  // ------------------------------------------------------------ the local store

  /** The tables `sync_offsets` and `entities_mirror`. */
  datatype Store<E> = Store(offsets: map<(string, nat), int>, rows: map<string, Row<E>>)

  function Find<K, V>(m: map<K, V>, k: K): Option<V> {
    if k in m then Some(m[k]) else None
  }

  function Upserted<E>(s: Store<E>, m: Message<E>): Store<E> {
    s.(rows := s.rows[m.entityId := Row(m.entity, m.ts)])
  }

  function Recorded<E>(s: Store<E>, topic: string, p: nat, offset: int): Store<E> {
    s.(offsets := s.offsets[(topic, p) := offset])
  }

  /** Nothing to apply, or applied already. */
  predicate Skips<E>(s: Store<E>, topic: string, p: nat, r: Record<E>) {
    r.value.None? || ((topic, p) in s.offsets && r.offset <= s.offsets[(topic, p)])
  }

  /** One message handled without a crash. */
  function Handled<E>(s: Store<E>, topic: string, p: nat, r: Record<E>): Store<E> {
    if Skips(s, topic, p, r) then s else Recorded(Upserted(s, r.value.value), topic, p, r.offset)
  }

  class LocalStore<E> {
    var offsets: map<(string, nat), int>
    var rows: map<string, Row<E>>

    function Value(): Store<E> reads this { Store(offsets, rows) }

    constructor ()
      ensures Value() == Store(map[], map[])
    {
      offsets, rows := map[], map[];
    }

    function GetOffset(topic: string, partition: nat): Option<int>
      reads this
    {
      Find(offsets, (topic, partition))
    }

    function GetEntity(entityId: string): Option<Row<E>>
      reads this
    {
      Find(rows, entityId)
    }

    method SetOffset(topic: string, partition: nat, offset: int)
      modifies this
      ensures Value() == Recorded(old(Value()), topic, partition, offset)
      ensures forall t, p :: GetOffset(t, p) == if t == topic && p == partition then Some(offset)
          else old(GetOffset(t, p))
    {
      offsets := offsets[(topic, partition) := offset];
    }

    method ApplyEntityUpsert(entityId: string, entity: Option<E>, ts: string)
      modifies this
      ensures Value() == Upserted(old(Value()), Message(entityId, entity, ts))
      ensures forall k :: GetEntity(k) == if k == entityId then Some(Row(entity, ts)) else old(GetEntity(k))
    {
      rows := rows[entityId := Row(entity, ts)];
    }
  }

  /** The `eachMessage` handler; the result is what `onApplied` is called with. */
  method EachMessage<E>(store: LocalStore<E>, topic: string, partition: nat,
                        record: Record<E>) returns (applied: Option<Message<E>>)
    modifies store
    ensures store.Value() == Handled(old(store.Value()), topic, partition, record)
    ensures applied == if Skips(old(store.Value()), topic, partition, record) then None else record.value
  {
    if record.value.None? { return None; }
    var last := store.GetOffset(topic, partition);
    if last.Some? && record.offset <= last.value { return None; }
    var payload := record.value.value;
    store.ApplyEntityUpsert(payload.entityId, payload.entity, payload.ts);
    store.SetOffset(topic, partition, record.offset);
    return Some(payload);
  }

  /** The seeks at start-up, by partition. */
  method SeekTargets<E>(store: LocalStore<E>, topic: string, partitions: seq<nat>) returns (targets: map<nat, int>)
    ensures forall p :: p in targets <==> p in partitions && store.GetOffset(topic, p).Some?
    ensures forall p :: p in targets ==> targets[p] == store.GetOffset(topic, p).value + 1
  {
    targets := map[];
    for i := 0 to |partitions|
      invariant forall p :: p in targets <==> p in partitions[..i] && store.GetOffset(topic, p).Some?
      invariant forall p :: p in targets ==> targets[p] == store.GetOffset(topic, p).value + 1
    {
      var applied := store.GetOffset(topic, partitions[i]);
      if applied.Some? { targets := targets[partitions[i] := applied.value + 1]; }
    }
  }

  // ------------------------------------------------------------------- runs

  /** The topic, and the partitioner: a message's key is its entity. */
  datatype Config = Config(topic: string, partitionOf: string -> nat)

  /**
    What has happened to a partition whose messages reached the mirror: the first
    record of the current recording (`start`) and the rows before it, how many records
    the recorded offset covers (`done`), how many the mirror shows (`shown`), and
    every offset recorded.
  */
  datatype Past<E> = Past(start: nat, base: map<string, Row<E>>, done: nat, shown: nat, recorded: seq<int>)

  /** `fetch`: index of the next record of each partition; `pending`: the partition between the two writes. */
  datatype State<E> = State(log: map<nat, seq<Record<E>>>, store: Store<E>, fetch: map<nat, nat>, pending: Option<nat>,
                            past: map<nat, Past<E>>)

  datatype Step<E> =
    | Append(p: nat, record: Record<E>)
    | Fetch(p: nat, index: nat)
    | Deliver(p: nat)
    | RecordOffset
    | Crash

  function Log<E>(s: State<E>, p: nat): seq<Record<E>> { if p in s.log then s.log[p] else [] }

  function Applied<E>(c: Config, s: State<E>, p: nat): Option<int> { Find(s.store.offsets, (c.topic, p)) }

  /** A fetch from `index` starts at or before `applied + 1`. */
  ghost predicate NotBeyond<E>(log: seq<Record<E>>, index: nat, applied: Option<int>) {
    index <= |log| && (applied.Some? ==> forall j :: 0 <= j < index ==> log[j].offset <= applied.value)
  }

  ghost predicate Enabled<E>(c: Config, s: State<E>, step: Step<E>) {
    match step
    case Append(p, r) =>
      (r.value.Some? ==> c.partitionOf(r.value.value.entityId) == p) &&
      (Log(s, p) != [] ==> Log(s, p)[|Log(s, p)| - 1].offset < r.offset)
    case Fetch(p, index) => s.pending.None? && NotBeyond(Log(s, p), index, Applied(c, s, p))
    case Deliver(p) => s.pending.None? && p in s.fetch && s.fetch[p] < |Log(s, p)|
    case RecordOffset => s.pending.Some? && s.pending.value in s.fetch &&
        s.fetch[s.pending.value] < |Log(s, s.pending.value)|
    case Crash => true
  }

  ghost function PastBefore<E>(c: Config, s: State<E>, p: nat, index: nat): Past<E> {
    if Applied(c, s, p).None? || p !in s.past then Past(index, s.store.rows, index, index, []) else s.past[p]
  }

  /** What one step does; a crash keeps only the log and the store (and the history). */
  ghost function Next<E>(c: Config, s: State<E>, step: Step<E>): State<E>
    requires Enabled(c, s, step)
  {
    match step
    case Append(p, r) => s.(log := s.log[p := Log(s, p) + [r]])
    case Fetch(p, index) => s.(fetch := s.fetch[p := index])
    case Deliver(p) =>
      var i := s.fetch[p];
      var r := Log(s, p)[i];
      if Skips(s.store, c.topic, p, r) then s.(fetch := s.fetch[p := i + 1])
      else s.(store := Upserted(s.store, r.value.value), pending := Some(p),
              past := s.past[p := PastBefore(c, s, p, i).(shown := i + 1)])
    case RecordOffset =>
      var p := s.pending.value;
      var i := s.fetch[p];
      var offset := Log(s, p)[i].offset;
      var before := if p in s.past then s.past[p] else Past(i, s.store.rows, i, i, []);
      s.(store := Recorded(s.store, c.topic, p, offset), pending := None, fetch := s.fetch[p := i + 1],
         past := s.past[p := before.(done := i + 1, recorded := before.recorded + [offset])])
    case Crash => s.(fetch := map[], pending := None)
  }

  /** An empty store, and a topic nobody has written to yet. */
  ghost function Start<E>(): State<E> { State(map[], Store(map[], map[]), map[], None, map[]) }

  ghost predicate ValidRun<E>(c: Config, steps: seq<Step<E>>)
    decreases |steps|, 0
  {
    steps != [] ==>
      ValidRun(c, steps[..|steps| - 1]) && Enabled(c, Run(c, steps[..|steps| - 1]), steps[|steps| - 1])
  }

  ghost function Run<E>(c: Config, steps: seq<Step<E>>): State<E>
    requires ValidRun(c, steps)
    decreases |steps|, 1
  {
    if steps == [] then Start() else Next(c, Run(c, steps[..|steps| - 1]), steps[|steps| - 1])
  }

  /** The handler is exactly these steps when nothing crashes in between. */
  lemma HandlerIsSteps<E>(c: Config, s: State<E>, p: nat)
    requires Enabled(c, s, Deliver(p))
    ensures var r := Log(s, p)[s.fetch[p]];
      var s' := Next(c, s, Deliver(p));
      var done := if s'.pending.Some? then Next(c, s', RecordOffset) else s';
      && done.store == Handled(s.store, c.topic, p, r)
      && done.fetch == s.fetch[p := s.fetch[p] + 1] && done.pending.None?
  {}

  // ------------------------------------------------------ reading a log directly

  /** The row for entity `k` after a sequence of records: that of its last message. */
  function Latest<E>(records: seq<Record<E>>, k: string): Option<Row<E>> {
    if records == [] then None
    else
      var m := records[|records| - 1].value;
      if m.Some? && m.value.entityId == k then Some(Row(m.value.entity, m.value.ts))
      else Latest(records[..|records| - 1], k)
  }

  /** The offsets of the records that carry a message. */
  function Offsets<E>(records: seq<Record<E>>): seq<int> {
    if records == [] then []
    else
      var last := records[|records| - 1];
      if last.value.None? then Offsets(records[..|records| - 1]) else Offsets(records[..|records| - 1]) + [last.offset]
  }

  ghost predicate Increasing<E>(log: seq<Record<E>>) {
    forall i, j :: 0 <= i < j < |log| ==> log[i].offset < log[j].offset
  }

  ghost predicate Routed<E>(c: Config, p: nat, log: seq<Record<E>>) {
    forall i :: 0 <= i < |log| && log[i].value.Some? ==> c.partitionOf(log[i].value.value.entityId) == p
  }

  /** Nothing to apply between two positions. */
  ghost predicate OnlyNulls<E>(log: seq<Record<E>>, lo: nat, hi: nat) {
    forall i :: lo <= i < hi && i < |log| ==> log[i].value.None?
  }

  lemma {:induction false} OnlyNullsSkip<E>(log: seq<Record<E>>, start: nat, lo: nat, hi: nat, k: string)
    requires start <= lo <= hi <= |log| && OnlyNulls(log, lo, hi)
    ensures Latest(log[start..hi], k) == Latest(log[start..lo], k) && Offsets(log[start..hi]) == Offsets(log[start..lo])
    decreases hi - lo
  {
    if lo < hi {
      OnlyNullsSkip(log, start, lo, hi - 1, k);
      assert log[start..hi][..hi - 1 - start] == log[start..hi - 1];
      assert log[start..hi][hi - 1 - start].value.None?;
    }
  }

  lemma LatestNext<E>(log: seq<Record<E>>, start: nat, i: nat, k: string)
    requires start <= i < |log| && log[i].value.Some?
    ensures Latest(log[start..i + 1], k) ==
      if log[i].value.value.entityId == k then Some(Row(log[i].value.value.entity, log[i].value.value.ts))
        else Latest(log[start..i], k)
    ensures Offsets(log[start..i + 1]) == Offsets(log[start..i]) + [log[i].offset]
  {
    assert log[start..i + 1][..i - start] == log[start..i];
  }

  // ------------------------------------------------------------- the invariant

  /** What the mirror shows of entity `k`: its last message between two positions, or else the row it had before. */
  function Shown<E>(records: seq<Record<E>>, base: map<string, Row<E>>, k: string): Option<Row<E>> {
    var l := Latest(records, k);
    if l.Some? then l else Find(base, k)
  }

  /** The positions of a partition fit together. */
  ghost predicate Aligned<E>(log: seq<Record<E>>, applied: Option<int>, past: Past<E>) {
    && past.start <= past.done <= past.shown <= |log|
    && applied == (if past.start == past.done then None else Some(log[past.done - 1].offset))
    && past.recorded == Offsets(log[past.start..past.done])
    && (past.shown > past.done ==> log[past.shown - 1].value.Some? && OnlyNulls(log, past.done, past.shown - 1))
  }

  ghost predicate Mirrors<E>(c: Config, p: nat, log: seq<Record<E>>, past: Past<E>, rows: map<string, Row<E>>) {
    past.start <= past.shown <= |log| &&
    forall k :: c.partitionOf(k) == p ==> Find(rows, k) == Shown(log[past.start..past.shown], past.base, k)
  }

  /** Where a session stands: everything after the applied offset that it has passed had nothing to apply. */
  ghost predicate InSession<E>(c: Config, s: State<E>, p: nat) {
    p in s.fetch ==>
      && s.fetch[p] <= |Log(s, p)|
      && (Applied(c, s, p).Some? && p in s.past ==> OnlyNulls(Log(s, p), s.past[p].done, s.fetch[p]))
  }

  ghost predicate PartitionOk<E>(c: Config, s: State<E>, p: nat) {
    && Increasing(Log(s, p)) && Routed(c, p, Log(s, p))
    && InSession(c, s, p)
    && (Applied(c, s, p).Some? ==> p in s.past)
    && (p in s.past ==>
      Aligned(Log(s, p), Applied(c, s, p), s.past[p]) && Mirrors(c, p, Log(s, p), s.past[p], s.store.rows))
    && (s.pending == Some(p) ==>
      p in s.past && p in s.fetch && s.past[p].shown == s.fetch[p] + 1 && s.past[p].done <= s.fetch[p])
  }

  ghost predicate Inv<E>(c: Config, s: State<E>) {
    forall p: nat :: PartitionOk(c, s, p)
  }

  lemma AppendKeeps<E>(c: Config, s: State<E>, p: nat, r: Record<E>)
    requires Enabled(c, s, Append(p, r)) && PartitionOk(c, s, p)
    ensures PartitionOk(c, Next(c, s, Append(p, r)), p)
  {
    var log, log' := Log(s, p), Log(s, p) + [r];
    assert Log(Next(c, s, Append(p, r)), p) == log';
    if p in s.past { LongerLog(c, p, log, r, Applied(c, s, p), s.past[p], s.store.rows); }
  }

  lemma LongerLog<E>(c: Config, p: nat, log: seq<Record<E>>, r: Record<E>, applied: Option<int>, past: Past<E>,
                     rows: map<string, Row<E>>)
    requires Aligned(log, applied, past) && Mirrors(c, p, log, past, rows)
    ensures Aligned(log + [r], applied, past) && Mirrors(c, p, log + [r], past, rows)
  {
    assert (log + [r])[past.start..past.done] == log[past.start..past.done];
    assert (log + [r])[past.start..past.shown] == log[past.start..past.shown];
  }

  lemma FetchKeeps<E>(c: Config, s: State<E>, p: nat, index: nat)
    requires Enabled(c, s, Fetch(p, index)) && PartitionOk(c, s, p)
    ensures PartitionOk(c, Next(c, s, Fetch(p, index)), p)
  {
    var log := Log(s, p);
    if Applied(c, s, p).Some? {
      var done := s.past[p].done;
      assert done < |log| ==> log[done - 1].offset < log[done].offset;
    }
  }

  lemma SkipKeeps<E>(c: Config, s: State<E>, p: nat)
    requires Enabled(c, s, Deliver(p)) && PartitionOk(c, s, p)
    requires Skips(s.store, c.topic, p, Log(s, p)[s.fetch[p]])
    ensures PartitionOk(c, Next(c, s, Deliver(p)), p)
  {
    if Applied(c, s, p).Some? {
      var log, done, i := Log(s, p), s.past[p].done, s.fetch[p];
      assert done <= i ==> log[done - 1].offset < log[i].offset;
    }
  }

  /**
    The next message to apply lies past the recorded offset, and is the one a crash may
    already have left in the mirror.
  */
  lemma NextToApply<E>(c: Config, s: State<E>, p: nat)
    requires Enabled(c, s, Deliver(p)) && PartitionOk(c, s, p)
    requires !Skips(s.store, c.topic, p, Log(s, p)[s.fetch[p]])
    ensures var past, i := PastBefore(c, s, p, s.fetch[p]), s.fetch[p];
      && past.start <= past.done <= i && (past.shown == past.done || past.shown == i + 1)
      && OnlyNulls(Log(s, p), past.done, i)
      && Mirrors(c, p, Log(s, p), past, s.store.rows)
      && Aligned(Log(s, p), Applied(c, s, p), past.(shown := i + 1))
  {
    var log, i := Log(s, p), s.fetch[p];
    if Applied(c, s, p).Some? {
      var past := s.past[p];
      assert forall j :: 0 <= j < past.done ==> log[j].offset <= log[past.done - 1].offset;
    }
  }

  lemma ApplyKeeps<E>(c: Config, s: State<E>, p: nat)
    requires Enabled(c, s, Deliver(p)) && PartitionOk(c, s, p)
    requires !Skips(s.store, c.topic, p, Log(s, p)[s.fetch[p]])
    ensures PartitionOk(c, Next(c, s, Deliver(p)), p)
  {
    var log, i, past := Log(s, p), s.fetch[p], PastBefore(c, s, p, s.fetch[p]);
    NextToApply(c, s, p);
    ApplyMirrors(c, p, log, past, s.store, i);
    var s' := Next(c, s, Deliver(p));
    assert Log(s', p) == log && Applied(c, s', p) == Applied(c, s, p);
    assert s'.past[p] == past.(shown := i + 1) && s'.store.rows == Upserted(s.store, log[i].value.value).rows;
    assert s'.fetch == s.fetch;
  }

  /** Applying the next message shows the log up to it, whether it was in the mirror already or not. */
  lemma ApplyMirrors<E>(c: Config, p: nat, log: seq<Record<E>>, past: Past<E>, store: Store<E>, i: nat)
    requires past.start <= past.done <= i < |log| && log[i].value.Some?
    requires past.shown == past.done || past.shown == i + 1
    requires OnlyNulls(log, past.done, i) && Mirrors(c, p, log, past, store.rows)
    ensures Mirrors(c, p, log, past.(shown := i + 1), Upserted(store, log[i].value.value).rows)
  {
    forall k | c.partitionOf(k) == p
      ensures Find(Upserted(store, log[i].value.value).rows, k) == Shown(log[past.start..i + 1], past.base, k)
    {
      LatestNext(log, past.start, i, k);
      OnlyNullsSkip(log, past.start, past.done, i, k);
    }
  }

  lemma RecordKeeps<E>(c: Config, s: State<E>, p: nat)
    requires Enabled(c, s, RecordOffset) && s.pending == Some(p) && PartitionOk(c, s, p)
    ensures PartitionOk(c, Next(c, s, RecordOffset), p)
  {
    var log, i, past := Log(s, p), s.fetch[p], s.past[p];
    RecordAligned(log, Applied(c, s, p), past, i);
  }

  lemma RecordAligned<E>(log: seq<Record<E>>, applied: Option<int>, past: Past<E>, i: nat)
    requires Aligned(log, applied, past) && past.done <= i && past.shown == i + 1
    ensures Aligned(log, Some(log[i].offset), past.(done := i + 1, recorded := past.recorded + [log[i].offset]))
  {
    LatestNext(log, past.start, i, "");
    OnlyNullsSkip(log, past.start, past.done, i, "");
  }

  /** Steps on one partition leave the others alone: no entity has messages in two of them. */
  lemma OthersKeep<E>(c: Config, s: State<E>, step: Step<E>, q: nat)
    requires Enabled(c, s, step) && PartitionOk(c, s, q)
    requires match step
      case Append(p, _) => p != q
      case Fetch(p, _) => p != q
      case Deliver(p) => p != q && PartitionOk(c, s, p)
      case RecordOffset => s.pending != Some(q)
      case Crash => true
    ensures PartitionOk(c, Next(c, s, step), q)
  {
    var s' := Next(c, s, step);
    assert Log(s', q) == Log(s, q) && Applied(c, s', q) == Applied(c, s, q);
    assert q in s'.past <==> q in s.past;
    assert q in s.past ==> s'.past[q] == s.past[q];
    forall k | c.partitionOf(k) == q ensures Find(s'.store.rows, k) == Find(s.store.rows, k) {}
  }

  lemma StepKeeps<E>(c: Config, s: State<E>, step: Step<E>, q: nat)
    requires Inv(c, s) && Enabled(c, s, step)
    ensures PartitionOk(c, Next(c, s, step), q)
  {
    assert PartitionOk(c, s, q);
    match step
    case Append(p, r) => if p == q { AppendKeeps(c, s, p, r); } else { OthersKeep(c, s, step, q); }
    case Fetch(p, index) => if p == q { FetchKeeps(c, s, p, index); } else { OthersKeep(c, s, step, q); }
    case Deliver(p) =>
      assert PartitionOk(c, s, p);
      if p != q { OthersKeep(c, s, step, q); }
      else if Skips(s.store, c.topic, p, Log(s, p)[s.fetch[p]]) { SkipKeeps(c, s, p); }
      else { ApplyKeeps(c, s, p); }
    case RecordOffset => if s.pending == Some(q) { RecordKeeps(c, s, q); } else { OthersKeep(c, s, step, q); }
    case Crash => OthersKeep(c, s, step, q);
  }

  lemma {:induction false} RunInv<E>(c: Config, steps: seq<Step<E>>)
    requires ValidRun(c, steps)
    ensures Inv(c, Run(c, steps))
  {
    if steps == [] {
      forall p: nat ensures PartitionOk(c, Start<E>(), p) {}
    } else {
      var init, last := steps[..|steps| - 1], steps[|steps| - 1];
      RunInv(c, init);
      forall p: nat ensures PartitionOk(c, Next(c, Run(c, init), last), p) { StepKeeps(c, Run(c, init), last, p); }
    }
  }

  // -------------------------------------------------------------- what follows

  /** The mirror is ahead of the recorded offset: a write was, or had been, in flight. */
  ghost predicate Ahead<E>(s: State<E>, p: nat) {
    p in s.past && s.past[p].shown != s.past[p].done
  }

  /** Position `i` holds the first message at or after `from`. */
  ghost predicate NextMessage<E>(log: seq<Record<E>>, from: nat, i: nat) {
    from <= i < |log| && log[i].value.Some? && OnlyNulls(log, from, i)
  }

  /**
    Exactness.  Once an offset is recorded for a partition, every row of its entities
    shows the last message up to that offset; the offsets recorded are those of every
    message from the first one on, once each and in order.  Only between the two
    writes, or after a crash there, do the rows show the one message that follows.
  */
  lemma MirrorExact<E>(c: Config, steps: seq<Step<E>>, p: nat)
    requires ValidRun(c, steps) && Applied(c, Run(c, steps), p).Some?
    ensures var s := Run(c, steps);
      && p in s.past && 0 <= s.past[p].start < s.past[p].done <= |Log(s, p)|
      && Log(s, p)[s.past[p].done - 1].offset == Applied(c, s, p).value
      && s.past[p].recorded == Offsets(Log(s, p)[s.past[p].start..s.past[p].done])
    ensures var s := Run(c, steps);
      !Ahead(s, p) ==> forall k :: c.partitionOf(k) == p ==>
        Find(s.store.rows, k) == Shown(Log(s, p)[s.past[p].start..s.past[p].done], s.past[p].base, k)
    ensures var s := Run(c, steps);
      Ahead(s, p) ==> exists i: nat ::
        NextMessage(Log(s, p), s.past[p].done, i) && Mirrors(c, p, Log(s, p), s.past[p].(shown := i + 1), s.store.rows)
  {
    RunInv(c, steps);
    assert PartitionOk(c, Run(c, steps), p);
    OkIsAligned(c, Run(c, steps), p);
    OkIsExact(c, Run(c, steps), p);
  }

  lemma OkIsAligned<E>(c: Config, s: State<E>, p: nat)
    requires PartitionOk(c, s, p) && Applied(c, s, p).Some?
    ensures p in s.past && 0 <= s.past[p].start < s.past[p].done <= |Log(s, p)|
    ensures Log(s, p)[s.past[p].done - 1].offset == Applied(c, s, p).value
    ensures s.past[p].recorded == Offsets(Log(s, p)[s.past[p].start..s.past[p].done])
  {}

  lemma OkIsExact<E>(c: Config, s: State<E>, p: nat)
    requires PartitionOk(c, s, p) && Applied(c, s, p).Some?
    requires p in s.past && 0 <= s.past[p].start < s.past[p].done <= |Log(s, p)|
    ensures !Ahead(s, p) ==> forall k :: c.partitionOf(k) == p ==>
      Find(s.store.rows, k) == Shown(Log(s, p)[s.past[p].start..s.past[p].done], s.past[p].base, k)
    ensures Ahead(s, p) ==> exists i: nat ::
      NextMessage(Log(s, p), s.past[p].done, i) && Mirrors(c, p, Log(s, p), s.past[p].(shown := i + 1), s.store.rows)
  {
    if Ahead(s, p) {
      assert NextMessage(Log(s, p), s.past[p].done, s.past[p].shown - 1);
    }
  }

  /** Recording an offset leaves the partition exact, and the offset is greater than any recorded for it before. */
  lemma RecordingAdvances<E>(c: Config, steps: seq<Step<E>>, p: nat)
    requires ValidRun(c, steps) && Run(c, steps).pending == Some(p) && Enabled(c, Run(c, steps), RecordOffset)
    ensures var s, s' := Run(c, steps), Next(c, Run(c, steps), RecordOffset);
      && !Ahead(s', p) && Applied(c, s', p).Some?
      && (Applied(c, s, p).Some? ==> Applied(c, s, p).value < Applied(c, s', p).value)
  {
    RunInv(c, steps);
    assert PartitionOk(c, Run(c, steps), p);
  }

  /** A partition is caught up when its session has nothing left to deliver. */
  ghost predicate CaughtUp<E>(c: Config, s: State<E>, p: nat) {
    s.pending != Some(p) && Applied(c, s, p).Some? && p in s.fetch && s.fetch[p] == |Log(s, p)|
  }

  /** A caught-up partition shows its whole log, whatever crashed or was delivered twice on the way. */
  lemma CaughtUpMirror<E>(c: Config, steps: seq<Step<E>>, p: nat, k: string)
    requires ValidRun(c, steps) && CaughtUp(c, Run(c, steps), p) && c.partitionOf(k) == p
    ensures var s := Run(c, steps);
      && p in s.past && s.past[p].start <= |Log(s, p)|
      && Find(s.store.rows, k) == Shown(Log(s, p)[s.past[p].start..], s.past[p].base, k)
      && (Latest(Log(s, p)[s.past[p].start..], k).Some? ==> Find(s.store.rows, k) == Latest(Log(s, p), k))
  {
    RunInv(c, steps);
    var s := Run(c, steps);
    assert PartitionOk(c, s, p);
    var log, past := Log(s, p), s.past[p];
    OnlyNullsSkip(log, past.start, past.done, |log|, k);
    assert log[past.start..|log|] == log[past.start..];
    LatestSuffix(log, past.start, k);
  }

  lemma {:induction false} LatestSuffix<E>(log: seq<Record<E>>, start: nat, k: string)
    requires start <= |log|
    ensures Latest(log[start..], k).Some? ==> Latest(log, k) == Latest(log[start..], k)
  {
    if start < |log| {
      assert log[start..][..|log| - 1 - start] == log[..|log| - 1][start..];
      LatestSuffix(log[..|log| - 1], start, k);
    }
  }

  /**
    Two nodes, two histories of crashes, redeliveries and interleavings: once both are
    caught up on the same partition log they agree on every entity they both received.
  */
  lemma InterleavingIrrelevant<E>(c: Config, left: seq<Step<E>>, right: seq<Step<E>>, p: nat, k: string)
    requires ValidRun(c, left) && CaughtUp(c, Run(c, left), p)
    requires ValidRun(c, right) && CaughtUp(c, Run(c, right), p)
    requires Log(Run(c, left), p) == Log(Run(c, right), p) && c.partitionOf(k) == p
    requires Latest(Log(Run(c, left), p), k).Some?
    requires var l, r := Run(c, left), Run(c, right);
      p in l.past && p in r.past && Received(l, p, k) && Received(r, p, k)
    ensures Find(Run(c, left).store.rows, k) == Find(Run(c, right).store.rows, k)
  {
    CaughtUpMirror(c, left, p, k);
    CaughtUpMirror(c, right, p, k);
  }

  /** Some message for `k` came after the node started recording. */
  ghost predicate Received<E>(s: State<E>, p: nat, k: string)
    requires p in s.past
  {
    s.past[p].start <= |Log(s, p)| && Latest(Log(s, p)[s.past[p].start..], k).Some?
  }

  /** The seek at start-up is one of the fetches a run allows, and the furthest one. */
  lemma SeekIsAllowed<E>(c: Config, steps: seq<Step<E>>, p: nat, index: nat)
    requires ValidRun(c, steps) && Run(c, steps).pending.None? && Applied(c, Run(c, steps), p).Some?
    requires var s := Run(c, steps);
      var target := Applied(c, s, p).value + 1;
      index <= |Log(s, p)| && (forall j :: 0 <= j < index ==> Log(s, p)[j].offset < target) &&
      (index < |Log(s, p)| ==> Log(s, p)[index].offset >= target)
    ensures var s := Run(c, steps);
      forall i: nat :: Enabled(c, s, Fetch(p, i)) <==> i <= index
  {
    var s := Run(c, steps);
    forall i: nat ensures Enabled(c, s, Fetch(p, i)) <==> i <= index {
      assert index < |Log(s, p)| ==> Log(s, p)[index].offset > Applied(c, s, p).value;
    }
  }
}
