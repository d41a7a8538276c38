/**
  The event-time window over several Redis streams.  A run is any sequence of
  polls against append-only streams.  Whatever the interleaving, nothing read is
  lost or repeated; and the released events are the stable sort by `sensor_ts` of
  everything read exactly when no event arrives older than one already released.
*/
module Watermark {
  import opened Wrappers
  import opened StableSort
  import opened Filtering

  /** One stream entry: its id (Redis ids only grow, the cursor starts at "0") and its flat field list. */
  datatype Entry = Entry(id: nat, fields: seq<string>)

  datatype Event = Event(domain: string, sensorTs: string, payload: string)

  /** The streams' contents, by domain. */
  type Streams = map<string, seq<Entry>>

  /** `Date.parse`, in milliseconds. */
  type Clock = string -> real

  function ByTs(parse: Clock): Event -> real { (e: Event) => parse(e.sensorTs) }

  function IndexOf(fields: seq<string>, name: string): (i: int)
    ensures -1 <= i < |fields|
  {
    if fields == [] then -1
    else if fields[0] == name then 0
    else var i := IndexOf(fields[1..], name); if i == -1 then -1 else i + 1
  }

  /** The event in an entry, `None` when either field or its value is missing. */
  function ParseEntry(domain: string, e: Entry): (r: Option<Event>)
    ensures r.Some? ==> r.value.domain == domain
  {
    var t, p := IndexOf(e.fields, "sensor_ts"), IndexOf(e.fields, "payload");
    if t == -1 || p == -1 || t + 1 >= |e.fields| || p + 1 >= |e.fields| then None
    else Some(Event(domain, e.fields[t + 1], e.fields[p + 1]))
  }

  function Parse(domain: string, entries: seq<Entry>): seq<Event> {
    if entries == [] then []
    else
      var e := ParseEntry(domain, entries[|entries| - 1]);
      Parse(domain, entries[..|entries| - 1]) + (if e.Some? then [e.value] else [])
  }

  function IdAbove(cursor: nat): Entry -> bool { (e: Entry) => e.id > cursor }

  /** The entries of a stream behind a cursor. */
  function Behind(entries: seq<Entry>, cursor: nat): seq<Entry> { Filter(IdAbove(cursor), entries) }

  function StreamOf(streams: Streams, domain: string): seq<Entry> {
    if domain in streams then streams[domain] else []
  }

  // ------------------------------------------------------- the window's state

  datatype Window = Window(lastIds: map<string, nat>, buffer: seq<Event>, maxTs: Option<real>)

  datatype Config = Config(domains: seq<string>, watermarkMs: real, parse: Clock)

  function Cursor(w: Window, domain: string): nat {
    if domain in w.lastIds then w.lastIds[domain] else 0
  }

  /** What XREAD returns for one domain. */
  function Unread(w: Window, streams: Streams, domain: string): seq<Entry> {
    Behind(StreamOf(streams, domain), Cursor(w, domain))
  }

  /** The whole answer, made before any of it is read into the window. */
  function Reply(w: Window, streams: Streams, domains: seq<string>): (r: seq<seq<Entry>>)
    ensures |r| == |domains| && forall i :: 0 <= i < |domains| ==> r[i] == Unread(w, streams, domains[i])
  {
    seq(|domains|, i requires 0 <= i < |domains| => Unread(w, streams, domains[i]))
  }

  /** The well-formed events one read delivers, domain by domain. */
  function Arrivals(w: Window, streams: Streams, domains: seq<string>): seq<Event> {
    if domains == [] then []
    else Arrivals(w, streams, domains[..|domains| - 1]) +
         Parse(domains[|domains| - 1], Unread(w, streams, domains[|domains| - 1]))
  }

  predicate NothingUnread(w: Window, streams: Streams, domains: seq<string>) {
    forall i :: 0 <= i < |domains| ==> Unread(w, streams, domains[i]) == []
  }

  function Advance(w: Window, streams: Streams, domains: seq<string>): map<string, nat> {
    if domains == [] then w.lastIds
    else
      var d := domains[|domains| - 1];
      var es := Unread(w, streams, d);
      var rest := Advance(w, streams, domains[..|domains| - 1]);
      if es == [] then rest else rest[d := es[|es| - 1].id]
  }

  function MaxWith(m: Option<real>, t: real): Option<real> {
    if m.None? || t > m.value then Some(t) else m
  }

  function MaxOver(parse: Clock, m: Option<real>, es: seq<Event>): Option<real> {
    if es == [] then m else MaxWith(MaxOver(parse, m, es[..|es| - 1]), parse(es[|es| - 1].sensorTs))
  }

  function UpTo(parse: Clock, mark: real): Event -> bool { (e: Event) => parse(e.sensorTs) <= mark }
  function After(parse: Clock, mark: real): Event -> bool { (e: Event) => parse(e.sensorTs) > mark }

  /** The events at or before a watermark, and those newer than it, in order. */
  function Ready(parse: Clock, mark: real, es: seq<Event>): seq<Event> { Filter(UpTo(parse, mark), es) }
  function Newer(parse: Clock, mark: real, es: seq<Event>): seq<Event> { Filter(After(parse, mark), es) }

  /** The window after the entries of one stream have been read into it. */
  function AfterStream(parse: Clock, w: Window, domain: string, entries: seq<Entry>): Window {
    Window(if entries == [] then w.lastIds else w.lastIds[domain := entries[|entries| - 1].id],
           w.buffer + Parse(domain, entries), MaxOver(parse, w.maxTs, Parse(domain, entries)))
  }

  /** The window after one read, before anything is released. */
  function AfterRead(parse: Clock, w: Window, streams: Streams, domains: seq<string>): Window {
    var arrivals := Arrivals(w, streams, domains);
    Window(Advance(w, streams, domains), w.buffer + arrivals, MaxOver(parse, w.maxTs, arrivals))
  }

  datatype Outcome = Outcome(window: Window, released: seq<Event>)

  /** Releases what the watermark has passed. */
  function Release(c: Config, w: Window): Outcome {
    if w.maxTs.None? then Outcome(w, [])
    else
      var mark := w.maxTs.value - c.watermarkMs;
      Outcome(w.(buffer := Newer(c.parse, mark, w.buffer)), Sort(ByTs(c.parse), Ready(c.parse, mark, w.buffer)))
  }

  /** A poll that finds `streams` when its read returns; a read with nothing new is a timeout. */
  function Polled(c: Config, w: Window, streams: Streams, blocking: bool): Outcome {
    if !NothingUnread(w, streams, c.domains) then Release(c, AfterRead(c.parse, w, streams, c.domains))
    else if blocking then Outcome(w.(buffer := []), Sort(ByTs(c.parse), w.buffer))
    else Outcome(w, [])
  }

  // ---------------------------------------------------------------- the class

  class WatermarkWindow {
    const config: Config
    var lastIds: map<string, nat>
    var buffer: seq<Event>
    var maxSensorTsMs: Option<real>

    function Value(): Window reads this { Window(lastIds, buffer, maxSensorTsMs) }

    constructor (config: Config)
      ensures this.config == config
      ensures Value() == Window(map d | d in config.domains :: 0, [], None)
    {
      this.config := config;
      lastIds := map d | d in config.domains :: 0;
      buffer := [];
      maxSensorTsMs := None;
    }

    /** The nested loops over the read's result. */
    method ReadEntries(streams: Streams)
      modifies this
      ensures Value() == AfterRead(config.parse, old(Value()), streams, config.domains)
    {
      ghost var w := Value();
      var reply := Reply(Value(), streams, config.domains);
      for i := 0 to |config.domains|
        invariant Value() == AfterRead(config.parse, w, streams, config.domains[..i])
      {
        var domain := config.domains[i];
        ghost var prefix := config.domains[..i];
        ReadStream(domain, reply[i]);
        OneMoreDomain(config.parse, w, streams, prefix, domain);
        assert config.domains[..i + 1] == prefix + [domain];
      }
      assert config.domains[..|config.domains|] == config.domains;
    }

    /** The inner loop: the cursor moves over every entry, malformed ones included. */
    method ReadStream(domain: string, entries: seq<Entry>)
      modifies this
      ensures Value() == AfterStream(config.parse, old(Value()), domain, entries)
    {
      ghost var w := Value();
      for j := 0 to |entries|
        invariant Value() == AfterStream(config.parse, w, domain, entries[..j])
      {
        AfterNextEntry(config.parse, w, domain, entries, j);
        lastIds := lastIds[domain := entries[j].id];
        var e := ParseEntry(domain, entries[j]);
        if e.None? { continue; }
        var ms := config.parse(e.value.sensorTs);
        if maxSensorTsMs.None? || ms > maxSensorTsMs.value { maxSensorTsMs := Some(ms); }
        buffer := buffer + [e.value];
      }
      assert entries[..|entries|] == entries;
    }

    method Poll(streams: Streams, blocking: bool) returns (ready: seq<Event>)
      modifies this
      ensures Outcome(Value(), ready) == Polled(config, old(Value()), streams, blocking)
    {
      if NothingUnread(Value(), streams, config.domains) {
        if blocking { ready := FlushAll(); return; }
        return [];
      }
      ReadEntries(streams);
      ready := ReleaseReady();
    }

    /** The rest of `poll`: what the watermark has passed. */
    method ReleaseReady() returns (ready: seq<Event>)
      modifies this
      ensures Outcome(Value(), ready) == Release(config, old(Value()))
    {
      if maxSensorTsMs.None? { return []; }
      var watermark := maxSensorTsMs.value - config.watermarkMs;
      ready := SplitBuffer(watermark);
      ready := Sort(ByTs(config.parse), ready);
    }

    method SplitBuffer(watermark: real) returns (ready: seq<Event>)
      modifies `buffer
      ensures ready == Ready(config.parse, watermark, old(buffer))
      ensures buffer == Newer(config.parse, watermark, old(buffer))
    {
      ready := [];
      var stillBuffered: seq<Event> := [];
      for i := 0 to |buffer|
        invariant buffer == old(buffer)
        invariant ready == Ready(config.parse, watermark, buffer[..i])
        invariant stillBuffered == Newer(config.parse, watermark, buffer[..i])
      {
        SplitNext(config.parse, watermark, buffer, i);
        if config.parse(buffer[i].sensorTs) <= watermark {
          ready := ready + [buffer[i]];
        } else {
          stillBuffered := stillBuffered + [buffer[i]];
        }
      }
      assert buffer[..|buffer|] == buffer;
      buffer := stillBuffered;
    }

    method FlushAll() returns (ready: seq<Event>)
      modifies this
      ensures Value() == old(Value()).(buffer := []) && ready == Sort(ByTs(config.parse), old(buffer))
    {
      ready := Sort(ByTs(config.parse), buffer);
      buffer := [];
    }
  }

  lemma SplitNext(parse: Clock, mark: real, es: seq<Event>, i: nat)
    requires i < |es|
    ensures Ready(parse, mark, es[..i + 1]) ==
      if parse(es[i].sensorTs) <= mark then Ready(parse, mark, es[..i]) + [es[i]] else Ready(parse, mark, es[..i])
    ensures Newer(parse, mark, es[..i + 1]) ==
      if parse(es[i].sensorTs) <= mark then Newer(parse, mark, es[..i]) else Newer(parse, mark, es[..i]) + [es[i]]
  {
    assert es[..i + 1] == es[..i] + [es[i]];
    FilterSnoc(UpTo(parse, mark), es[..i], es[i]);
    FilterSnoc(After(parse, mark), es[..i], es[i]);
  }

  /** The window after one entry: a malformed one only moves the cursor. */
  function AfterEntry(parse: Clock, w: Window, domain: string, entry: Entry): Window {
    var ids := w.lastIds[domain := entry.id];
    var e := ParseEntry(domain, entry);
    if e.None? then w.(lastIds := ids) else Window(ids, w.buffer + [e.value], MaxWith(w.maxTs, parse(e.value.sensorTs)))
  }

  lemma AfterNextEntry(parse: Clock, w: Window, domain: string, entries: seq<Entry>, j: nat)
    requires j < |entries|
    ensures AfterStream(parse, w, domain, entries[..j + 1])
         == AfterEntry(parse, AfterStream(parse, w, domain, entries[..j]), domain, entries[j])
  {
    assert entries[..j + 1] == entries[..j] + [entries[j]];
    ParseSnoc(domain, entries[..j], entries[j]);
    var e := ParseEntry(domain, entries[j]);
    if e.Some? {
      var es := Parse(domain, entries[..j]);
      assert (es + [e.value])[..|es|] == es;
      assert w.buffer + (es + [e.value]) == (w.buffer + es) + [e.value];
    }
  }

  lemma ParseSnoc(domain: string, entries: seq<Entry>, entry: Entry)
    ensures var e := ParseEntry(domain, entry);
      Parse(domain, entries + [entry]) == if e.Some? then Parse(domain, entries) + [e.value] else Parse(domain, entries)
  {
    assert (entries + [entry])[..|entries|] == entries;
  }

  lemma {:induction false} MaxOverAppend(parse: Clock, m: Option<real>, a: seq<Event>, b: seq<Event>)
    ensures MaxOver(parse, m, a + b) == MaxOver(parse, MaxOver(parse, m, a), b)
  {
    if b == [] {
      assert a + b == a;
    } else {
      assert (a + b)[..|a + b| - 1] == a + b[..|b| - 1];
      MaxOverAppend(parse, m, a, b[..|b| - 1]);
    }
  }

  /** Reading one more domain. */
  lemma OneMoreDomain(parse: Clock, w: Window, streams: Streams, prefix: seq<string>, d: string)
    ensures AfterRead(parse, w, streams, prefix + [d])
         == AfterStream(parse, AfterRead(parse, w, streams, prefix), d, Unread(w, streams, d))
  {
    ReadSnoc(w, streams, prefix, d);
    Appended(parse, w, Arrivals(w, streams, prefix), Parse(d, Unread(w, streams, d)));
  }

  lemma Appended(parse: Clock, w: Window, before: seq<Event>, more: seq<Event>)
    ensures MaxOver(parse, w.maxTs, before + more) == MaxOver(parse, MaxOver(parse, w.maxTs, before), more)
    ensures w.buffer + (before + more) == (w.buffer + before) + more
  {
    MaxOverAppend(parse, w.maxTs, before, more);
  }

  lemma ReadSnoc(w: Window, streams: Streams, prefix: seq<string>, d: string)
    ensures var es, ids := Unread(w, streams, d), Advance(w, streams, prefix);
      && Arrivals(w, streams, prefix + [d]) == Arrivals(w, streams, prefix) + Parse(d, es)
      && Advance(w, streams, prefix + [d]) == if es == [] then ids else ids[d := es[|es| - 1].id]
  {
    assert (prefix + [d])[..|prefix|] == prefix;
  }

  lemma {:induction false} AdvanceOther(w: Window, streams: Streams, domains: seq<string>, d: string)
    requires d !in domains
    ensures var ids := Advance(w, streams, domains);
      (d in ids <==> d in w.lastIds) && (d in ids ==> ids[d] == w.lastIds[d])
  {
    if domains != [] {
      assert domains[|domains| - 1] != d;
      AdvanceOther(w, streams, domains[..|domains| - 1], d);
    }
  }

  // ----------------------------------------------------------------- whole runs

  /** One poll: what the streams hold when it reads, and whether it was a blocking one. */
  datatype Poll = Poll(streams: Streams, blocking: bool)

  /** The state after a run, everything read so far and everything released so far. */
  datatype History = History(window: Window, read: seq<Event>, released: seq<Event>)

  ghost function Start(c: Config): History {
    History(Window(map d | d in c.domains :: 0, [], None), [], [])
  }

  /** What a poll reads. */
  ghost function Incoming(c: Config, w: Window, p: Poll): seq<Event> {
    if NothingUnread(w, p.streams, c.domains) then [] else Arrivals(w, p.streams, c.domains)
  }

  ghost function Next(c: Config, h: History, p: Poll): History {
    var out := Polled(c, h.window, p.streams, p.blocking);
    History(out.window, h.read + Incoming(c, h.window, p), h.released + out.released)
  }

  ghost function Run(c: Config, polls: seq<Poll>): History {
    if polls == [] then Start(c) else Next(c, Run(c, polls[..|polls| - 1]), polls[|polls| - 1])
  }

  /** No arrival is older than an event released before it. */
  ghost predicate NotBehind(parse: Clock, released: seq<Event>, arrivals: seq<Event>) {
    forall r, a :: r in released && a in arrivals ==> parse(r.sensorTs) <= parse(a.sensorTs)
  }

  ghost predicate OnTime(c: Config, polls: seq<Poll>) {
    polls != [] ==>
      var init := Run(c, polls[..|polls| - 1]);
      OnTime(c, polls[..|polls| - 1]) && NotBehind(c.parse, init.released, Incoming(c, init.window, polls[|polls| - 1]))
  }

  // -------------------------------------------------- splitting at a watermark

  lemma ReadyClass(parse: Clock, mark: real, es: seq<Event>, k: real)
    ensures Class(ByTs(parse), k, Ready(parse, mark, es)) == if k <= mark then Class(ByTs(parse), k, es) else []
  {
    FilterAfter(HasKey(ByTs(parse), k), UpTo(parse, mark), es);
  }

  lemma NewerClass(parse: Clock, mark: real, es: seq<Event>, k: real)
    ensures Class(ByTs(parse), k, Newer(parse, mark, es)) == if k <= mark then [] else Class(ByTs(parse), k, es)
  {
    FilterAfter(HasKey(ByTs(parse), k), After(parse, mark), es);
  }

  lemma SplitMember(parse: Clock, mark: real, es: seq<Event>, e: Event)
    ensures e in Ready(parse, mark, es) <==> e in es && parse(e.sensorTs) <= mark
    ensures e in Newer(parse, mark, es) <==> e in es && parse(e.sensorTs) > mark
  {
    FilterMember(UpTo(parse, mark), es, e);
    FilterMember(After(parse, mark), es, e);
  }

  /** The three ways a poll divides what is buffered and what arrived. */
  ghost predicate Divides(parse: Clock, all: seq<Event>, released: seq<Event>, kept: seq<Event>, mark: Option<real>) {
    || (released == [] && kept == all)
    || (released == Sort(ByTs(parse), all) && kept == [])
    || (mark.Some? && released == Sort(ByTs(parse), Ready(parse, mark.value, all)) &&
      kept == Newer(parse, mark.value, all))
  }

  ghost function MarkOf(c: Config, w: Window, p: Poll): Option<real> {
    var m := MaxOver(c.parse, w.maxTs, Incoming(c, w, p));
    if m.None? then None else Some(m.value - c.watermarkMs)
  }

  lemma PollDivides(c: Config, w: Window, p: Poll)
    ensures var out := Polled(c, w, p.streams, p.blocking);
      Divides(c.parse, w.buffer + Incoming(c, w, p), out.released, out.window.buffer, MarkOf(c, w, p))
  {
    var all := w.buffer + Incoming(c, w, p);
    var out := Polled(c, w, p.streams, p.blocking);
    if NothingUnread(w, p.streams, c.domains) {
      assert all == w.buffer;
    } else if MarkOf(c, w, p).None? {
      assert out.released == [] && out.window.buffer == all;
    } else {
      var mark := MarkOf(c, w, p).value;
      assert out.window.buffer == Newer(c.parse, mark, all);
    }
  }

  lemma DividesClass(parse: Clock, all: seq<Event>, released: seq<Event>, kept: seq<Event>, mark: Option<real>, k: real)
    requires Divides(parse, all, released, kept, mark)
    ensures Class(ByTs(parse), k, released) + Class(ByTs(parse), k, kept) == Class(ByTs(parse), k, all)
  {
    SortSpec(ByTs(parse), all);
    assert Class(ByTs(parse), k, Sort(ByTs(parse), all)) == Class(ByTs(parse), k, all);
    if mark.Some? { SplitClass(parse, mark.value, all, k); }
  }

  lemma SplitClass(parse: Clock, mark: real, all: seq<Event>, k: real)
    ensures Class(ByTs(parse), k, Sort(ByTs(parse), Ready(parse, mark, all))) +
        Class(ByTs(parse), k, Newer(parse, mark, all))
         == Class(ByTs(parse), k, all)
  {
    var key, ready := ByTs(parse), Ready(parse, mark, all);
    ReadyClass(parse, mark, all, k);
    NewerClass(parse, mark, all, k);
    SortSpec(key, ready);
    assert Class(key, k, Sort(key, ready)) == Class(key, k, ready);
  }

  /** What is released is sorted and not newer than what is kept; together they are everything. */
  lemma DividesInOrder(parse: Clock, all: seq<Event>, released: seq<Event>, kept: seq<Event>, mark: Option<real>)
    requires Divides(parse, all, released, kept, mark)
    ensures Sorted(ByTs(parse), released) && NotBehind(parse, released, kept)
    ensures forall e :: e in all <==> e in released || e in kept
  {
    var key := ByTs(parse);
    SortSpec(key, all);
    if mark.Some? {
      SortSpec(key, Ready(parse, mark.value, all));
      forall e ensures e in Ready(parse, mark.value, all) <==> e in all && parse(e.sensorTs) <= mark.value
               ensures e in Newer(parse, mark.value, all) <==> e in all && parse(e.sensorTs) > mark.value {
        SplitMember(parse, mark.value, all, e);
      }
    }
  }

  // ------------------------------------------------------------- conservation

  /** One poll moves events but keeps, timestamp by timestamp, what there is and its order. */
  lemma PollConserves(c: Config, h: History, p: Poll)
    requires SameClasses(ByTs(c.parse), h.released + h.window.buffer, h.read)
    ensures var h' := Next(c, h, p);
      SameClasses(ByTs(c.parse), h'.released + h'.window.buffer, h'.read)
  {
    var out := Polled(c, h.window, p.streams, p.blocking);
    var arrivals := Incoming(c, h.window, p);
    PollDivides(c, h.window, p);
    forall k ensures Class(ByTs(c.parse), k, (h.released + out.released) + out.window.buffer)
                  == Class(ByTs(c.parse), k, h.read + arrivals) {
      DividesClass(c.parse, h.window.buffer + arrivals, out.released, out.window.buffer, MarkOf(c, h.window, p), k);
      MovedClass(c.parse, k, h.released, h.window.buffer, h.read, arrivals, out.released, out.window.buffer);
    }
  }

  lemma MovedClass(parse: Clock, k: real, released: seq<Event>, buffer: seq<Event>, read: seq<Event>,
                   arrivals: seq<Event>, out: seq<Event>, kept: seq<Event>)
    requires SameClasses(ByTs(parse), released + buffer, read)
    requires Class(ByTs(parse), k, out) + Class(ByTs(parse), k, kept) == Class(ByTs(parse), k, buffer + arrivals)
    ensures Class(ByTs(parse), k, (released + out) + kept) == Class(ByTs(parse), k, read + arrivals)
  {
    var key := ByTs(parse);
    ClassAppend(key, k, released + out, kept);
    ClassAppend(key, k, released, out);
    ClassAppend(key, k, released, buffer);
    ClassAppend(key, k, read, arrivals);
    ClassAppend(key, k, buffer, arrivals);
    assert Class(key, k, released + buffer) == Class(key, k, read);
    Regroup(Class(key, k, released), Class(key, k, buffer), Class(key, k, arrivals), Class(key, k, out),
      Class(key, k, kept));
  }

  lemma Regroup(r: seq<Event>, b: seq<Event>, a: seq<Event>, o: seq<Event>, k: seq<Event>)
    requires o + k == b + a
    ensures (r + o) + k == (r + b) + a
  {
    assert (r + o) + k == r + (o + k);
    assert (r + b) + a == r + (b + a);
  }

  /** Over any run, every event read is released or buffered, as often as it was read. */
  lemma {:induction false} RunConserves(c: Config, polls: seq<Poll>)
    ensures var h := Run(c, polls);
      SameClasses(ByTs(c.parse), h.released + h.window.buffer, h.read)
    ensures var h := Run(c, polls);
      multiset(h.released) + multiset(h.window.buffer) == multiset(h.read)
  {
    if polls != [] {
      RunConserves(c, polls[..|polls| - 1]);
      PollConserves(c, Run(c, polls[..|polls| - 1]), polls[|polls| - 1]);
    }
    var h := Run(c, polls);
    forall e ensures (multiset(h.released) + multiset(h.window.buffer))[e] == multiset(h.read)[e] {
      SameClassesPermute(ByTs(c.parse), h.released + h.window.buffer, h.read, e);
    }
  }

  // ------------------------------------------------------------ the online sort

  /** Released in order, and nothing left that belongs before something released. */
  ghost predicate Ordered(parse: Clock, released: seq<Event>, rest: seq<Event>) {
    Sorted(ByTs(parse), released) && NotBehind(parse, released, rest)
  }

  /** Releasing the ready part of what is left keeps the order if and only if it was kept. */
  lemma ReleaseKeepsOrder(parse: Clock, released: seq<Event>, rest: seq<Event>, out: seq<Event>, rest': seq<Event>)
    requires Sorted(ByTs(parse), out)
    requires forall e :: e in rest <==> e in out || e in rest'
    requires NotBehind(parse, out, rest')
    ensures Ordered(parse, released + out, rest') <==> Ordered(parse, released, rest)
  {
    var key := ByTs(parse);
    var s := released + out;
    if Ordered(parse, s, rest') {
      forall i, j | 0 <= i < j < |released| ensures key(released[i]) <= key(released[j]) {
        assert key(s[i]) <= key(s[j]);
      }
      forall r, e | r in released && e in rest ensures parse(r.sensorTs) <= parse(e.sensorTs) {
        assert r in s;
        if e in out {
          var i :| 0 <= i < |released| && released[i] == r;
          var j :| 0 <= j < |out| && out[j] == e;
          assert key(s[i]) <= key(s[|released| + j]);
        }
      }
    }
    if Ordered(parse, released, rest) {
      forall i, j | 0 <= i < j < |s| ensures key(s[i]) <= key(s[j]) {
        if i < |released| {
          assert released[i] in released;
          if j >= |released| { assert out[j - |released|] in out; }
        }
      }
      forall r, e | r in s && e in rest' ensures parse(r.sensorTs) <= parse(e.sensorTs) {
        assert e in rest;
      }
    }
  }

  lemma PollOrders(c: Config, h: History, p: Poll)
    ensures var h' := Next(c, h, p);
      Ordered(c.parse, h'.released, h'.window.buffer) ==
      (Ordered(c.parse, h.released, h.window.buffer) && NotBehind(c.parse, h.released, Incoming(c, h.window, p)))
  {
    var w := h.window;
    var all := w.buffer + Incoming(c, w, p);
    var out := Polled(c, w, p.streams, p.blocking);
    assert Ordered(c.parse, h.released, all) <==>
      Ordered(c.parse, h.released, w.buffer) && NotBehind(c.parse, h.released, Incoming(c, w, p));
    PollDivides(c, w, p);
    DividesInOrder(c.parse, all, out.released, out.window.buffer, MarkOf(c, w, p));
    ReleaseKeepsOrder(c.parse, h.released, all, out.released, out.window.buffer);
  }

  lemma {:induction false} RunOrders(c: Config, polls: seq<Poll>)
    ensures var h := Run(c, polls);
      Ordered(c.parse, h.released, h.window.buffer) <==> OnTime(c, polls)
  {
    if polls != [] {
      RunOrders(c, polls[..|polls| - 1]);
      PollOrders(c, Run(c, polls[..|polls| - 1]), polls[|polls| - 1]);
    }
  }

  lemma OrderedIsSorted(parse: Clock, released: seq<Event>, rest: seq<Event>)
    ensures Ordered(parse, released, rest) <==> Sorted(ByTs(parse), released + Sort(ByTs(parse), rest))
  {
    var out := Sort(ByTs(parse), rest);
    SortSpec(ByTs(parse), rest);
    ReleaseKeepsOrder(parse, released, rest, out, []);
  }

  /**
    The window is an online stable sort exactly for on-time runs: the releases so
    far, followed by the sorted buffer, are the stable sort of everything read if and
    only if no event arrived older than one already released.
  */
  lemma OnlineSort(c: Config, polls: seq<Poll>)
    ensures var h := Run(c, polls);
      h.released + Sort(ByTs(c.parse), h.window.buffer) == Sort(ByTs(c.parse), h.read) <==> OnTime(c, polls)
    ensures OnTime(c, polls) ==> Run(c, polls).released <= Sort(ByTs(c.parse), Run(c, polls).read)
  {
    var key := ByTs(c.parse);
    var h := Run(c, polls);
    var s := h.released + Sort(key, h.window.buffer);
    RunOrders(c, polls);
    RunConserves(c, polls);
    OrderedIsSorted(c.parse, h.released, h.window.buffer);
    SortSpec(key, h.window.buffer);
    forall k ensures Class(key, k, s) == Class(key, k, h.read) {
      ClassAppend(key, k, h.released, Sort(key, h.window.buffer));
      ClassAppend(key, k, h.released, h.window.buffer);
      assert Class(key, k, Sort(key, h.window.buffer)) == Class(key, k, h.window.buffer);
      assert Class(key, k, h.released + h.window.buffer) == Class(key, k, h.read);
    }
    SortCharacterised(key, s, h.read);
  }

  /** An idle blocking poll releases the rest: then the releases are the whole stable sort, for on-time runs. */
  lemma FlushCompletes(c: Config, polls: seq<Poll>, p: Poll)
    requires p.blocking && NothingUnread(Run(c, polls).window, p.streams, c.domains)
    ensures var h := Run(c, polls + [p]);
      h.window.buffer == [] && (h.released == Sort(ByTs(c.parse), h.read) <==> OnTime(c, polls))
  {
    assert (polls + [p])[..|polls|] == polls;
    OnlineSort(c, polls + [p]);
    var h := Run(c, polls + [p]);
    assert h.released + Sort(ByTs(c.parse), []) == h.released;
  }

  // --------------------------------------------------------- a late second domain

  /** What two polls find: two entries of one domain, then an entry of the other as well. */
  ghost function TwoPolls(d: string, d': string, e1: Entry, e2: Entry, e3: Entry): seq<Poll> {
    [Poll(map[d := [e1, e2]], false), Poll(map[d := [e1, e2], d' := [e3]], false)]
  }

  lemma BehindAll(entries: seq<Entry>, cursor: nat)
    ensures (forall e :: e in entries ==> e.id > cursor) ==> Behind(entries, cursor) == entries
    ensures (forall e :: e in entries ==> e.id <= cursor) ==> Behind(entries, cursor) == []
  {
    FilterAllOrNone(IdAbove(cursor), entries);
  }

  lemma ParseOne(d: string, e: Entry)
    requires ParseEntry(d, e).Some?
    ensures Parse(d, [e]) == [ParseEntry(d, e).value]
  {
    ParseSnoc(d, [], e);
    assert [] + [e] == [e];
  }

  lemma ParseTwo(d: string, e1: Entry, e2: Entry)
    requires ParseEntry(d, e1).Some? && ParseEntry(d, e2).Some?
    ensures Parse(d, [e1, e2]) == [ParseEntry(d, e1).value, ParseEntry(d, e2).value]
  {
    ParseOne(d, e1);
    ParseSnoc(d, [e1], e2);
    assert [e1] + [e2] == [e1, e2];
  }

  lemma ArrivalsOfTwo(w: Window, streams: Streams, d: string, d': string)
    ensures Arrivals(w, streams, [d, d']) == Parse(d, Unread(w, streams, d)) + Parse(d', Unread(w, streams, d'))
  {
    assert [d, d'][..1] == [d] && [d][..0] == [];
    assert Arrivals(w, streams, [d]) == Parse(d, Unread(w, streams, d));
  }

  /** The cursors when only the first of two domains has something new. */
  lemma AdvanceFirst(w: Window, streams: Streams, d: string, d': string)
    requires Unread(w, streams, d) != [] && Unread(w, streams, d') == []
    ensures var es := Unread(w, streams, d); Advance(w, streams, [d, d']) == w.lastIds[d := es[|es| - 1].id]
  {
    assert [d, d'][..1] == [d] && [d][..0] == [];
    assert Advance(w, streams, [d]) == w.lastIds[d := Unread(w, streams, d)[|Unread(w, streams, d)| - 1].id];
  }

  lemma MaxOfOne(parse: Clock, m: Option<real>, a: Event)
    ensures MaxOver(parse, m, [a]) == MaxWith(m, parse(a.sensorTs))
  {
    assert [a][..0] == [];
  }

  lemma MaxOfTwo(parse: Clock, m: Option<real>, a: Event, b: Event)
    ensures MaxOver(parse, m, [a, b]) == MaxWith(MaxWith(m, parse(a.sensorTs)), parse(b.sensorTs))
  {
    MaxOfOne(parse, m, a);
    assert [a, b][..1] == [a];
  }

  /** What a watermark between two events makes of them. */
  lemma SplitTwo(parse: Clock, mark: real, a: Event, b: Event)
    requires parse(a.sensorTs) <= mark < parse(b.sensorTs)
    ensures Ready(parse, mark, [a, b]) == Ready(parse, mark, [b, a]) == [a]
    ensures Newer(parse, mark, [a, b]) == Newer(parse, mark, [b, a]) == [b]
    ensures Sort(ByTs(parse), [a]) == [a]
  {
    SplitPair(parse, mark, a, b);
    SplitPair(parse, mark, b, a);
    assert [] + [a] == [a] && [] + [b] == [b] && [a] + [] == [a] && [b] + [] == [b];
  }

  lemma SplitPair(parse: Clock, mark: real, x: Event, y: Event)
    ensures Ready(parse, mark, [x, y]) == Ready(parse, mark, [x]) + Ready(parse, mark, [y])
    ensures Newer(parse, mark, [x, y]) == Newer(parse, mark, [x]) + Newer(parse, mark, [y])
  {
    assert [x, y] == [x] + [y];
    FilterAppend(UpTo(parse, mark), [x], [y]);
    FilterAppend(After(parse, mark), [x], [y]);
  }

  /** The state after `v1` has been released and `v2` is held back. */
  ghost predicate HeldBack(c: Config, h: History, d: string, d': string, last: nat, v1: Event, v2: Event) {
    && h.released == [v1] && h.window.buffer == [v2] && h.window.maxTs == Some(c.parse(v2.sensorTs))
    && Cursor(h.window, d) == last && Cursor(h.window, d') == 0
  }

  /** A read that finds `arrivals`. */
  lemma ReadOfTwo(c: Config, w: Window, streams: Streams, d: string, d': string, arrivals: seq<Event>)
    requires c.domains == [d, d'] && (Unread(w, streams, d) != [] || Unread(w, streams, d') != [])
    requires Parse(d, Unread(w, streams, d)) + Parse(d', Unread(w, streams, d')) == arrivals
    ensures !NothingUnread(w, streams, c.domains) && Incoming(c, w, Poll(streams, false)) == arrivals
    ensures var read := AfterRead(c.parse, w, streams, c.domains);
      read.buffer == w.buffer + arrivals && read.maxTs == MaxOver(c.parse, w.maxTs, arrivals)
  {
    ArrivalsOfTwo(w, streams, d, d');
    assert c.domains[0] == d && c.domains[1] == d';
  }

  /** A poll after which a watermark lies between two buffered events. */
  lemma ReleaseOne(c: Config, w: Window, a: Event, b: Event)
    requires w.buffer == [a, b] || w.buffer == [b, a]
    requires w.maxTs == Some(c.parse(b.sensorTs)) && c.parse(a.sensorTs) <= c.parse(b.sensorTs) - c.watermarkMs
    requires c.watermarkMs > 0.0
    ensures Release(c, w) == Outcome(w.(buffer := [b]), [a])
  {
    SplitTwo(c.parse, c.parse(b.sensorTs) - c.watermarkMs, a, b);
  }

  lemma FirstRead(c: Config, w: Window, streams: Streams, d: string, d': string, e1: Entry, e2: Entry, v1: Event,
                  v2: Event)
    requires c.domains == [d, d'] && ParseEntry(d, e1) == Some(v1) && ParseEntry(d, e2) == Some(v2)
    requires Unread(w, streams, d) == [e1, e2] && Unread(w, streams, d') == [] && w.buffer == [] && w.maxTs == None
    requires c.parse(v1.sensorTs) <= c.parse(v2.sensorTs)
    ensures !NothingUnread(w, streams, c.domains)
    ensures AfterRead(c.parse, w, streams, c.domains) ==
        Window(w.lastIds[d := e2.id], [v1, v2], Some(c.parse(v2.sensorTs)))
    ensures Incoming(c, w, Poll(streams, false)) == [v1, v2]
  {
    ParseTwo(d, e1, e2);
    ReadOfTwo(c, w, streams, d, d', [v1, v2]);
    AdvanceFirst(w, streams, d, d');
    MaxOfTwo(c.parse, None, v1, v2);
  }

  lemma FirstPoll(c: Config, d: string, d': string, e1: Entry, e2: Entry, v1: Event, v2: Event)
    requires c.domains == [d, d'] && d != d' && 0 < e1.id < e2.id && c.watermarkMs > 0.0
    requires ParseEntry(d, e1) == Some(v1) && ParseEntry(d, e2) == Some(v2)
    requires c.parse(v1.sensorTs) <= c.parse(v2.sensorTs) - c.watermarkMs
    ensures HeldBack(c, Next(c, Start(c), Poll(map[d := [e1, e2]], false)), d, d', e2.id, v1, v2)
  {
    var streams, w := map[d := [e1, e2]], Start(c).window;
    BehindAll([e1, e2], 0);
    FirstRead(c, w, streams, d, d', e1, e2, v1, v2);
    ReleaseOne(c, AfterRead(c.parse, w, streams, c.domains), v1, v2);
  }

  lemma SecondRead(c: Config, w: Window, streams: Streams, d: string, d': string, e3: Entry, v2: Event, v3: Event)
    requires c.domains == [d, d'] && ParseEntry(d', e3) == Some(v3)
    requires Unread(w, streams, d) == [] && Unread(w, streams, d') == [e3]
    requires w.buffer == [v2] && w.maxTs == Some(c.parse(v2.sensorTs)) && c.parse(v3.sensorTs) <= c.parse(v2.sensorTs)
    ensures !NothingUnread(w, streams, c.domains)
    ensures var read := AfterRead(c.parse, w, streams, c.domains); read.buffer == [v2, v3] && read.maxTs == w.maxTs
    ensures Incoming(c, w, Poll(streams, false)) == [v3]
  {
    OnlySecond(d, d', Unread(w, streams, d), Unread(w, streams, d'), e3);
    ReadOfTwo(c, w, streams, d, d', [v3]);
    MaxOfOne(c.parse, w.maxTs, v3);
    assert w.buffer + [v3] == [v2, v3];
  }

  lemma OnlySecond(d: string, d': string, a: seq<Entry>, b: seq<Entry>, e: Entry)
    requires a == [] && b == [e] && ParseEntry(d', e).Some?
    ensures Parse(d, a) + Parse(d', b) == [ParseEntry(d', e).value]
  {
    ParseOne(d', e);
  }

  lemma SecondUnread(w: Window, streams: Streams, d: string, d': string, e1: Entry, e2: Entry, e3: Entry)
    requires d != d' && streams == map[d := [e1, e2], d' := [e3]] && 0 < e1.id < e2.id && 0 < e3.id
    requires Cursor(w, d) == e2.id && Cursor(w, d') == 0
    ensures Unread(w, streams, d) == [] && Unread(w, streams, d') == [e3]
  {
    BehindAll([e1, e2], e2.id);
    BehindAll([e3], 0);
  }

  lemma SecondPoll(c: Config, h: History, d: string, d': string, e1: Entry, e2: Entry, e3: Entry, v1: Event, v2: Event,
                   v3: Event)
    requires c.domains == [d, d'] && d != d' && 0 < e1.id < e2.id && 0 < e3.id && c.watermarkMs > 0.0
    requires HeldBack(c, h, d, d', e2.id, v1, v2) && ParseEntry(d', e3) == Some(v3)
    requires c.parse(v3.sensorTs) <= c.parse(v2.sensorTs) - c.watermarkMs
    ensures var p := Poll(map[d := [e1, e2], d' := [e3]], false);
      Incoming(c, h.window, p) == [v3] && Next(c, h, p).released == [v1, v3]
  {
    var streams, w := map[d := [e1, e2], d' := [e3]], h.window;
    SecondUnread(w, streams, d, d', e1, e2, e3);
    SecondRead(c, w, streams, d, d', e3, v2, v3);
    ReleaseOne(c, AfterRead(c.parse, w, streams, c.domains), v3, v2);
  }

  lemma RunOfTwo(c: Config, p: Poll, q: Poll)
    ensures Run(c, [p]) == Next(c, Start(c), p) && Run(c, [p, q]) == Next(c, Run(c, [p]), q)
    ensures OnTime(c, [p, q]) ==> NotBehind(c.parse, Run(c, [p]).released, Incoming(c, Run(c, [p]).window, q))
  {
    assert [p][..0] == [] && [p, q][..1] == [p];
  }

  /** An entry of a second domain that is older than an event already released is released after it all the same. */
  lemma LateDomain(c: Config, d: string, d': string, e1: Entry, e2: Entry, e3: Entry, v1: Event, v2: Event, v3: Event)
    requires c.domains == [d, d'] && d != d' && 0 < e1.id < e2.id && 0 < e3.id && c.watermarkMs > 0.0
    requires ParseEntry(d, e1) == Some(v1) && ParseEntry(d, e2) == Some(v2) && ParseEntry(d', e3) == Some(v3)
    requires c.parse(v3.sensorTs) < c.parse(v1.sensorTs) <= c.parse(v2.sensorTs) - c.watermarkMs
    ensures var polls := TwoPolls(d, d', e1, e2, e3);
      Run(c, polls).released == [v1, v3] && !Sorted(ByTs(c.parse), [v1, v3]) && !OnTime(c, polls)
  {
    var p, q := Poll(map[d := [e1, e2]], false), Poll(map[d := [e1, e2], d' := [e3]], false);
    FirstPoll(c, d, d', e1, e2, v1, v2);
    SecondPoll(c, Next(c, Start(c), p), d, d', e1, e2, e3, v1, v2, v3);
    BehindReleased(c, p, q, v1, v3);
  }

  lemma BehindReleased(c: Config, p: Poll, q: Poll, v1: Event, v3: Event)
    requires var h := Next(c, Start(c), p);
      h.released == [v1] && Incoming(c, h.window, q) == [v3] && Next(c, h, q).released == [v1, v3]
    requires c.parse(v3.sensorTs) < c.parse(v1.sensorTs)
    ensures Run(c, [p, q]).released == [v1, v3] && !Sorted(ByTs(c.parse), [v1, v3]) && !OnTime(c, [p, q])
  {
    RunOfTwo(c, p, q);
    assert v1 in [v1] && v3 in [v3];
    assert ByTs(c.parse)([v1, v3][0]) > ByTs(c.parse)([v1, v3][1]);
  }

  /** One such run: watermark 500 ms, `ais` at 0.4 s and 1 s, then `adsb` at 0.1 s. */
  lemma LateAdsb(parse: Clock, t1: string, t2: string, t3: string)
    requires t1 == "1970-01-01T00:00:00.400Z" && parse(t1) == 400.0
    requires t2 == "1970-01-01T00:00:01.000Z" && parse(t2) == 1000.0
    requires t3 == "1970-01-01T00:00:00.100Z" && parse(t3) == 100.0
    ensures var c := Config(["ais", "adsb"], 500.0, parse);
      var polls := TwoPolls("ais", "adsb", Entry(1, ["sensor_ts", t1, "payload", "{}"]),
                            Entry(2, ["sensor_ts", t2, "payload", "{}"]), Entry(1, ["sensor_ts", t3, "payload", "{}"]));
      Run(c, polls).released == [Event("ais", t1, "{}"), Event("adsb", t3, "{}")] && !OnTime(c, polls)
  {
    var e1 := Entry(1, ["sensor_ts", t1, "payload", "{}"]);
    var e2 := Entry(2, ["sensor_ts", t2, "payload", "{}"]);
    var e3 := Entry(1, ["sensor_ts", t3, "payload", "{}"]);
    EntryParses("ais", e1, t1, "{}");
    EntryParses("ais", e2, t2, "{}");
    EntryParses("adsb", e3, t3, "{}");
    assert "ais" != "adsb";
    LateDomain(Config(["ais", "adsb"], 500.0, parse), "ais", "adsb", e1, e2, e3,
               Event("ais", t1, "{}"), Event("ais", t2, "{}"), Event("adsb", t3, "{}"));
  }

  lemma EntryParses(d: string, e: Entry, ts: string, payload: string)
    requires e.fields == ["sensor_ts", ts, "payload", payload] && ts != "payload"
    ensures ParseEntry(d, e) == Some(Event(d, ts, payload))
  {
    var name, name' := "sensor_ts", "payload";
    assert |name| != |name'|;
    assert e.fields[1..] == [ts, "payload", payload] && e.fields[1..][1..] == ["payload", payload];
    assert IndexOf(e.fields[1..][1..], "payload") == 0;
    assert IndexOf(e.fields[1..], "payload") == 1;
  }

  // ------------------------------------------------------- watermark and floor

  lemma {:induction false} MaxOverFacts(parse: Clock, m: Option<real>, es: seq<Event>)
    ensures var r := MaxOver(parse, m, es);
      && (m.Some? ==> r.Some? && r.value >= m.value)
      && (es != [] ==> r.Some?)
      && (forall e :: e in es ==> r.Some? && parse(e.sensorTs) <= r.value)
      && (r.Some? ==> r == m || exists e :: e in es && parse(e.sensorTs) == r.value)
  {
    if es != [] {
      var init, last := es[..|es| - 1], es[|es| - 1];
      MaxOverFacts(parse, m, init);
      assert es == init + [last];
      var r := MaxOver(parse, m, es);
      if r == MaxOver(parse, m, init) && r.Some? && r != m {
        var e :| e in init && parse(e.sensorTs) == r.value;
        assert e in es;
      } else if r.Some? && r != m {
        assert last in es;
      }
    }
  }

  /** No poll so far timed out into a flush of a non-empty buffer. */
  ghost predicate NoFlush(c: Config, polls: seq<Poll>) {
    polls != [] ==>
      var w := Run(c, polls[..|polls| - 1]).window;
      NoFlush(c, polls[..|polls| - 1]) &&
        !(polls[|polls| - 1].blocking && NothingUnread(w, polls[|polls| - 1].streams, c.domains))
  }

  /** The kept maximum is the greatest timestamp read. */
  lemma {:induction false} MaxIsGreatest(c: Config, polls: seq<Poll>)
    ensures var h := Run(c, polls);
      && (h.window.maxTs.None? <==> h.read == [])
      && (forall e :: e in h.read ==> h.window.maxTs.Some? && c.parse(e.sensorTs) <= h.window.maxTs.value)
      && (h.window.maxTs.Some? ==> exists e :: e in h.read && c.parse(e.sensorTs) == h.window.maxTs.value)
  {
    if polls != [] {
      var init := Run(c, polls[..|polls| - 1]);
      MaxIsGreatest(c, polls[..|polls| - 1]);
      var p := polls[|polls| - 1];
      if !NothingUnread(init.window, p.streams, c.domains) {
        var arrivals := Arrivals(init.window, p.streams, c.domains);
        MaxOverFacts(c.parse, init.window.maxTs, arrivals);
        var h := Run(c, polls);
        assert h.window.maxTs == MaxOver(c.parse, init.window.maxTs, arrivals);
        assert h.read == init.read + arrivals;
        if h.window.maxTs.Some? {
          if h.window.maxTs == init.window.maxTs {
            var e :| e in init.read && c.parse(e.sensorTs) == h.window.maxTs.value;
            assert e in h.read;
          } else {
            var e :| e in arrivals && c.parse(e.sensorTs) == h.window.maxTs.value;
            assert e in h.read;
          }
        }
      }
    }
  }

  /** Without flushes the buffer is exactly what was read and is newer than the watermark, in read order. */
  lemma {:induction false} BufferIsNewer(c: Config, polls: seq<Poll>)
    requires NoFlush(c, polls)
    ensures BufferNewer(c, Run(c, polls))
  {
    if polls != [] {
      var init := Run(c, polls[..|polls| - 1]);
      BufferIsNewer(c, polls[..|polls| - 1]);
      MaxIsGreatest(c, polls[..|polls| - 1]);
      NextBuffer(c, init, polls[|polls| - 1]);
    }
  }

  ghost predicate BufferNewer(c: Config, h: History) {
    if h.window.maxTs.None? then h.window.buffer == []
    else h.window.buffer == Newer(c.parse, h.window.maxTs.value - c.watermarkMs, h.read)
  }

  lemma NextBuffer(c: Config, h: History, p: Poll)
    requires BufferNewer(c, h) && (h.window.maxTs.None? ==> h.read == [])
    requires !(p.blocking && NothingUnread(h.window, p.streams, c.domains))
    ensures BufferNewer(c, Next(c, h, p))
  {
    if NothingUnread(h.window, p.streams, c.domains) {
      assert h.read + [] == h.read;
    } else {
      var arrivals := Arrivals(h.window, p.streams, c.domains);
      MaxOverFacts(c.parse, h.window.maxTs, arrivals);
      var m := MaxOver(c.parse, h.window.maxTs, arrivals);
      if m.Some? { NextNewer(c, h, arrivals, m.value - c.watermarkMs); }
    }
  }

  lemma NextNewer(c: Config, h: History, arrivals: seq<Event>, mark: real)
    requires BufferNewer(c, h) && (h.window.maxTs.None? ==> h.read == [])
    requires h.window.maxTs.Some? ==> h.window.maxTs.value - c.watermarkMs <= mark
    ensures Newer(c.parse, mark, h.window.buffer + arrivals) == Newer(c.parse, mark, h.read + arrivals)
  {
    var newer := After(c.parse, mark);
    FilterAppend(newer, h.window.buffer, arrivals);
    FilterAppend(newer, h.read, arrivals);
    if h.window.maxTs.Some? { FilterAfter(newer, After(c.parse, h.window.maxTs.value - c.watermarkMs), h.read); }
  }

  /** The floor: the highest watermark of any poll and the highest maximum of any flush so far. */
  ghost function Floor(c: Config, polls: seq<Poll>): Option<real> {
    if polls == [] then None
    else NextFloor(c, Floor(c, polls[..|polls| - 1]), Run(c, polls[..|polls| - 1]).window, polls[|polls| - 1])
  }

  ghost function NextFloor(c: Config, floor: Option<real>, w: Window, p: Poll): Option<real> {
    if NothingUnread(w, p.streams, c.domains) then
      (if p.blocking && w.maxTs.Some? then MaxWith(floor, w.maxTs.value) else floor)
    else FloorAt(c, floor, AfterRead(c.parse, w, p.streams, c.domains).maxTs)
  }

  ghost function FloorAt(c: Config, floor: Option<real>, m: Option<real>): Option<real> {
    if m.None? then floor else MaxWith(floor, m.value - c.watermarkMs)
  }

  ghost predicate AtLeast(floor: Option<real>, parse: Clock, es: seq<Event>) {
    forall e :: e in es ==> floor.None? || parse(e.sensorTs) >= floor.value
  }

  /** Every arrival is at or above the floor in force when it is read. */
  ghost predicate AboveFloor(c: Config, polls: seq<Poll>) {
    polls != [] ==>
      AboveFloor(c, polls[..|polls| - 1]) &&
      AtLeast(Floor(c, polls[..|polls| - 1]), c.parse,
        Incoming(c, Run(c, polls[..|polls| - 1]).window, polls[|polls| - 1]))
  }

  /** Nothing above the floor has been released. */
  lemma {:induction false} ReleasedBelowFloor(c: Config, polls: seq<Poll>)
    ensures forall r :: r in Run(c, polls).released ==>
        Floor(c, polls).Some? && c.parse(r.sensorTs) <= Floor(c, polls).value
  {
    if polls != [] {
      var init, p := polls[..|polls| - 1], polls[|polls| - 1];
      ReleasedBelowFloor(c, init);
      forall r | r in Run(c, polls).released
        ensures Floor(c, polls).Some? && c.parse(r.sensorTs) <= Floor(c, polls).value
      {
        MaxIsGreatest(c, init);
        BufferWasRead(c, init, r);
        ReleasedNow(c, Floor(c, init), Run(c, init).window, p, r);
      }
    }
  }

  lemma ReleasedNow(c: Config, floor: Option<real>, w: Window, p: Poll, r: Event)
    requires r in Sort(ByTs(c.parse), w.buffer) ==> w.maxTs.Some? && c.parse(r.sensorTs) <= w.maxTs.value
    ensures r in Polled(c, w, p.streams, p.blocking).released ==>
      NextFloor(c, floor, w, p).Some? && c.parse(r.sensorTs) <= NextFloor(c, floor, w, p).value
    ensures floor.Some? ==> NextFloor(c, floor, w, p).Some? && floor.value <= NextFloor(c, floor, w, p).value
  {
    if !NothingUnread(w, p.streams, c.domains) {
      ReleasedUnderFloor(c, floor, AfterRead(c.parse, w, p.streams, c.domains), r);
    }
  }

  lemma ReleasedUnderFloor(c: Config, floor: Option<real>, w: Window, r: Event)
    ensures r in Release(c, w).released ==> w.maxTs.Some? && c.parse(r.sensorTs) <= FloorAt(c, floor, w.maxTs).value
    ensures floor.Some? ==> FloorAt(c, floor, w.maxTs).Some? && floor.value <= FloorAt(c, floor, w.maxTs).value
  {
    if w.maxTs.Some? { ReleasedAtMark(c.parse, w.maxTs.value - c.watermarkMs, w.buffer, r); }
  }

  lemma ReleasedAtMark(parse: Clock, mark: real, all: seq<Event>, r: Event)
    ensures r in Sort(ByTs(parse), Ready(parse, mark, all)) ==> parse(r.sensorTs) <= mark
  {
    SplitMember(parse, mark, all, r);
    SortSpec(ByTs(parse), Ready(parse, mark, all));
  }

  lemma BufferWasRead(c: Config, polls: seq<Poll>, r: Event)
    ensures var h := Run(c, polls);
      r in Sort(ByTs(c.parse), h.window.buffer) ==> r in h.read
  {
    var h := Run(c, polls);
    SortSpec(ByTs(c.parse), h.window.buffer);
    RunConserves(c, polls);
    SameMember(ByTs(c.parse), h.released + h.window.buffer, h.read, r);
    assert r in h.window.buffer ==> r in h.released + h.window.buffer;
  }

  /** Feeds that stay above the floor are on time, so their releases are the online stable sort. */
  lemma {:induction false} AboveFloorIsOnTime(c: Config, polls: seq<Poll>)
    requires AboveFloor(c, polls)
    ensures OnTime(c, polls)
  {
    if polls != [] {
      AboveFloorIsOnTime(c, polls[..|polls| - 1]);
      ReleasedBelowFloor(c, polls[..|polls| - 1]);
    }
  }

  // ------------------------------------------------------------------ cursors

  /** Streams only grow at the end, and ids only grow. */
  ghost predicate AppendOnly(polls: seq<Poll>) {
    (forall i, d :: 0 <= i < |polls| ==> Increasing(StreamOf(polls[i].streams, d))) &&
    (forall i, j, d :: 0 <= i <= j < |polls| ==> StreamOf(polls[i].streams, d) <= StreamOf(polls[j].streams, d))
  }

  ghost predicate Increasing(es: seq<Entry>) {
    (forall i :: 0 <= i < |es| ==> es[i].id > 0) && forall i, j :: 0 <= i < j < |es| ==> es[i].id < es[j].id
  }

  function IsFrom(d: string): Event -> bool { (e: Event) => e.domain == d }

  /** The events of one domain, in order. */
  function FromDomain(d: string, es: seq<Event>): seq<Event> { Filter(IsFrom(d), es) }

  lemma {:induction false} ParseDomain(d: string, d': string, es: seq<Entry>)
    ensures FromDomain(d, Parse(d', es)) == if d == d' then Parse(d', es) else []
  {
    if es != [] {
      var init := Parse(d', es[..|es| - 1]);
      ParseDomain(d, d', es[..|es| - 1]);
      var e := ParseEntry(d', es[|es| - 1]);
      if e.Some? { FilterSnoc(IsFrom(d), init, e.value); } else { assert Parse(d', es) == init; }
    }
  }

  lemma {:induction false} ParseAppend(d: string, a: seq<Entry>, b: seq<Entry>)
    ensures Parse(d, a + b) == Parse(d, a) + Parse(d, b)
  {
    if b == [] {
      assert a + b == a;
    } else {
      assert (a + b)[..|a + b| - 1] == a + b[..|b| - 1];
      ParseAppend(d, a, b[..|b| - 1]);
    }
  }

  lemma {:induction false} ArrivalsOfDomain(w: Window, streams: Streams, domains: seq<string>, d: string)
    requires NoRepeats(domains)
    ensures FromDomain(d, Arrivals(w, streams, domains)) == if d in domains then Parse(d, Unread(w, streams, d)) else []
  {
    if domains != [] {
      var init, last := domains[..|domains| - 1], domains[|domains| - 1];
      NoRepeatsInit(domains);
      ArrivalsOfDomain(w, streams, init, d);
      FromDomainAppend(d, last, Arrivals(w, streams, init), Unread(w, streams, last));
    }
  }

  lemma FromDomainAppend(d: string, d': string, before: seq<Event>, es: seq<Entry>)
    ensures FromDomain(d, before + Parse(d', es)) == if d == d' then FromDomain(d, before) + Parse(d', es)
        else FromDomain(d, before)
  {
    FilterAppend(IsFrom(d), before, Parse(d', es));
    ParseDomain(d, d', es);
  }

  lemma NoRepeatsInit(domains: seq<string>)
    requires domains != [] && NoRepeats(domains)
    ensures var init, last := domains[..|domains| - 1], domains[|domains| - 1];
      NoRepeats(init) && last !in init && forall d :: d in domains <==> d == last || d in init
  {
    assert domains == domains[..|domains| - 1] + [domains[|domains| - 1]];
  }

  ghost function LastId(es: seq<Entry>): nat { if es == [] then 0 else es[|es| - 1].id }

  /** Behind the last entry of a prefix lies the rest of the stream. */
  lemma BehindPrefix(es: seq<Entry>, more: seq<Entry>)
    requires Increasing(es + more)
    ensures Behind(es + more, LastId(es)) == more
  {
    var all, cursor := es + more, LastId(es);
    forall e | e in es ensures e.id <= cursor {
      var i :| 0 <= i < |es| && es[i] == e;
      assert all[i] == es[i] && all[|es| - 1] == es[|es| - 1];
    }
    forall e | e in more ensures e.id > cursor {
      var i :| 0 <= i < |more| && more[i] == e;
      assert all[|es| + i] == e && (es != [] ==> all[|es| - 1] == es[|es| - 1]);
    }
    FilterAppend(IdAbove(cursor), es, more);
    FilterAllOrNone(IdAbove(cursor), es);
    FilterAllOrNone(IdAbove(cursor), more);
  }

  lemma {:induction false} AdvanceAt(w: Window, streams: Streams, domains: seq<string>, d: string)
    requires d in domains && NoRepeats(domains)
    requires d in w.lastIds
    ensures var ids := Advance(w, streams, domains);
      var es := Unread(w, streams, d);
      d in ids && ids[d] == if es == [] then w.lastIds[d] else es[|es| - 1].id
  {
    var init, last := domains[..|domains| - 1], domains[|domains| - 1];
    NoRepeatsInit(domains);
    if last == d {
      AdvanceOther(w, streams, init, d);
    } else {
      AdvanceAt(w, streams, init, d);
    }
  }

  /** The streams as the last poll found them. */
  ghost function Seen(polls: seq<Poll>, d: string): seq<Entry> {
    if polls == [] then [] else StreamOf(polls[|polls| - 1].streams, d)
  }

  /**
    Every entry of every stream is consumed exactly once, malformed ones included:
    after any run the cursor stands at the end of each stream, and the events read
    from it are its well-formed entries in stream order.
  */
  lemma {:induction false} CursorsExact(c: Config, polls: seq<Poll>, d: string)
    requires d in c.domains && NoRepeats(c.domains)
    requires AppendOnly(polls)
    ensures var h, es := Run(c, polls), Seen(polls, d);
      && d in h.window.lastIds && h.window.lastIds[d] == LastId(es)
      && FromDomain(d, h.read) == Parse(d, es)
  {
    if polls != [] {
      var init, p := polls[..|polls| - 1], polls[|polls| - 1];
      CursorsExact(c, init, d);
      var h := Run(c, init);
      var es, es' := Seen(init, d), Seen(polls, d);
      SeenGrows(polls, d);
      var more := es'[|es|..];
      assert es' == es + more;
      BehindPrefix(es, more);
      PollReadsAll(c, h, p, d, es, more);
    }
  }

  lemma SeenGrows(polls: seq<Poll>, d: string)
    requires polls != [] && AppendOnly(polls)
    ensures AppendOnly(polls[..|polls| - 1]) && Increasing(Seen(polls, d))
    ensures Seen(polls[..|polls| - 1], d) <= Seen(polls, d)
  {
    assert Increasing(StreamOf(polls[|polls| - 1].streams, d));
    if |polls| > 1 { assert StreamOf(polls[|polls| - 2].streams, d) <= StreamOf(polls[|polls| - 1].streams, d); }
  }

  /** A poll that finds `more` behind the cursor of `d` reads exactly that from it. */
  lemma PollReadsAll(c: Config, h: History, p: Poll, d: string, es: seq<Entry>, more: seq<Entry>)
    requires d in c.domains && NoRepeats(c.domains)
    requires d in h.window.lastIds && h.window.lastIds[d] == LastId(es) && FromDomain(d, h.read) == Parse(d, es)
    requires StreamOf(p.streams, d) == es + more && Behind(es + more, LastId(es)) == more
    ensures var h' := Next(c, h, p);
      d in h'.window.lastIds && h'.window.lastIds[d] == LastId(es + more) &&
        FromDomain(d, h'.read) == Parse(d, es + more)
  {
    assert Unread(h.window, p.streams, d) == more;
    LastIdAppend(es, more);
    ParseAppend(d, es, more);
    if NothingUnread(h.window, p.streams, c.domains) {
      var i :| 0 <= i < |c.domains| && c.domains[i] == d;
      assert Unread(h.window, p.streams, c.domains[i]) == [];
      assert Next(c, h, p).read == h.read && Parse(d, more) == [];
    } else {
      FilterAppend(IsFrom(d), h.read, Arrivals(h.window, p.streams, c.domains));
      ArrivalsOfDomain(h.window, p.streams, c.domains, d);
      AdvanceAt(h.window, p.streams, c.domains, d);
      ReadCursors(c, h.window, p);
    }
  }

  lemma ReadCursors(c: Config, w: Window, p: Poll)
    requires !NothingUnread(w, p.streams, c.domains)
    ensures Polled(c, w, p.streams, p.blocking).window.lastIds == Advance(w, p.streams, c.domains)
  {}

  lemma LastIdAppend(es: seq<Entry>, more: seq<Entry>)
    ensures LastId(es + more) == if more == [] then LastId(es) else more[|more| - 1].id
  {
    assert more == [] ==> es + more == es;
  }
}
