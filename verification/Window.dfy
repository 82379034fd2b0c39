/** Sentinel's per-device sliding windows (apps/agents/sentinel/window.py).

    A ring is bounded by count when an event is added and by age only when it is
    read, so what it holds depends on when it was read before.  The theorems say
    that what a read RETURNS does not: it is a fixed function of the device's whole
    history and the time of the read. */
module Window {
  import opened Wrappers

  /** A raw telemetry dict.  `deviceId` is None when the field is missing or is not
      a string, `timestamp` is None when it does not parse. */
  datatype Event = Event(deviceId: Option<string>, timestamp: Option<real>, metric: string, value: real)

  // ----- the two bounds, as functions -----

  function LastN<T>(s: seq<T>, n: nat): (r: seq<T>)
  {
    if |s| <= n then s else s[|s| - n..]
  }

  predicate Stale(e: Event, cutoff: real) {
    e.timestamp.None? || e.timestamp.value < cutoff
  }

  /** Eviction stops at the first event that is young enough. */
  function DropStale(s: seq<Event>, cutoff: real): (r: seq<Event>)
  {
    if s == [] then [] else if Stale(s[0], cutoff) then DropStale(s[1..], cutoff) else s
  }

  /** The age filter a reader would expect: every event that is young enough. */
  function Fresh(s: seq<Event>, cutoff: real): (r: seq<Event>)
  {
    if s == [] then [] else (if Stale(s[0], cutoff) then [] else [s[0]]) + Fresh(s[1..], cutoff)
  }

  function OfMetric(s: seq<Event>, metric: string): (r: seq<Event>)
  {
    if s == [] then [] else (if s[0].metric == metric then [s[0]] else []) + OfMetric(s[1..], metric)
  }

  /** What a read at `cutoff` must return after the events `history`. */
  function Expected(history: seq<Event>, maxlen: nat, cutoff: real): (r: seq<Event>)
  {
    DropStale(LastN(history, maxlen), cutoff)
  }

  // ----- laziness does not show -----

  /** `buf` is `full` without a prefix that is stale at `cutoff`. */
  ghost predicate Covers(buf: seq<Event>, full: seq<Event>, cutoff: real) {
    && |buf| <= |full|
    && buf == full[|full| - |buf|..]
    && forall i :: 0 <= i < |full| - |buf| ==> Stale(full[i], cutoff)
  }

  lemma {:induction false} DropStaleOfCovering(buf: seq<Event>, full: seq<Event>, cutoff: real)
    requires Covers(buf, full, cutoff)
    ensures DropStale(buf, cutoff) == DropStale(full, cutoff)
    decreases |full|
  {
    if |buf| < |full| {
      assert full[1..][|full| - 1 - |buf|..] == buf;
      forall i | 0 <= i < |full| - 1 - |buf| ensures Stale(full[1..][i], cutoff) {
        assert full[1..][i] == full[i + 1];
      }
      DropStaleOfCovering(buf, full[1..], cutoff);
    } else {
      assert buf == full;
    }
  }

  lemma {:induction false} DropStaleCovers(s: seq<Event>, cutoff: real)
    ensures Covers(DropStale(s, cutoff), s, cutoff)
  {
    if s != [] && Stale(s[0], cutoff) {
      var r := DropStale(s[1..], cutoff);
      DropStaleCovers(s[1..], cutoff);
      forall i | 0 <= i < |s| - |r| ensures Stale(s[i], cutoff) {
        if i > 0 { assert s[i] == s[1..][i - 1]; }
      }
    }
  }

  lemma CoversLater(buf: seq<Event>, full: seq<Event>, cutoff: real, later: real)
    requires Covers(buf, full, cutoff) && cutoff <= later
    ensures Covers(buf, full, later)
  {
  }

  lemma CoversTransitive(a: seq<Event>, b: seq<Event>, c: seq<Event>, cutoff: real)
    requires Covers(a, b, cutoff) && Covers(b, c, cutoff)
    ensures Covers(a, c, cutoff)
  {
    assert a == c[|c| - |a|..];
    forall i | 0 <= i < |c| - |a| ensures Stale(c[i], cutoff) {
      if i >= |c| - |b| { assert c[i] == b[i - (|c| - |b|)]; }
    }
  }

  lemma {:induction false} ReadOfCovering(buf: seq<Event>, full: seq<Event>, cutoff: real, later: real)
    requires Covers(buf, full, cutoff) && cutoff <= later
    ensures DropStale(buf, later) == DropStale(full, later)
  {
    CoversLater(buf, full, cutoff, later);
    DropStaleOfCovering(buf, full, later);
  }

  lemma {:induction false} CoversEvicted(buf: seq<Event>, full: seq<Event>, cutoff: real, later: real)
    requires Covers(buf, full, cutoff) && cutoff <= later
    ensures Covers(DropStale(buf, later), full, later)
  {
    DropStaleCovers(buf, later);
    CoversLater(buf, full, cutoff, later);
    CoversTransitive(DropStale(buf, later), buf, full, later);
  }

  /** Appending to the ring and appending to the history stay in step. */
  lemma CoversPush(buf: seq<Event>, history: seq<Event>, maxlen: nat, e: Event, cutoff: real)
    requires Covers(buf, LastN(history, maxlen), cutoff)
    ensures Covers(LastN(buf + [e], maxlen), LastN(history + [e], maxlen), cutoff)
  {
    var full, buf', full' := LastN(history, maxlen), LastN(buf + [e], maxlen), LastN(history + [e], maxlen);
    assert full' == LastN(full + [e], maxlen);
    assert buf' == full'[|full'| - |buf'|..];
    forall i | 0 <= i < |full'| - |buf'| ensures Stale(full'[i], cutoff) {
      assert full'[i] == full[i + |full| + 1 - |full'|];
    }
  }

  lemma CoversNothing(maxlen: nat, cutoff: real)
    ensures Covers([], LastN([], maxlen), cutoff)
  {
  }

  /** What a read returns ends with the newest event. */
  lemma LastExpected(history: seq<Event>, maxlen: nat, cutoff: real)
    ensures var r := Expected(history, maxlen, cutoff); r != [] ==>
        history != [] && r[|r| - 1] == history[|history| - 1]
  {
    DropStaleCovers(LastN(history, maxlen), cutoff);
  }

  /** What a read must return, place by place: the end of the history from the first event
      that is both among the last `maxlen` and young enough; the events before that place
      are too many or too old, or their timestamp does not parse. */
  lemma ExpectedStartsAt(history: seq<Event>, maxlen: nat, cutoff: real) returns (k: nat)
    ensures k <= |history| && Expected(history, maxlen, cutoff) == history[k..]
    ensures |history| - k <= maxlen
    ensures k < |history| ==> history[k].timestamp.Some? && history[k].timestamp.value >= cutoff
    ensures forall j :: 0 <= j < k && |history| - j <= maxlen ==>
              history[j].timestamp.None? || history[j].timestamp.value < cutoff
  {
    var last := LastN(history, maxlen);
    var r := DropStale(last, cutoff);
    DropStaleCovers(last, cutoff);
    DropStaleStops(last, cutoff);
    k := |history| - |r|;
    var first := |history| - |last|;
    assert forall i :: 0 <= i < |last| ==> last[i] == history[first + i];
    assert r == last[|last| - |r|..] == history[k..];
    forall j | 0 <= j < k && |history| - j <= maxlen
      ensures history[j].timestamp.None? || history[j].timestamp.value < cutoff
    {
      assert Stale(last[j - first], cutoff);
    }
  }

  lemma {:induction false} DropStaleStops(s: seq<Event>, cutoff: real)
    ensures var r := DropStale(s, cutoff); r != [] ==> !Stale(r[0], cutoff)
  {
    if s != [] { DropStaleStops(s[1..], cutoff); }
  }

  /** The events of one metric, in order. */
  lemma {:induction false} OfMetricKeepsOrder(a: seq<Event>, e: Event, metric: string)
    ensures OfMetric(a + [e], metric) == OfMetric(a, metric) + if e.metric == metric then [e] else []
    ensures OfMetric([], metric) == []
  {
    if a != [] {
      OfMetricKeepsOrder(a[1..], e, metric);
      assert (a + [e])[1..] == a[1..] + [e];
    }
  }

  // ----- runs of one ring -----

  datatype Op = Add(event: Event) | Read(now: real)

  /** The events added by a run. */
  function Added(ops: seq<Op>): (h: seq<Event>)
  {
    if ops == [] then []
    else
      var h := Added(ops[..|ops| - 1]);
      match ops[|ops| - 1] { case Add(e) => h + [e] case Read(_) => h }
  }

  /** What the ring holds after a run: adds trim by count, reads evict by age. */
  function Held(ops: seq<Op>, maxlen: nat, maxAge: real): (buf: seq<Event>)
  {
    if ops == [] then []
    else
      var buf := Held(ops[..|ops| - 1], maxlen, maxAge);
      match ops[|ops| - 1] { case Add(e) => LastN(buf + [e], maxlen) case Read(now) => DropStale(buf, now - maxAge) }
  }

  /** Every read of the run happens no later than `now`, and reads are in time order. */
  ghost predicate ClockBefore(ops: seq<Op>, now: real) {
    && (forall i :: 0 <= i < |ops| && ops[i].Read? ==> ops[i].now <= now)
    && (forall i, j :: 0 <= i < j < |ops| && ops[i].Read? && ops[j].Read? ==> ops[i].now <= ops[j].now)
  }

  lemma {:induction false} HeldCovers(ops: seq<Op>, maxlen: nat, maxAge: real, now: real)
    requires ClockBefore(ops, now)
    ensures Covers(Held(ops, maxlen, maxAge), LastN(Added(ops), maxlen), now - maxAge)
  {
    if ops != [] {
      var pre, op := ops[..|ops| - 1], ops[|ops| - 1];
      var t := if op.Read? then op.now else now;
      assert ClockBefore(pre, t);
      HeldCovers(pre, maxlen, maxAge, t);
      match op
      case Add(e) =>
        CoversPush(Held(pre, maxlen, maxAge), Added(pre), maxlen, e, t - maxAge);
      case Read(_) =>
        DropStaleCovers(Held(pre, maxlen, maxAge), t - maxAge);
        CoversTransitive(Held(ops, maxlen, maxAge), Held(pre, maxlen, maxAge), LastN(Added(pre), maxlen), t - maxAge);
        CoversLater(Held(ops, maxlen, maxAge), LastN(Added(ops), maxlen), t - maxAge, now - maxAge);
    }
  }

  /** MAIN: after any interleaving of adds and reads under a clock that does not go
      back, a read returns the last `maxlen` events ever added without their stale
      prefix.  No earlier eviction changes it. */
  lemma {:induction false} ReadIsFunctionOfHistory(ops: seq<Op>, maxlen: nat, maxAge: real, now: real)
    requires ClockBefore(ops, now)
    ensures DropStale(Held(ops, maxlen, maxAge), now - maxAge) == Expected(Added(ops), maxlen, now - maxAge)
  {
    HeldCovers(ops, maxlen, maxAge, now);
    DropStaleOfCovering(Held(ops, maxlen, maxAge), LastN(Added(ops), maxlen), now - maxAge);
  }

  // ----- when the eviction is the age filter -----

  /** Once an event is young enough, all later ones are. */
  ghost predicate StaleFirst(s: seq<Event>, cutoff: real) {
    forall i, j :: 0 <= i < j < |s| && !Stale(s[i], cutoff) ==> !Stale(s[j], cutoff)
  }

  lemma {:induction false} FreshOfAllFresh(s: seq<Event>, cutoff: real)
    ensures (forall i :: 0 <= i < |s| ==> !Stale(s[i], cutoff)) <==> Fresh(s, cutoff) == s
    ensures |Fresh(s, cutoff)| <= |s|
  {
    if s != [] {
      FreshOfAllFresh(s[1..], cutoff);
      if Fresh(s, cutoff) == s {
        assert Fresh(s[1..], cutoff) == s[1..] by {
          assert !Stale(s[0], cutoff);
          assert Fresh(s, cutoff)[1..] == Fresh(s[1..], cutoff);
        }
        forall i | 0 <= i < |s| ensures !Stale(s[i], cutoff) {
          if i > 0 { assert s[i] == s[1..][i - 1]; }
        }
      }
      if forall i :: 0 <= i < |s| ==> !Stale(s[i], cutoff) {
        forall i | 0 <= i < |s[1..]| ensures !Stale(s[1..][i], cutoff) { assert s[1..][i] == s[i + 1]; }
        assert [s[0]] + s[1..] == s;
      }
    }
  }

  /** The eviction equals the age filter exactly when the stale events come first. */
  lemma {:induction false} EvictionIsAgeFilterIff(s: seq<Event>, cutoff: real)
    ensures DropStale(s, cutoff) == Fresh(s, cutoff) <==> StaleFirst(s, cutoff)
  {
    if s != [] {
      if Stale(s[0], cutoff) {
        EvictionIsAgeFilterIff(s[1..], cutoff);
        assert StaleFirst(s, cutoff) <==> StaleFirst(s[1..], cutoff) by {
          assert forall i :: 0 <= i < |s| - 1 ==> s[1..][i] == s[i + 1];
          if StaleFirst(s[1..], cutoff) {
            forall i, j | 0 <= i < j < |s| && !Stale(s[i], cutoff) ensures !Stale(s[j], cutoff) {
              assert s[i] == s[1..][i - 1] && s[j] == s[1..][j - 1];
            }
          }
        }
      } else {
        FreshOfAllFresh(s, cutoff);
      }
    }
  }

  /** A late event behind a young one stays: the run that adds the two and then reads gets
      both, though the second one is too old. */
  lemma LateEventStays(young: Event, late: Event, maxlen: nat, maxAge: real, now: real)
    requires maxlen >= 2 && !Stale(young, now - maxAge) && Stale(late, now - maxAge)
    ensures Expected(Added([Add(young), Add(late)]), maxlen, now - maxAge) == [young, late]
    ensures Fresh(LastN(Added([Add(young), Add(late)]), maxlen), now - maxAge) == [young]
  {
    var ops := [Add(young), Add(late)];
    assert ops[..1] == [Add(young)] && ops[..1][..0] == [];
    assert Added(ops[..1]) == [young];
    assert Added(ops) == [young, late] == LastN(Added(ops), maxlen);
    assert [young, late][1..] == [late] && [late][1..] == [];
    assert Fresh([late], now - maxAge) == [];
  }

  /** Timestamps all parse and do not go back. */
  ghost predicate InOrder(s: seq<Event>) {
    && (forall i :: 0 <= i < |s| ==> s[i].timestamp.Some?)
    && (forall i, j :: 0 <= i < j < |s| ==> s[i].timestamp.value <= s[j].timestamp.value)
  }

  /** With in-order timestamps a read is exactly the age filter of the last `maxlen` events. */
  lemma {:induction false} InOrderReadIsAgeFilter(ops: seq<Op>, maxlen: nat, maxAge: real, now: real)
    requires ClockBefore(ops, now) && InOrder(Added(ops))
    ensures DropStale(Held(ops, maxlen, maxAge), now - maxAge) == Fresh(LastN(Added(ops), maxlen), now - maxAge)
  {
    ReadIsFunctionOfHistory(ops, maxlen, maxAge, now);
    EvictionIsAgeFilterIff(LastN(Added(ops), maxlen), now - maxAge);
  }

  // ----- the two classes -----

  /** `history` is every event ever added; `clock` is the latest time a read happened. */
  class DeviceWindow {
    const deviceId: string
    const maxlen: nat
    const maxAge: real
    var buf: seq<Event>
    ghost var history: seq<Event>
    ghost var clock: real

    ghost predicate Valid()
      reads this
    {
      Covers(buf, LastN(history, maxlen), clock - maxAge)
    }

    constructor (deviceId: string, maxlen: nat, maxAge: real, ghost start: real)
      ensures Valid() && history == [] && clock == start && buf == []
      ensures this.deviceId == deviceId && this.maxlen == maxlen && this.maxAge == maxAge
    {
      this.deviceId, this.maxlen, this.maxAge, buf := deviceId, maxlen, maxAge, [];
      history, clock := [], start;
    }

    method Add(event: Event)
      requires Valid()
      modifies this
      ensures Valid() && history == old(history) + [event] && clock == old(clock)
      ensures buf == LastN(old(buf) + [event], maxlen)
    {
      CoversPush(buf, history, maxlen, event, clock - maxAge);
      buf := buf + [event];
      if |buf| > maxlen { buf := buf[|buf| - maxlen..]; }
      history := history + [event];
    }

    method EvictStale(now: real)
      requires Valid() && clock <= now
      modifies this
      ensures Valid() && history == old(history) && clock == now
      ensures buf == DropStale(old(buf), now - maxAge)
    {
      var cutoff := now - maxAge;
      CoversEvicted(buf, LastN(history, maxlen), clock - maxAge, cutoff);
      clock := now;
      while buf != []
        invariant DropStale(buf, cutoff) == DropStale(old(buf), cutoff)
        invariant history == old(history) && clock == now
        decreases |buf|
      {
        if !Stale(buf[0], cutoff) { break; }
        buf := buf[1..];
      }
    }

    method Recent(now: real) returns (events: seq<Event>)
      requires Valid() && clock <= now
      modifies this
      ensures Valid() && history == old(history) && clock == now && buf == events
      ensures events == DropStale(old(buf), now - maxAge)
      ensures events == Expected(history, maxlen, now - maxAge)
    {
      hide Covers, LastN, DropStale;
      ReadOfCovering(buf, LastN(history, maxlen), clock - maxAge, now - maxAge);
      EvictStale(now);
      events := buf;
    }

    method RecentForMetric(metric: string, now: real) returns (events: seq<Event>)
      requires Valid() && clock <= now
      modifies this
      ensures Valid() && history == old(history) && clock == now
      ensures events == OfMetric(Expected(history, maxlen, now - maxAge), metric)
    {
      var all := Recent(now);
      events := FilterMetric(all, metric);
    }
  }

  method FilterMetric(all: seq<Event>, metric: string) returns (events: seq<Event>)
    ensures events == OfMetric(all, metric)
  {
    events := [];
    for i := 0 to |all|
      invariant events + OfMetric(all[i..], metric) == OfMetric(all, metric)
    {
      if all[i].metric == metric { events := events + [all[i]]; }
    }
  }

  /** The events of one device, in stream order. */
  function Project(stream: seq<Event>, d: string): (r: seq<Event>)
    ensures forall e :: e in r ==> e.deviceId == Some(d)
  {
    if stream == [] then []
    else
      var r := Project(stream[..|stream| - 1], d);
      if stream[|stream| - 1].deviceId == Some(d) then r + [stream[|stream| - 1]] else r
  }

  lemma {:induction false} ProjectAppend(stream: seq<Event>, e: Event, d: string)
    ensures Project(stream + [e], d) == if e.deviceId == Some(d) then Project(stream, d) + [e] else Project(stream, d)
  {
    assert (stream + [e])[..|stream|] == stream;
  }

  /** The rings by device, after one more event. */
  function Pushed(bufs: map<string, seq<Event>>, e: Event, maxlen: nat): (r: map<string, seq<Event>>)
  {
    if e.deviceId.None? then bufs
    else
      var d := e.deviceId.value;
      bufs[d := LastN((if d in bufs then bufs[d] else []) + [e], maxlen)]
  }

  lemma PushedAfterMade(bufs: map<string, seq<Event>>, e: Event, maxlen: nat)
    requires e.deviceId.Some?
    ensures Pushed(if e.deviceId.value in bufs then bufs else bufs[e.deviceId.value := []], e, maxlen)
         == Pushed(bufs, e, maxlen)
  {
  }

  /** The rings by device, after the ring of `d` has been read. */
  function Evicted(bufs: map<string, seq<Event>>, d: string, cutoff: real): (r: map<string, seq<Event>>)
  {
    if d in bufs then bufs[d := DropStale(bufs[d], cutoff)] else bufs
  }

  class WindowStore {
    const maxlen: nat
    const maxAge: real
    var windows: map<string, DeviceWindow>
    ghost var stream: seq<Event>
    ghost var clock: real

    /** One window per device seen, holding that device's share of the global stream. */
    ghost predicate Valid()
      reads this, windows.Values
    {
      && (forall d :: d in windows ==>
            var w := windows[d];
            w.Valid() && w.deviceId == d && w.maxlen == maxlen && w.maxAge == maxAge && w.clock <= clock
            && w.history == Project(stream, d))
      && (forall d :: d !in windows ==> Project(stream, d) == [])
    }

    ghost function Bufs(): map<string, seq<Event>>
      reads this, windows.Values
    {
      map d | d in windows :: windows[d].buf
    }

    constructor (maxlen: nat, maxAge: real, ghost start: real)
      ensures Valid() && stream == [] && clock == start && windows == map[]
      ensures this.maxlen == maxlen && this.maxAge == maxAge
    {
      this.maxlen, this.maxAge, windows := maxlen, maxAge, map[];
      stream, clock := [], start;
    }

    /** The window of `d`, created empty when `d` is new. */
    method WindowOf(d: string) returns (w: DeviceWindow)
      requires Valid()
      modifies this
      ensures Valid() && fresh(windows.Values - old(windows.Values)) && clock == old(clock) && stream == old(stream)
      ensures windows.Keys == old(windows.Keys) + {d} && windows[d] == w
      ensures Bufs() == if d in old(windows) then old(Bufs()) else old(Bufs())[d := []]
    {
      hide DeviceWindow.Valid, LastN, Project;
      if d in windows {
        assert windows.Keys == old(windows.Keys) + {d};
        return windows[d];
      }
      w := new DeviceWindow(d, maxlen, maxAge, clock);
      assert w.buf == [];
      windows := windows[d := w];
      assert windows.Keys == old(windows.Keys) + {d};
      assert Bufs() == old(Bufs())[d := []];
    }

    /** `w.add(event)` for a window of this store. */
    method AddTo(w: DeviceWindow, event: Event)
      requires Valid() && event.deviceId.Some? && event.deviceId.value in windows && windows[event.deviceId.value] == w
      modifies this`stream, w
      ensures Valid() && stream == old(stream) + [event]
      ensures Bufs() == Pushed(old(Bufs()), event, maxlen)
    {
      hide DeviceWindow.Valid, LastN, Project;
      forall d { ProjectAppend(stream, event, d); }
      w.Add(event);
      stream := stream + [event];
      assert forall d :: d in windows && d != w.deviceId ==> windows[d] != w;
      assert Bufs() == old(Bufs())[w.deviceId := w.buf];
    }

    method Ingest(event: Event) returns (id: Option<string>)
      requires Valid()
      modifies this, windows.Values
      ensures Valid() && fresh(windows.Values - old(windows.Values)) && clock == old(clock)
      ensures stream == old(stream) + [event] && id == event.deviceId
      ensures Bufs() == Pushed(old(Bufs()), event, maxlen)
    {
      hide DeviceWindow.Valid, LastN, Project, Pushed;
      id := event.deviceId;
      if id.None? {
        Skip(event);
      } else {
        PushedAfterMade(Bufs(), event, maxlen);
        var w := WindowOf(id.value);
        AddTo(w, event);
      }
    }

    /** An event without a string device id changes no window. */
    ghost method Skip(event: Event)
      requires Valid() && event.deviceId.None?
      modifies this`stream
      ensures Valid() && stream == old(stream) + [event] && Bufs() == Pushed(old(Bufs()), event, maxlen)
    {
      hide DeviceWindow.Valid, LastN;
      forall d { ProjectAppend(stream, event, d); }
      stream := stream + [event];
    }

    /** `get(d)` followed by `recent()`: one bounded, age-evicted view per device
        projection of the global stream. */
    method Recent(d: string, now: real) returns (events: Option<seq<Event>>)
      requires Valid() && clock <= now
      modifies this, windows.Values
      ensures Valid() && windows == old(windows) && stream == old(stream) && clock == now
      ensures events.None? <==> d !in Bufs()
      ensures events.Some? ==> events.value == Expected(Project(stream, d), maxlen, now - maxAge)
      ensures events.None? ==> Project(stream, d) == []
      ensures Bufs() == Evicted(old(Bufs()), d, now - maxAge)
      ensures events.Some? ==> events.value == Bufs()[d]
    {
      hide DeviceWindow.Valid, LastN, Expected, DropStale, Project;
      if d !in windows {
        clock := now;
        return None;
      }
      var es := windows[d].Recent(now);
      clock := now;
      assert Bufs() == old(Bufs())[d := es];
      events := Some(es);
    }
  }
}
