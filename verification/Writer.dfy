/** The telemetry batch writer (apps/ingestion/main.py, `run_writer`).

    The consumer and the ticker share `batch` and `last_flush`, and `_flush` suspends in
    the insert between handing the batch over and emptying it.  The steps are the
    stretches of code between two awaits; `insert_telemetry` copies its rows before it
    suspends and does not raise. */
module Writer {

  datatype Config = Config(flushMax: nat, interval: real)

  /** A consumed event with its place in the order of consumption. */
  datatype Arrival<T> = Arrival(pos: nat, event: T)

  /** `consuming` and `ticking` say whose insert is in flight.  History: `consumed` are
      all events, `quiet` the places of those consumed while no insert was in flight,
      `handed` all rows handed to `insert_telemetry`. */
  datatype State<T> = State(
    batch: seq<Arrival<T>>, lastFlush: real, consuming: bool, ticking: bool,
    consumed: seq<T>, quiet: set<nat>, handed: seq<Arrival<T>>)

  datatype Step<T> = Consume(event: T) | Tick(now: real) | ConsumerDone(now: real) | TickerDone(now: real)

  function Init<T>(now: real): (s: State<T>)
  {
    State([], now, false, false, [], {}, [])
  }

  predicate Enabled<T>(s: State<T>, a: Step<T>) {
    match a
    case Consume(_) => !s.consuming
    case Tick(_) => !s.ticking
    case ConsumerDone(_) => s.consuming
    case TickerDone(_) => s.ticking
  }

  predicate Busy<T>(s: State<T>) { s.consuming || s.ticking }

  /** The tick finds something to flush and enough time passed. */
  predicate Fires<T>(s: State<T>, now: real, cfg: Config) {
    s.batch != [] && now - s.lastFlush >= cfg.interval
  }

  function Next<T>(s: State<T>, a: Step<T>, cfg: Config): (r: State<T>)
    requires Enabled(s, a)
  {
    match a
    case Consume(e) =>
      var pos := |s.consumed|;
      var batch := s.batch + [Arrival(pos, e)];
      var s1 := s.(batch := batch, consumed := s.consumed + [e], quiet := s.quiet + if Busy(s) then {} else {pos});
      if |batch| >= cfg.flushMax then s1.(consuming := true, handed := s.handed + batch) else s1
    case Tick(now) => if Fires(s, now, cfg) then s.(ticking := true, handed := s.handed + s.batch) else s
    case ConsumerDone(now) => s.(batch := [], lastFlush := now, consuming := false)
    case TickerDone(now) => s.(batch := [], lastFlush := now, ticking := false)
  }

  /** The step runs into an insert that is in flight: an event is consumed during the
      ticker's insert, or the ticker flushes during the consumer's. */
  predicate Overlaps<T>(s: State<T>, a: Step<T>, cfg: Config) {
    (a.Consume? && s.ticking) || (a.Tick? && s.consuming && Fires(s, a.now, cfg))
  }

  ghost predicate IsRun<T>(states: seq<State<T>>, steps: seq<Step<T>>, cfg: Config) {
    && |states| == |steps| + 1
    && (exists now :: states[0] == Init<T>(now))
    && forall i :: 0 <= i < |steps| ==> Enabled(states[i], steps[i]) && states[i + 1] == Next(states[i], steps[i], cfg)
  }

  predicate Has<T>(s: seq<Arrival<T>>, pos: nat) {
    exists i :: 0 <= i < |s| && s[i].pos == pos
  }

  lemma HasAppend<T>(s: seq<Arrival<T>>, t: seq<Arrival<T>>, pos: nat)
    ensures Has(s + t, pos) <==> Has(s, pos) || Has(t, pos)
  {
    if i :| 0 <= i < |s| && s[i].pos == pos { assert (s + t)[i].pos == pos; }
    if i :| 0 <= i < |t| && t[i].pos == pos { assert (s + t)[|s| + i].pos == pos; }
  }

  // ----- what is never lost -----

  /** No event consumed while no insert was in flight is missing; during an insert, what
      the batch holds of those has been handed over already. */
  ghost predicate QuietKept<T>(s: State<T>) {
    && (forall p: nat :: p in s.quiet ==> p < |s.consumed| && (Has(s.batch, p) || Has(s.handed, p)))
    && (Busy(s) ==> forall p: nat :: p in s.quiet && Has(s.batch, p) ==> Has(s.handed, p))
    && (forall p: nat :: Has(s.batch, p) ==> p < |s.consumed|)
  }

  lemma QuietStaysKept<T>(s: State<T>, a: Step<T>, cfg: Config)
    requires Enabled(s, a) && QuietKept(s)
    ensures QuietKept(Next(s, a, cfg))
  {
    hide Has;
    match a
    case Consume(e) =>
      var one := [Arrival(|s.consumed|, e)];
      forall p: nat ensures Has(s.batch + one, p) <==> Has(s.batch, p) || p == |s.consumed| {
        HasAppend(s.batch, one, p);
        HasOne(one[0], p);
      }
      forall p: nat { HasAppend(s.handed, s.batch + one, p); }
    case Tick(_) => forall p: nat { HasAppend(s.handed, s.batch, p); }
    case _ => forall p: nat { HasNone<T>(p); }
  }

  lemma HasOne<T>(a: Arrival<T>, p: nat)
    ensures Has([a], p) <==> a.pos == p
  {
    assert [a][0] == a;
  }

  lemma HasNone<T>(p: nat)
    ensures !Has<T>([], p)
  {
  }

  /** MAIN: in every run, an event consumed while no insert was in flight is still in
      the batch or was handed to `insert_telemetry`. */
  lemma {:induction false} QuietEventsSurvive<T>(states: seq<State<T>>, steps: seq<Step<T>>, cfg: Config)
    requires IsRun(states, steps, cfg)
    ensures QuietKept(states[|steps|])
    decreases |steps|
  {
    if steps != [] {
      var n := |steps| - 1;
      assert IsRun(states[..n + 1], steps[..n], cfg);
      QuietEventsSurvive(states[..n + 1], steps[..n], cfg);
      QuietStaysKept(states[n], steps[n], cfg);
    } else {
      forall p: nat { HasNone<T>(p); }
    }
  }

  // ----- exactly once, in order -----

  function Numbered<T>(events: seq<T>): (r: seq<Arrival<T>>)
    ensures |r| == |events| && forall i :: 0 <= i < |r| ==> r[i] == Arrival(i, events[i])
  {
    if events == [] then []
    else Numbered(events[..|events| - 1]) + [Arrival(|events| - 1, events[|events| - 1])]
  }

  lemma {:induction false} NumberedAppend<T>(events: seq<T>, e: T)
    ensures Numbered(events + [e]) == Numbered(events) + [Arrival(|events|, e)]
  {
    assert (events + [e])[..|events|] == events;
  }

  /** All rows handed over, then the pending ones, are the consumed events; during an
      insert the batch repeats the end of what was handed over. */
  ghost predicate ExactlyOnce<T>(s: State<T>) {
    && !(s.consuming && s.ticking)
    && s.handed + (if Busy(s) then [] else s.batch) == Numbered(s.consumed)
    && (Busy(s) ==> s.batch != [] && exists k :: 0 <= k < |s.handed| && s.batch == s.handed[k..])
  }

  lemma ExactlyOnceKept<T>(s: State<T>, a: Step<T>, cfg: Config)
    requires Enabled(s, a) && ExactlyOnce(s) && !Overlaps(s, a, cfg)
    ensures ExactlyOnce(Next(s, a, cfg))
  {
    hide Numbered;
    var s' := Next(s, a, cfg);
    match a
    case Consume(e) =>
      NumberedAppend(s.consumed, e);
      assert s.handed + (s.batch + [Arrival(|s.consumed|, e)]) == (s.handed + s.batch) + [Arrival(|s.consumed|, e)];
      if Busy(s') { assert s'.batch == s'.handed[|s.handed|..]; }
    case Tick(now) =>
      if Fires(s, now, cfg) { assert s'.batch == s'.handed[|s.handed|..]; }
    case _ =>
  }

  /** Evidence that some event was handed over twice, or is gone. */
  ghost predicate Damaged<T>(s: State<T>) {
    || (exists i, j :: 0 <= i < j < |s.handed| && s.handed[i].pos == s.handed[j].pos)
    || (exists p: nat :: p < |s.consumed| && !Has(s.handed, p) && !Has(s.batch, p))
  }

  /** The ticker's insert is in flight and the batch holds, behind rows it handed over,
      an event it did not: that event will be dropped, or those rows repeated. */
  ghost predicate Doomed<T>(s: State<T>) {
    && s.ticking && !s.consuming && s.batch != []
    && Has(s.handed, s.batch[0].pos)
    && exists p: nat :: p < |s.consumed| && Has(s.batch, p) && !Has(s.handed, p)
  }

  ghost predicate InRange<T>(s: State<T>) {
    forall p: nat :: Has(s.batch, p) || Has(s.handed, p) ==> p < |s.consumed|
  }

  lemma InRangeKept<T>(s: State<T>, a: Step<T>, cfg: Config)
    requires Enabled(s, a) && InRange(s)
    ensures InRange(Next(s, a, cfg))
  {
    hide Has;
    match a
    case Consume(e) =>
      var one := [Arrival(|s.consumed|, e)];
      forall p: nat ensures Has(s.batch + one, p) <==> Has(s.batch, p) || p == |s.consumed| {
        HasAppend(s.batch, one, p);
        HasOne(one[0], p);
      }
      forall p: nat { HasAppend(s.handed, s.batch + one, p); }
    case Tick(_) => forall p: nat { HasAppend(s.handed, s.batch, p); }
    case _ => forall p: nat { HasNone<T>(p); }
  }

  lemma HandedAgain<T>(handed: seq<Arrival<T>>, batch: seq<Arrival<T>>)
    requires batch != [] && Has(handed, batch[0].pos)
    ensures var h := handed + batch; exists i, j :: 0 <= i < j < |h| && h[i].pos == h[j].pos
  {
    var h := handed + batch;
    var i :| 0 <= i < |handed| && handed[i].pos == batch[0].pos;
    assert h[i].pos == h[|handed|].pos;
  }

  lemma DamageKept<T>(s: State<T>, a: Step<T>, cfg: Config)
    requires Enabled(s, a) && InRange(s) && Damaged(s)
    ensures Damaged(Next(s, a, cfg))
  {
    var s' := Next(s, a, cfg);
    if i, j :| 0 <= i < j < |s.handed| && s.handed[i].pos == s.handed[j].pos {
      assert s'.handed[i] == s.handed[i] && s'.handed[j] == s.handed[j];
    } else {
      hide Has;
      var p: nat :| p < |s.consumed| && !Has(s.handed, p) && !Has(s.batch, p);
      HasNone<T>(p);
      HasAppend(s.handed, s.batch, p);
      if a.Consume? {
        var one := [Arrival(|s.consumed|, a.event)];
        HasAppend(s.batch, one, p);
        HasOne(one[0], p);
        HasAppend(s.handed, s.batch + one, p);
      }
    }
  }

  /** An overlap from a clean state, and any step after it, leaves a trace. */
  lemma OverlapHurts<T>(s: State<T>, a: Step<T>, cfg: Config)
    requires Enabled(s, a) && InRange(s)
    requires (ExactlyOnce(s) && Overlaps(s, a, cfg)) || Doomed(s)
    ensures Damaged(Next(s, a, cfg)) || Doomed(Next(s, a, cfg))
  {
    var s' := Next(s, a, cfg);
    assert Has(s.handed, s.batch[0].pos) by {
      if ExactlyOnce(s) {
        var k :| 0 <= k < |s.handed| && s.batch == s.handed[k..];
        assert s.batch[0] == s.handed[k];
      }
    }
    match a
    case Consume(e) =>
      var p := |s.consumed|;
      var one := [Arrival(p, e)];
      HasAppend(s.batch, one, p);
      HasOne(one[0], p);
      if |s'.batch| >= cfg.flushMax {
        HandedAgain(s.handed, s'.batch);
      } else {
        assert !Has(s.handed, p);
        assert s'.batch[0] == s.batch[0];
      }
    case Tick(now) => HandedAgain(s.handed, s.batch);
    case TickerDone(_) =>
      var p: nat :| p < |s.consumed| && Has(s.batch, p) && !Has(s.handed, p);
      HasNone<T>(p);
    case ConsumerDone(_) =>
  }

  /** Some step of the run overlapped an insert. */
  ghost predicate HasOverlap<T>(states: seq<State<T>>, steps: seq<Step<T>>, cfg: Config)
    requires |states| == |steps| + 1
  {
    exists i :: 0 <= i < |steps| && Overlaps(states[i], steps[i], cfg)
  }

  lemma {:induction false} RunIsCleanOrHurt<T>(states: seq<State<T>>, steps: seq<Step<T>>, cfg: Config)
    requires IsRun(states, steps, cfg)
    ensures InRange(states[|steps|])
    ensures !HasOverlap(states, steps, cfg) ==> ExactlyOnce(states[|steps|])
    ensures HasOverlap(states, steps, cfg) ==> Damaged(states[|steps|]) || Doomed(states[|steps|])
    decreases |steps|
  {
    if steps != [] {
      var n := |steps| - 1;
      var s, pre, preSteps := states[n], states[..n + 1], steps[..n];
      assert IsRun(pre, preSteps, cfg);
      RunIsCleanOrHurt(pre, preSteps, cfg);
      InRangeKept(s, steps[n], cfg);
      assert HasOverlap(states, steps, cfg) <==> HasOverlap(pre, preSteps, cfg) || Overlaps(s, steps[n], cfg);
      if HasOverlap(pre, preSteps, cfg) {
        if Damaged(s) { DamageKept(s, steps[n], cfg); } else { OverlapHurts(s, steps[n], cfg); }
      } else if Overlaps(s, steps[n], cfg) {
        OverlapHurts(s, steps[n], cfg);
      } else {
        ExactlyOnceKept(s, steps[n], cfg);
      }
    } else {
      forall p: nat { HasNone<T>(p); }
    }
  }

  lemma DamageShows<T>(s: State<T>)
    requires Damaged(s)
    ensures s.handed + s.batch != Numbered(s.consumed)
  {
    var all, numbered := s.handed + s.batch, Numbered(s.consumed);
    if i, j :| 0 <= i < j < |s.handed| && s.handed[i].pos == s.handed[j].pos {
      assert all[i].pos == all[j].pos;
    } else {
      var p: nat :| p < |s.consumed| && !Has(s.handed, p) && !Has(s.batch, p);
      HasAppend(s.handed, s.batch, p);
      assert numbered[p].pos == p;
    }
  }

  /** MAIN: when no insert is in flight, the rows handed over followed by the pending
      batch are exactly the consumed events, in order and once each, if and only if no
      step of the run overlapped an insert. */
  lemma ExactlyOnceIffNoOverlap<T>(states: seq<State<T>>, steps: seq<Step<T>>, cfg: Config)
    requires IsRun(states, steps, cfg) && !Busy(states[|steps|])
    ensures var s := states[|steps|];
            s.handed + s.batch == Numbered(s.consumed) <==> !HasOverlap(states, steps, cfg)
  {
    RunIsCleanOrHurt(states, steps, cfg);
    if HasOverlap(states, steps, cfg) { DamageShows(states[|steps|]); }
  }

  /** Overlaps do happen, and lose events: one consumed during the ticker's insert is
      cleared away with the batch, without ever having been handed over. */
  lemma OverlapLosesAnEvent<T>(first: T, second: T, start: real, cfg: Config) returns (states: seq<State<T>>,
                               steps: seq<Step<T>>)
    requires cfg.flushMax > 2
    ensures IsRun(states, steps, cfg) && !Busy(states[|steps|]) && HasOverlap(states, steps, cfg)
    ensures var s := states[|steps|]; s.consumed == [first, second] && !Has(s.handed + s.batch, 1)
  {
    var later := start + cfg.interval;
    var s1 := Next(Init(start), Consume(first), cfg);
    var s2 := Next(s1, Tick(later), cfg);
    var s3 := Next(s2, Consume(second), cfg);
    var s4 := Next(s3, TickerDone(later), cfg);
    states, steps := [Init(start), s1, s2, s3, s4], [Consume(first), Tick(later), Consume(second), TickerDone(later)];
    assert s1.batch == [Arrival(0, first)] && s3.batch == [Arrival(0, first), Arrival(1, second)];
    assert Overlaps(states[2], steps[2], cfg);
    assert s4.handed + s4.batch == [Arrival(0, first)];
  }

  /** The other overlap hands an event over twice: the ticker flushes during the insert of a
      consumer that flushes each event. */
  lemma OverlapRepeatsAnEvent<T>(event: T, start: real, cfg: Config) returns (states: seq<State<T>>,
                                 steps: seq<Step<T>>)
    requires cfg.flushMax <= 1
    ensures IsRun(states, steps, cfg) && !Busy(states[|steps|]) && HasOverlap(states, steps, cfg)
    ensures states[|steps|].handed == [Arrival(0, event), Arrival(0, event)]
  {
    var later := start + cfg.interval;
    var s1 := Next(Init(start), Consume(event), cfg);
    var s2 := Next(s1, Tick(later), cfg);
    var s3 := Next(s2, ConsumerDone(later), cfg);
    var s4 := Next(s3, TickerDone(later), cfg);
    states, steps := [Init(start), s1, s2, s3, s4],
        [Consume(event), Tick(later), ConsumerDone(later), TickerDone(later)];
    assert s1.batch == [Arrival(0, event)] && s1.handed == [Arrival(0, event)];
    assert Overlaps(states[1], steps[1], cfg);
  }

  // ----- when a batch is handed over -----

  /** When the latest insert completed, or the writer started. */
  function LastDone<T>(steps: seq<Step<T>>, start: real): (at: real)
  {
    if steps == [] then start
    else
      match steps[|steps| - 1]
      case ConsumerDone(now) => now
      case TickerDone(now) => now
      case _ => LastDone(steps[..|steps| - 1], start)
  }

  lemma {:induction false} LastFlushIsLastDone<T>(states: seq<State<T>>, steps: seq<Step<T>>, cfg: Config)
    requires IsRun(states, steps, cfg)
    ensures states[|steps|].lastFlush == LastDone(steps, states[0].lastFlush)
    decreases |steps|
  {
    if steps != [] {
      var n := |steps| - 1;
      assert IsRun(states[..n + 1], steps[..n], cfg);
      LastFlushIsLastDone(states[..n + 1], steps[..n], cfg);
    }
  }

  /** MAIN: in every run, a tick hands over the whole pending batch exactly when one
      interval or more has passed since the latest insert completed, and then an insert is
      in flight if there was anything to hand over; an earlier tick does nothing. */
  lemma TickHandsOverIff<T>(states: seq<State<T>>, steps: seq<Step<T>>, i: nat, now: real, cfg: Config)
    requires IsRun(states, steps, cfg) && i < |steps| && steps[i] == Tick(now)
    ensures var s, s' := states[i], states[i + 1];
            if now - LastDone(steps[..i], states[0].lastFlush) >= cfg.interval
            then s'.handed == s.handed + s.batch && s'.batch == s.batch && (s'.ticking <==> s.batch != [])
            else s' == s
  {
    assert IsRun(states[..i + 1], steps[..i], cfg);
    LastFlushIsLastDone(states[..i + 1], steps[..i], cfg);
    assert states[i].handed + [] == states[i].handed;
  }

  /** MAIN: so after a due tick in a run without overlaps, with no insert in flight before,
      every event that was ever consumed has been handed over, in order. */
  lemma DueTickLeavesNothing<T>(states: seq<State<T>>, steps: seq<Step<T>>, i: nat, now: real, cfg: Config)
    requires IsRun(states, steps, cfg) && !HasOverlap(states, steps, cfg)
    requires i < |steps| && steps[i] == Tick(now) && !Busy(states[i])
    requires now - LastDone(steps[..i], states[0].lastFlush) >= cfg.interval
    ensures states[i + 1].handed == Numbered(states[i].consumed)
  {
    TickHandsOverIff(states, steps, i, now, cfg);
    var pre, preSteps := states[..i + 1], steps[..i];
    assert IsRun(pre, preSteps, cfg);
    assert forall j :: 0 <= j < i ==> pre[j] == states[j] && preSteps[j] == steps[j];
    ExactlyOnceIffNoOverlap(pre, preSteps, cfg);
  }

  /** MAIN: a consumed event joins the pending batch, which is handed over in full exactly
      when it has reached the flush size. */
  lemma ConsumeHandsOverIff<T>(states: seq<State<T>>, steps: seq<Step<T>>, i: nat, e: T, cfg: Config)
    requires IsRun(states, steps, cfg) && i < |steps| && steps[i] == Consume(e)
    ensures var s, s' := states[i], states[i + 1];
            && s'.consumed == s.consumed + [e] && s'.batch == s.batch + [Arrival(|s.consumed|, e)]
            && s'.handed == s.handed + (if |s.batch| + 1 >= cfg.flushMax then s'.batch else [])
            && (s'.consuming <==> |s.batch| + 1 >= cfg.flushMax)
            && (s'.quiet == if s.consuming || s.ticking then s.quiet else s.quiet + {|s.consumed|})
  {
    assert states[i].handed + [] == states[i].handed;
    assert states[i].quiet + {} == states[i].quiet;
  }

  /** A completed insert hands over nothing and clears what is pending. */
  lemma DoneClears<T>(states: seq<State<T>>, steps: seq<Step<T>>, i: nat, cfg: Config)
    requires IsRun(states, steps, cfg) && i < |steps| && (steps[i].ConsumerDone? || steps[i].TickerDone?)
    ensures var s, s' := states[i], states[i + 1];
            && s'.batch == [] && s'.handed == s.handed && s'.consumed == s.consumed
            && (if steps[i].ConsumerDone? then !s'.consuming && s'.ticking == s.ticking
                else !s'.ticking && s'.consuming == s.consuming)
  {
  }

  // ----- the shared variables of run_writer -----

  class BatchWriter<T> {
    const cfg: Config
    var batch: seq<Arrival<T>>
    var lastFlush: real
    ghost var consuming: bool
    ghost var ticking: bool
    ghost var consumed: seq<T>
    ghost var quiet: set<nat>
    ghost var handed: seq<Arrival<T>>

    ghost function Abs(): State<T>
      reads this
    {
      State(batch, lastFlush, consuming, ticking, consumed, quiet, handed)
    }

    constructor (cfg: Config, now: real)
      ensures Abs() == Init(now) && this.cfg == cfg
    {
      this.cfg, batch, lastFlush := cfg, [], now;
      consuming, ticking, consumed, quiet, handed := false, false, [], {}, [];
    }

    /** The body of `_consume` up to the insert; `rows` are what it hands over.  `pos` is
        the number of events consumed before. */
    method ConsumeEvent(event: T, pos: nat) returns (rows: seq<Arrival<T>>)
      requires Enabled(Abs(), Consume(event)) && pos == |consumed|
      modifies this
      ensures Abs() == Next(old(Abs()), Consume(event), cfg)
      ensures handed == old(handed) + rows
      ensures batch == old(batch) + [Arrival(pos, event)]
      ensures rows == if |batch| >= cfg.flushMax then batch else []
    {
      rows := [];
      quiet := quiet + if Busy(Abs()) then {} else {pos};
      batch, consumed := batch + [Arrival(pos, event)], consumed + [event];
      if |batch| >= cfg.flushMax {
        rows, consuming, handed := batch, true, handed + batch;
      }
    }

    /** One turn of `_ticker` up to the insert. */
    method TickOnce(now: real) returns (rows: seq<Arrival<T>>)
      requires Enabled(Abs(), Tick(now))
      modifies this
      ensures Abs() == Next(old(Abs()), Tick(now), cfg)
      ensures handed == old(handed) + rows
      ensures rows == if now - old(lastFlush) >= cfg.interval then old(batch) else []
    {
      rows := [];
      var elapsed := now - lastFlush;
      if batch != [] && elapsed >= cfg.interval {
        rows, ticking, handed := batch, true, handed + batch;
      }
    }

    /** `_flush` after its insert has returned, in the consumer or in the ticker. */
    method FinishFlush(now: real, ghost inTicker: bool)
      requires Enabled(Abs(), if inTicker then TickerDone(now) else ConsumerDone(now))
      modifies this
      ensures Abs() == Next(old(Abs()), if inTicker then TickerDone(now) else ConsumerDone(now), cfg)
    {
      batch, lastFlush := [], now;
      if inTicker { ticking := false; } else { consuming := false; }
    }
  }
}
