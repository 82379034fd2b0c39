/** The Sentinel agent (apps/agents/sentinel/main.py): the dirty-set hand-off between
    the bus loop and the inference loop, and the publish dedupe map.

    Both loops run in one asyncio thread, so `handle` can only run while the
    inference loop is suspended: in its sleep, or in the await of a publish. */
module Sentinel {
  import opened Wrappers
  import opened Window

  datatype Config = Config(maxlen: nat, maxAge: real, dedupeWindow: real)

  /** Where the inference loop is.  `todo` is the part of the batch in hand that has
      not been visited; a publishing device has already left it. */
  datatype Phase =
    | Asleep
    | Scoring(todo: set<string>)
    | Publishing(device: string, kind: string, todo: set<string>)

  /** A `PredictedFailure` handed to the bus. */
  datatype Publication = Publication(device: string, kind: string, at: real)

  /** `stream`, `visited`, `dropped` and `published` are history: every event handled,
      how many events of a device existed when it was last visited, devices of batches
      that were abandoned by an exception, and everything published. */
  datatype State = State(
    bufs: map<string, seq<Event>>,
    dirty: set<string>,
    phase: Phase,
    recentPublishes: map<(string, string), real>,
    wall: real,
    mono: real,
    stream: seq<Event>,
    visited: map<string, nat>,
    dropped: set<string>,
    published: seq<Publication>)

  /** `Visit` carries what the model cannot compute: the wall and monotonic clocks and
      the failure kind `_decide` settled on, if any. */
  datatype Step =
    | Handle(event: Event)
    | Wake
    | Visit(device: string, wall: real, at: real, verdict: Option<string>)
    | Ack(at: real)
    | EndBatch
    | Raise

  function Init(start: real, mono: real): (s: State)
  {
    State(map[], {}, Asleep, map[], start, mono, [], map[], {}, [])
  }

  function Todo(p: Phase): (r: set<string>)
  {
    match p
    case Asleep => {}
    case Scoring(todo) => todo
    case Publishing(_, _, todo) => todo
  }

  predicate Enabled(s: State, a: Step) {
    match a
    case Handle(_) => !s.phase.Scoring?
    case Wake => s.phase.Asleep?
    case Visit(d, wall, at, _) => s.phase.Scoring? && d in s.phase.todo && s.wall <= wall && s.mono <= at
    case Ack(at) => s.phase.Publishing? && s.mono <= at
    case EndBatch => s.phase.Scoring? && s.phase.todo == {}
    case Raise => s.phase.Scoring?
  }

  predicate IsDuplicate(recent: map<(string, string), real>, device: string, kind: string, now: real, window: real) {
    (device, kind) in recent && now - recent[(device, kind)] < window
  }

  /** The id `_publish` puts on the event: that of the last event in the window. */
  function PublishedId(events: seq<Event>): (id: string)
    requires events != []
  {
    var last := events[|events| - 1];
    if last.deviceId.Some? then last.deviceId.value else "unknown"
  }

  /** Taking `d` out of the batch and reading its window. */
  function Touched(s: State, d: string, wall: real, at: real, cfg: Config): (r: State)
    requires s.phase.Scoring?
  {
    s.(phase := Scoring(s.phase.todo - {d}), bufs := Evicted(s.bufs, d, wall - cfg.maxAge), wall := wall, mono := at,
       visited := s.visited[d := |Project(s.stream, d)|])
  }

  /** One turn of the loop of `_infer_batch`, up to the await of the publish. */
  function VisitStep(s: State, d: string, wall: real, at: real, verdict: Option<string>, cfg: Config): (r: State)
    requires s.phase.Scoring?
  {
    var s1 := Touched(s, d, wall, at, cfg);
    if d !in s.bufs || s1.bufs[d] == [] || verdict.None?
       || IsDuplicate(s.recentPublishes, d, verdict.value, at, cfg.dedupeWindow) then s1
    else
      s1.(phase := Publishing(d, verdict.value, s1.phase.todo),
          published := s.published + [Publication(PublishedId(s1.bufs[d]), verdict.value, at)])
  }

  function Next(s: State, a: Step, cfg: Config): (r: State)
    requires Enabled(s, a)
  {
    match a
    case Handle(e) =>
      s.(bufs := Pushed(s.bufs, e, cfg.maxlen), stream := s.stream + [e],
         dirty := s.dirty + if e.deviceId.Some? then {e.deviceId.value} else {})
    case Wake => if s.dirty == {} then s else s.(phase := Scoring(s.dirty), dirty := {})
    case Visit(d, wall, at, verdict) => VisitStep(s, d, wall, at, verdict, cfg)
    case Ack(at) =>
      s.(phase := Scoring(s.phase.todo), mono := at,
         recentPublishes := s.recentPublishes[(s.phase.device, s.phase.kind) := at])
    case EndBatch => s.(phase := Asleep)
    case Raise => s.(phase := Asleep, dropped := s.dropped + s.phase.todo)
  }

  ghost predicate IsRun(states: seq<State>, steps: seq<Step>, cfg: Config) {
    && |states| == |steps| + 1
    && (exists start, mono :: states[0] == Init(start, mono))
    && forall i :: 0 <= i < |steps| ==> Enabled(states[i], steps[i]) && states[i + 1] == Next(states[i], steps[i], cfg)
  }

  // ----- nothing new is forgotten -----

  function Visited(s: State, d: string): (n: nat)
  {
    if d in s.visited then s.visited[d] else 0
  }

  /** A device with an event newer than its last visit is queued, in hand, or was in a
      batch an exception threw away. */
  ghost predicate NewsIsQueued(s: State) {
    forall d :: |Project(s.stream, d)| > Visited(s, d) ==> d in s.dirty + Todo(s.phase) + s.dropped
  }

  lemma NewsStaysQueued(s: State, a: Step, cfg: Config)
    requires Enabled(s, a) && NewsIsQueued(s)
    ensures NewsIsQueued(Next(s, a, cfg))
  {
    hide Project;
    var s' := Next(s, a, cfg);
    forall d | |Project(s'.stream, d)| > Visited(s', d) ensures d in s'.dirty + Todo(s'.phase) + s'.dropped {
      if a.Handle? { ProjectAppend(s.stream, a.event, d); }
    }
  }

  // ----- the rings match the stream, so the published id is the window's own -----

  ghost predicate RingsMatch(s: State, cfg: Config) {
    && (forall d :: d in s.bufs ==> Covers(s.bufs[d], LastN(Project(s.stream, d), cfg.maxlen), s.wall - cfg.maxAge))
    && (forall d :: d !in s.bufs ==> Project(s.stream, d) == [])
  }

  lemma RingsStayMatched(s: State, a: Step, cfg: Config)
    requires Enabled(s, a) && RingsMatch(s, cfg)
    ensures RingsMatch(Next(s, a, cfg), cfg)
  {
    hide Covers, Project, LastN;
    var s' := Next(s, a, cfg);
    match a
    case Handle(e) => RingsMatchPushed(s, e, cfg);
    case Visit(v, wall, _, _) =>
      forall d | d in s'.bufs
        ensures Covers(s'.bufs[d], LastN(Project(s'.stream, d), cfg.maxlen), wall - cfg.maxAge)
      {
        var full := LastN(Project(s.stream, d), cfg.maxlen);
        CoversLater(s.bufs[d], full, s.wall - cfg.maxAge, wall - cfg.maxAge);
        CoversEvicted(s.bufs[d], full, s.wall - cfg.maxAge, wall - cfg.maxAge);
      }
    case _ =>
  }

  lemma RingsMatchPushed(s: State, e: Event, cfg: Config)
    requires RingsMatch(s, cfg)
    ensures RingsMatch(s.(bufs := Pushed(s.bufs, e, cfg.maxlen), stream := s.stream + [e]), cfg)
  {
    hide Project, Covers, LastN;
    var s' := s.(bufs := Pushed(s.bufs, e, cfg.maxlen), stream := s.stream + [e]);
    forall d | d in s'.bufs
      ensures Covers(s'.bufs[d], LastN(Project(s'.stream, d), cfg.maxlen), s.wall - cfg.maxAge)
    {
      ProjectAppend(s.stream, e, d);
      if e.deviceId == Some(d) {
        if d !in s.bufs { CoversNothing(cfg.maxlen, s.wall - cfg.maxAge); }
        var ring := if d in s.bufs then s.bufs[d] else [];
        CoversPush(ring, Project(s.stream, d), cfg.maxlen, e, s.wall - cfg.maxAge);
      }
    }
    forall d | d !in s'.bufs ensures Project(s'.stream, d) == [] { ProjectAppend(s.stream, e, d); }
  }

  /** MAIN: a visited device is scored on exactly its last `maxlen` events without the
      stale prefix, and the id `_publish` reads off the last of them is that device's. */
  lemma {:induction false} ScoredOnExpectedEvents(s: State, d: string, wall: real, cfg: Config)
    requires RingsMatch(s, cfg) && s.wall <= wall && d in s.bufs
    ensures Evicted(s.bufs, d, wall - cfg.maxAge)[d] == Expected(Project(s.stream, d), cfg.maxlen, wall - cfg.maxAge)
    ensures var events := Evicted(s.bufs, d, wall - cfg.maxAge)[d]; events != [] ==> PublishedId(events) == d
  {
    var history, cutoff := Project(s.stream, d), wall - cfg.maxAge;
    hide Project, Covers, LastN, DropStale;
    ReadOfCovering(s.bufs[d], LastN(history, cfg.maxlen), s.wall - cfg.maxAge, cutoff);
    assert forall e :: e in history ==> e.deviceId == Some(d);
    hide RingsMatch;
    LastExpected(history, cfg.maxlen, cutoff);
  }

  // ----- publications of one (device, kind) are spaced -----

  /** Every publication was made under its window's key, no later than the stamp of
      that key, except the one whose await is still pending. */
  ghost predicate Stamped(s: State) {
    forall i :: 0 <= i < |s.published| ==>
      var p := s.published[i];
      && p.at <= s.mono
      && (|| ((p.device, p.kind) in s.recentPublishes && p.at <= s.recentPublishes[(p.device, p.kind)])
          || (i == |s.published| - 1 && s.phase.Publishing? && s.phase.device == p.device && s.phase.kind == p.kind))
  }

  ghost predicate Spaced(s: State, cfg: Config) {
    forall i, j :: 0 <= i < j < |s.published|
        && s.published[i].device == s.published[j].device && s.published[i].kind == s.published[j].kind
      ==> s.published[j].at - s.published[i].at >= cfg.dedupeWindow
  }

  lemma PublicationsStaySpaced(s: State, a: Step, cfg: Config)
    requires Enabled(s, a) && RingsMatch(s, cfg) && Stamped(s) && Spaced(s, cfg)
    ensures Stamped(Next(s, a, cfg)) && Spaced(Next(s, a, cfg), cfg)
  {
    hide RingsMatch, Project;
    var s' := Next(s, a, cfg);
    match a
    case Visit(d, wall, at, verdict) =>
      if s'.phase.Publishing? { ScoredOnExpectedEvents(s, d, wall, cfg); }
    case _ =>
  }

  // ----- runs -----

  ghost predicate Safe(s: State, cfg: Config) {
    NewsIsQueued(s) && RingsMatch(s, cfg) && Stamped(s) && Spaced(s, cfg)
  }

  /** MAIN: over every run, news is never forgotten (unless an exception dropped a
      batch), and two publications of the same device and kind are at least the dedupe
      window apart. */
  lemma {:induction false} EveryRunIsSafe(states: seq<State>, steps: seq<Step>, cfg: Config)
    requires IsRun(states, steps, cfg)
    ensures Safe(states[|steps|], cfg)
    decreases |steps|
  {
    if steps != [] {
      var n := |steps| - 1;
      assert IsRun(states[..n + 1], steps[..n], cfg);
      EveryRunIsSafe(states[..n + 1], steps[..n], cfg);
      NewsStaysQueued(states[n], steps[n], cfg);
      RingsStayMatched(states[n], steps[n], cfg);
      PublicationsStaySpaced(states[n], steps[n], cfg);
    }
  }

  /** Without an exception mid-batch there is no third place to look. */
  lemma {:induction false} NothingDroppedWithoutRaise(states: seq<State>, steps: seq<Step>, cfg: Config)
    requires IsRun(states, steps, cfg)
    requires forall i :: 0 <= i < |steps| ==> steps[i] != Raise
    ensures states[|steps|].dropped == {}
    ensures forall d :: |Project(states[|steps|].stream, d)| > Visited(states[|steps|], d)
              ==> d in states[|steps|].dirty + Todo(states[|steps|].phase)
    decreases |steps|
  {
    EveryRunIsSafe(states, steps, cfg);
    if steps != [] {
      var n := |steps| - 1;
      assert IsRun(states[..n + 1], steps[..n], cfg);
      NothingDroppedWithoutRaise(states[..n + 1], steps[..n], cfg);
    }
  }

  // ----- what a run publishes and scores, read off its steps -----

  /** Step `j` of the run marks (device, kind) as published at `at`. */
  ghost predicate AckedAt(states: seq<State>, steps: seq<Step>, j: int, device: string, kind: string, at: real)
    requires |states| == |steps| + 1
  {
    && 0 <= j < |steps| && steps[j] == Ack(at)
    && states[j].phase.Publishing? && states[j].phase.device == device && states[j].phase.kind == kind
  }

  /** The stamps are the latest marks. */
  ghost predicate StampsAreMarks(states: seq<State>, steps: seq<Step>)
    requires |states| == |steps| + 1
  {
    var s := states[|steps|];
    && (forall d, k :: (d, k) in s.recentPublishes ==>
          s.recentPublishes[(d, k)] <= s.mono
          && exists j :: AckedAt(states, steps, j, d, k, s.recentPublishes[(d, k)]))
    && (forall j, d, k, at :: AckedAt(states, steps, j, d, k, at) ==>
          (d, k) in s.recentPublishes && at <= s.recentPublishes[(d, k)])
  }

  lemma MarksOfPrefix(states: seq<State>, steps: seq<Step>)
    requires |states| == |steps| + 1 && steps != []
    ensures var n := |steps| - 1;
            forall j, d, k, at :: AckedAt(states, steps, j, d, k, at) <==>
              || AckedAt(states[..n + 1], steps[..n], j, d, k, at)
              || (j == n && steps[n] == Ack(at)
                  && states[n].phase.Publishing? && states[n].phase.device == d && states[n].phase.kind == k)
  {
  }

  lemma {:induction false} StampsStayMarks(states: seq<State>, steps: seq<Step>, cfg: Config)
    requires IsRun(states, steps, cfg)
    ensures StampsAreMarks(states, steps)
    decreases |steps|
  {
    if steps != [] {
      hide VisitStep, Pushed, AckedAt;
      var n := |steps| - 1;
      var s, s', pre, preSteps := states[n], states[n + 1], states[..n + 1], steps[..n];
      assert IsRun(pre, preSteps, cfg);
      StampsStayMarks(pre, preSteps, cfg);
      VisitKeepsStamps(s, steps[n], cfg);
      MarksOfPrefix(states, steps);
      hide IsRun;
      forall d, k | (d, k) in s'.recentPublishes
        ensures s'.recentPublishes[(d, k)] <= s'.mono
        ensures exists j :: AckedAt(states, steps, j, d, k, s'.recentPublishes[(d, k)])
      {
        if steps[n].Ack? && s.phase.device == d && s.phase.kind == k {
          assert AckedAt(states, steps, n, d, k, steps[n].at);
        } else {
          var j :| AckedAt(pre, preSteps, j, d, k, s.recentPublishes[(d, k)]);
          assert AckedAt(states, steps, j, d, k, s.recentPublishes[(d, k)]);
        }
      }
    }
  }

  lemma VisitKeepsStamps(s: State, a: Step, cfg: Config)
    requires Enabled(s, a)
    ensures a.Visit? ==>
              var s' := Next(s, a, cfg);
              && s'.recentPublishes == s.recentPublishes && s'.mono == a.at
              && s'.dirty == s.dirty && Todo(s'.phase) == Todo(s.phase) - {a.device}
  {
  }

  /** One visit, when the rings match the stream. */
  lemma {:induction false} VisitMeans(s: State, d: string, wall: real, at: real, verdict: Option<string>, cfg: Config)
    requires Enabled(s, Visit(d, wall, at, verdict)) && RingsMatch(s, cfg)
    ensures
      (var s' := Next(s, Visit(d, wall, at, verdict), cfg);
       var publishes := Expected(Project(s.stream, d), cfg.maxlen, wall - cfg.maxAge) != [] && verdict.Some?
                        && !IsDuplicate(s.recentPublishes, d, verdict.value, at, cfg.dedupeWindow);
       && s'.published == s.published + (if publishes then [Publication(d, verdict.value, at)] else [])
       && s'.phase == if publishes then Publishing(d, verdict.value,
           s.phase.todo - {d}) else Scoring(s.phase.todo - {d}))
  {
    hide IsDuplicate, Expected, Project, Evicted, RingsMatch;
    if d in s.bufs { ScoredOnExpectedEvents(s, d, wall, cfg); } else { NothingExpected(s, d, wall, cfg); }
    assert s.published + [] == s.published;
  }

  /** MAIN: in every run, a visit publishes exactly when the device's expected read is not
      empty, there is a verdict, and no publication of that device and kind was marked less
      than the dedupe window ago; it then publishes that device and kind at that time. */
  lemma {:induction false} VisitPublishesIff(states: seq<State>, steps: seq<Step>, i: nat, d: string, wall: real,
                                             at: real,
                                             verdict: Option<string>, cfg: Config)
    requires IsRun(states, steps, cfg) && i < |steps| && steps[i] == Visit(d, wall, at, verdict)
    ensures
      (var s, s' := states[i], states[i + 1];
       var publishes := Expected(Project(s.stream, d), cfg.maxlen, wall - cfg.maxAge) != [] && verdict.Some?
                        && !exists j, t ::
                            j < i && AckedAt(states, steps, j, d, verdict.value, t) && at - t < cfg.dedupeWindow;
       && s'.published == s.published + (if publishes then [Publication(d, verdict.value, at)] else [])
       && s'.phase == if publishes then Publishing(d, verdict.value,
           s.phase.todo - {d}) else Scoring(s.phase.todo - {d}))
  {
    hide IsDuplicate, Expected, Project, StampsAreMarks, RingsMatch, Next;
    var s, pre, preSteps := states[i], states[..i + 1], steps[..i];
    assert IsRun(pre, preSteps, cfg);
    EveryRunIsSafe(pre, preSteps, cfg);
    StampsStayMarks(pre, preSteps, cfg);
    VisitMeans(s, d, wall, at, verdict, cfg);
    if verdict.Some? {
      DuplicateIff(pre, preSteps, d, verdict.value, at, cfg);
      assert forall j, t :: AckedAt(pre, preSteps, j, d, verdict.value, t) <==>
          AckedAt(states, steps, j, d, verdict.value, t) && j < i;
    }
  }

  lemma {:induction false} NothingExpected(s: State, d: string, wall: real, cfg: Config)
    requires RingsMatch(s, cfg) && d !in s.bufs
    ensures Expected(Project(s.stream, d), cfg.maxlen, wall - cfg.maxAge) == []
  {
  }

  lemma DuplicateIff(states: seq<State>, steps: seq<Step>, d: string, k: string, at: real, cfg: Config)
    requires |states| == |steps| + 1 && StampsAreMarks(states, steps)
    ensures IsDuplicate(states[|steps|].recentPublishes, d, k, at, cfg.dedupeWindow)
       <==> exists j, t :: AckedAt(states, steps, j, d, k, t) && at - t < cfg.dedupeWindow
  {
    var recent := states[|steps|].recentPublishes;
    if (d, k) in recent {
      var j :| AckedAt(states, steps, j, d, k, recent[(d, k)]);
    }
  }

  /** Nothing but a visit publishes. */
  lemma OnlyVisitsPublish(states: seq<State>, steps: seq<Step>, i: nat, cfg: Config)
    requires IsRun(states, steps, cfg) && i < |steps| && !steps[i].Visit?
    ensures states[i + 1].published == states[i].published
  {
  }

  /** `visited` counts the device's events at its latest visit. */
  lemma {:induction false} VisitedAtLatestVisit(states: seq<State>, steps: seq<Step>, i: nat, cfg: Config)
    requires IsRun(states, steps, cfg) && i < |steps| && steps[i].Visit?
    requires forall j :: i < j < |steps| && steps[j].Visit? ==> steps[j].device != steps[i].device
    ensures Visited(states[|steps|], steps[i].device) == |Project(states[i].stream, steps[i].device)|
    decreases |steps|
  {
    hide Project, Pushed, Evicted;
    var n := |steps| - 1;
    if i < n {
      assert IsRun(states[..n + 1], steps[..n], cfg);
      VisitedAtLatestVisit(states[..n + 1], steps[..n], i, cfg);
    }
  }

  /** The batch ends with the loop asleep, after an exception without its unvisited rest. */
  lemma BatchEnds(states: seq<State>, steps: seq<Step>, i: nat, cfg: Config)
    requires IsRun(states, steps, cfg) && i < |steps| && (steps[i] == EndBatch || steps[i] == Raise)
    ensures states[i + 1].phase == Asleep && states[i + 1].dirty == states[i].dirty
    ensures steps[i] == EndBatch ==> Todo(states[i].phase) == {} && states[i + 1].dropped == states[i].dropped
    ensures steps[i] == Raise ==> states[i + 1].dropped == states[i].dropped + Todo(states[i].phase)
  {
  }

  /** While a publish is awaited events go on arriving, and make their device dirty again. */
  lemma EventDuringPublishIsNews(s: State, e: Event, d: string, cfg: Config)
    requires s.phase.Publishing? && e.deviceId == Some(d)
    ensures Enabled(s, Handle(e)) && d in Next(s, Handle(e), cfg).dirty
  {
  }

  /** Publications do happen: a fresh event of a device with a verdict is published. */
  lemma FreshEventIsPublished(e: Event, d: string, kind: string, wall: real, at: real, cfg: Config)
    returns (states: seq<State>, steps: seq<Step>)
    requires e.deviceId == Some(d) && e.timestamp == Some(wall) && cfg.maxlen > 0 && cfg.maxAge >= 0.0
    ensures IsRun(states, steps, cfg) && steps == [Handle(e), Wake, Visit(d, wall, at, Some(kind)), Ack(at), EndBatch]
    ensures states[5].published == [Publication(d, kind, at)] && states[5].phase == Asleep && states[5].dirty == {}
  {
    hide Project, Evicted, Pushed, Visited;
    var s0 := Init(wall, at);
    FirstEventHeld(e, d, cfg, wall);
    var s1 := Next(s0, Handle(e), cfg);
    assert s1.bufs == map[d := [e]] && s1.dirty == {d};
    var s2 := Next(s1, Wake, cfg);
    var s3 := Next(s2, Visit(d, wall, at, Some(kind)), cfg);
    assert {d} - {d} == {};
    assert s3.phase == Publishing(d, kind, {});
    assert s3.published == [Publication(d, kind, at)];
    var s4 := Next(s3, Ack(at), cfg);
    var s5 := Next(s4, EndBatch, cfg);
    states, steps := [s0, s1, s2, s3, s4, s5], [Handle(e), Wake, Visit(d, wall, at, Some(kind)), Ack(at), EndBatch];
    assert s0 == Init(wall, at);
  }

  lemma FirstEventHeld(e: Event, d: string, cfg: Config, wall: real)
    requires e.deviceId == Some(d) && e.timestamp == Some(wall) && cfg.maxlen > 0 && cfg.maxAge >= 0.0
    ensures Pushed(map[], e, cfg.maxlen) == map[d := [e]]
    ensures Evicted(map[d := [e]], d, wall - cfg.maxAge) == map[d := [e]]
  {
    assert LastN([e], cfg.maxlen) == [e] && [] + [e] == [e];
    assert !Stale(e, wall - cfg.maxAge);
  }

  /** The devices with an event since the latest wake-up. */
  function NewSinceWake(steps: seq<Step>): (ds: set<string>)
  {
    if steps == [] then {}
    else
      var ds := NewSinceWake(steps[..|steps| - 1]);
      match steps[|steps| - 1]
      case Handle(e) => if e.deviceId.Some? then ds + {e.deviceId.value} else ds
      case Wake => {}
      case _ => ds
  }

  /** MAIN: in every run the dirty set is exactly that, and a wake-up takes all of it. */
  lemma {:induction false} DirtyIsNewSinceWake(states: seq<State>, steps: seq<Step>, cfg: Config)
    requires IsRun(states, steps, cfg)
    ensures states[|steps|].dirty == NewSinceWake(steps)
    ensures steps != [] && steps[|steps| - 1] == Wake && NewSinceWake(steps[..|steps| - 1]) != {} ==>
              states[|steps|].phase == Scoring(NewSinceWake(steps[..|steps| - 1]))
    decreases |steps|
  {
    if steps != [] {
      var n := |steps| - 1;
      assert IsRun(states[..n + 1], steps[..n], cfg);
      DirtyIsNewSinceWake(states[..n + 1], steps[..n], cfg);
      VisitKeepsStamps(states[n], steps[n], cfg);
      hide VisitStep, Pushed;
    }
  }

  /** MAIN: in every run, a device with an event that no visit has followed is dirty, in the
      batch in hand, or in a batch lost to an exception. */
  lemma {:induction false} UnvisitedNewsIsQueued(states: seq<State>, steps: seq<Step>, j: nat, d: string, cfg: Config)
    requires IsRun(states, steps, cfg) && j < |steps| && steps[j].Handle? && steps[j].event.deviceId == Some(d)
    requires forall i :: j < i < |steps| && steps[i].Visit? ==> steps[i].device != d
    ensures var s := states[|steps|];
            d in s.dirty || d in Todo(s.phase)
            || exists i :: j < i < |steps| && steps[i] == Raise && d in Todo(states[i].phase)
    decreases |steps|
  {
    var n := |steps| - 1;
    var s, pre, preSteps := states[n], states[..n + 1], steps[..n];
    if j < n {
      assert IsRun(pre, preSteps, cfg);
      UnvisitedNewsIsQueued(pre, preSteps, j, d, cfg);
      VisitKeepsStamps(s, steps[n], cfg);
      hide VisitStep, Pushed;
      if i :| j < i < n && preSteps[i] == Raise && d in Todo(pre[i].phase) {
        assert steps[i] == Raise && d in Todo(states[i].phase);
      }
    }
  }

  // ----- the agent -----

  class SentinelAgent {
    const cfg: Config
    const store: WindowStore
    var dirty: set<string>
    var recentPublishes: map<(string, string), real>
    ghost var phase: Phase
    ghost var mono: real
    ghost var visited: map<string, nat>
    ghost var dropped: set<string>
    ghost var published: seq<Publication>

    ghost predicate Valid()
      reads this, store, store.windows.Values
    {
      store.Valid() && store.maxlen == cfg.maxlen && store.maxAge == cfg.maxAge
    }

    ghost function Abs(): State
      reads this, store, store.windows.Values
    {
      State(store.Bufs(), dirty, phase, recentPublishes, store.clock, mono, store.stream, visited, dropped, published)
    }

    constructor (cfg: Config, ghost start: real, ghost mono: real)
      ensures Valid() && Abs() == Init(start, mono) && this.cfg == cfg && fresh(store)
    {
      this.cfg := cfg;
      store := new WindowStore(cfg.maxlen, cfg.maxAge, start);
      dirty, recentPublishes := {}, map[];
      phase, visited, dropped, published := Asleep, map[], {}, [];
      this.mono := mono;
    }

    method HandleEvent(event: Event)
      requires Valid() && Enabled(Abs(), Handle(event))
      modifies this, store, store.windows.Values
      ensures Valid() && Abs() == Next(old(Abs()), Handle(event), cfg)
    {
      hide WindowStore.Valid, WindowStore.Bufs, Pushed;
      var id := store.Ingest(event);
      if id.Some? { dirty := dirty + {id.value}; }
    }

    /** The hand-off: the loop takes the dirty set and leaves an empty one. */
    method TakeBatch() returns (batch: set<string>)
      requires Valid() && Enabled(Abs(), Wake)
      modifies this
      ensures Valid() && Abs() == Next(old(Abs()), Wake, cfg) && batch == old(dirty)
    {
      hide WindowStore.Valid, WindowStore.Bufs;
      batch := dirty;
      if dirty != {} {
        phase := Scoring(dirty);
        dirty := {};
      }
    }

    /** One device of the batch, up to the await of its publish. */
    method VisitDevice(d: string, wall: real, at: real, verdict: Option<string>) returns (out: Option<Publication>)
      requires Valid() && Enabled(Abs(), Visit(d, wall, at, verdict))
      modifies this, store, store.windows.Values
      ensures Valid() && Abs() == Next(old(Abs()), Visit(d, wall, at, verdict), cfg)
      ensures published == old(published) + (if out.Some? then [out.value] else [])
    {
      hide WindowStore.Valid, WindowStore.Bufs, Project, Expected;
      var events := ReadWindow(d, wall, at);
      out := None;
      if events.None? || events.value == [] || verdict.None? { return; }
      if (d, verdict.value) in recentPublishes
         && at - recentPublishes[(d, verdict.value)] < cfg.dedupeWindow { return; }
      var p := Publication(PublishedId(events.value), verdict.value, at);
      phase, published := Publishing(d, verdict.value, phase.todo), published + [p];
      out := Some(p);
    }

    method ReadWindow(d: string, wall: real, at: real) returns (events: Option<seq<Event>>)
      requires Valid() && Enabled(Abs(), Visit(d, wall, at, None))
      modifies this, store, store.windows.Values
      ensures Valid() && Abs() == Touched(old(Abs()), d, wall, at, cfg)
      ensures events == if d in old(Abs()).bufs then Some(Abs().bufs[d]) else None
      ensures unchanged(this`dirty, this`recentPublishes, this`published)
    {
      hide WindowStore.Valid, Project, Expected;
      mono, phase, visited := at, Scoring(phase.todo - {d}), visited[d := |Project(store.stream, d)|];
      events := store.Recent(d, wall);
    }

    /** `_mark_published`, once the publish has returned. */
    method MarkPublished(device: string, kind: string, at: real)
      requires Valid() && Enabled(Abs(), Ack(at)) && phase.device == device && phase.kind == kind
      modifies this
      ensures Valid() && Abs() == Next(old(Abs()), Ack(at), cfg)
    {
      hide WindowStore.Valid, WindowStore.Bufs;
      recentPublishes := recentPublishes[(device, kind) := at];
      mono, phase := at, Scoring(phase.todo);
    }
  }
}
