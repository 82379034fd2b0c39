/** The closed loop: the executor acts on approved recommendations
    (apps/agents/executor/main.py) and the rollback monitor verifies every executed
    action later and reverts it when a KPI got worse (apps/agents/rollback/main.py).

    A step is the code between two awaits of one of the agents.  The executor handles one
    recommendation at a time; the monitor runs one verification task per action. */
module ClosedLoop {
  import opened Policy

  type ActionId = nat
  type Kpis = map<string, real>

  const REGRESSION_THRESHOLD := 0.1
  const HIGHER_IS_BETTER := {"fan.rpm", "net.port.up", "psu.efficiency.percent"}
  const HANDLED_KINDS := {"workload_migration", "fan_speed_adjust"}

  // ----- regressions -----

  predicate IsRegression(metric: string, pre: real, post: real, threshold: real) {
    if metric in HIGHER_IS_BETTER then post < pre * (1.0 - threshold) else post > pre * (1.0 + threshold)
  }

  /** An unchanged metric counts as a regression exactly when its value and the threshold
      have opposite signs; so never for a value that is not negative. */
  lemma UnchangedRegressesIff(metric: string, pre: real, threshold: real)
    ensures IsRegression(metric, pre, pre, threshold) <==> pre * threshold < 0.0
    ensures pre >= 0.0 && threshold >= 0.0 ==> !IsRegression(metric, pre, pre, threshold)
  {
    assert pre * (1.0 - threshold) == pre - pre * threshold;
    assert pre * (1.0 + threshold) == pre + pre * threshold;
  }

  /** What regressed stays regressed when it gets even worse: lower where higher is better,
      higher everywhere else. */
  lemma WorseStaysRegressed(metric: string, pre: real, post: real, worse: real, threshold: real)
    requires IsRegression(metric, pre, post, threshold)
    requires if metric in {"fan.rpm", "net.port.up", "psu.efficiency.percent"} then worse <= post else post <= worse
    ensures IsRegression(metric, pre, worse, threshold)
  {
  }

  /** The metrics measured both times that got worse, with their two values. */
  function Regressions(pre: Kpis, post: Kpis): (r: map<string, (real, real)>)
  {
    map m | m in pre && m in post && IsRegression(m, pre[m], post[m], REGRESSION_THRESHOLD) :: (pre[m], post[m])
  }

  /** The regressions in numbers. */
  lemma RegressionsInNumbers(pre: Kpis, post: Kpis)
    ensures forall m :: m in Regressions(pre, post) <==>
              m in pre && m in post
              && if m in {"fan.rpm", "net.port.up", "psu.efficiency.percent"} then post[m] < 0.9 * pre[m]
                 else post[m] > 1.1 * pre[m]
    ensures forall m :: m in Regressions(pre, post) ==> Regressions(pre, post)[m] == (pre[m], post[m])
  {
  }

  // ----- the state of both agents -----

  /** The `ActionExecuted` event of a handled recommendation. */
  datatype Executed = Executed(id: ActionId, success: bool, pre: Kpis)

  datatype ExecutorPhase =
    | Waiting
    | Snapshotting(rec: Recommendation, utcHour: int, id: ActionId)
    | Calling(rec: Recommendation, utcHour: int, id: ActionId, pre: Kpis)
    | Publishing(event: Executed)

  datatype Task = Measuring(event: Executed) | Reverting(event: Executed)

  /** What an observer outside sees, in order. */
  datatype Effect =
    | HandlerCalled(rec: Recommendation, utcHour: int, id: ActionId, pre: Kpis)
    | HandlerReturned(id: ActionId, success: bool)
    | RevertCalled(id: ActionId, regressions: map<string, (real, real)>)

  /** `used` are the action ids drawn so far, `published` the events on the bus,
      `finished` the ids whose verification has ended. */
  datatype State = State(
    phase: ExecutorPhase, inflight: set<ActionId>, tasks: map<ActionId, Task>,
    used: set<ActionId>, published: seq<Executed>, finished: set<ActionId>, log: seq<Effect>)

  /** An exception in the executor, also one from the handler, ends the handling of its
      recommendation without an event.  An exception in a verification ends that one. */
  datatype Step =
    | Recommend(rec: Recommendation, utcHour: int, newId: ActionId)
    | Snapshot(pre: Kpis)
    | HandlerDone(ok: bool)
    | PublishDone(delivered: bool)
    | ExecutorRaises
    | Deliver(event: Executed)
    | Verify(id: ActionId, post: Kpis)
    | VerifyRaises(id: ActionId)
    | RevertDone(id: ActionId)

  function Init(): (s: State) { State(Waiting, {}, map[], {}, [], {}, []) }

  predicate Enabled(s: State, a: Step) {
    match a
    case Recommend(_, _, newId) => s.phase.Waiting? && newId !in s.used
    case Snapshot(_) => s.phase.Snapshotting?
    case HandlerDone(_) => s.phase.Calling?
    case PublishDone(_) => s.phase.Publishing?
    case ExecutorRaises => !s.phase.Waiting?
    case Deliver(event) => event in s.published
    case Verify(id, _) => id in s.tasks && s.tasks[id].Measuring?
    case VerifyRaises(id) => id in s.tasks && s.tasks[id].Measuring?
    case RevertDone(id) => id in s.tasks && s.tasks[id].Reverting?
  }

  function RecommendStep(s: State, policies: seq<Policy>, rec: Recommendation, utcHour: int,
                         newId: ActionId): (r: State)
  {
    if Verdict(policies, rec, utcHour) != Approved || rec.kind !in HANDLED_KINDS then s
    else s.(phase := Snapshotting(rec, utcHour, newId), used := s.used + {newId})
  }

  /** `RollbackAgent.handle`. */
  function DeliverStep(s: State, event: Executed): (r: State)
  {
    if !event.success || event.pre == map[] || event.id in s.inflight then s
    else s.(inflight := s.inflight + {event.id}, tasks := s.tasks[event.id := Measuring(event)])
  }

  /** `_verify` from its snapshot to the revert call. */
  function VerifyStep(s: State, id: ActionId, post: Kpis): (r: State)
    requires id in s.tasks
  {
    var event := s.tasks[id].event;
    var regressions := Regressions(event.pre, post);
    if regressions == map[] then FinishTask(s, id)
    else s.(tasks := s.tasks[id := Reverting(event)], log := s.log + [RevertCalled(event.id, regressions)])
  }

  /** The `finally` of `_verify_later`. */
  function FinishTask(s: State, id: ActionId): (r: State)
  {
    s.(tasks := s.tasks - {id}, inflight := s.inflight - {id}, finished := s.finished + {id})
  }

  function Next(s: State, a: Step, policies: seq<Policy>): (r: State)
    requires Enabled(s, a)
  {
    match a
    case Recommend(rec, utcHour, newId) => RecommendStep(s, policies, rec, utcHour, newId)
    case Snapshot(pre) =>
      s.(phase := Calling(s.phase.rec, s.phase.utcHour, s.phase.id, pre),
         log := s.log + [HandlerCalled(s.phase.rec, s.phase.utcHour, s.phase.id, pre)])
    case HandlerDone(ok) =>
      s.(phase := Publishing(Executed(s.phase.id, ok, s.phase.pre)), log := s.log + [HandlerReturned(s.phase.id, ok)])
    case PublishDone(delivered) =>
      s.(phase := Waiting, published := s.published + if delivered then [s.phase.event] else [])
    case ExecutorRaises => s.(phase := Waiting)
    case Deliver(event) => DeliverStep(s, event)
    case Verify(id, post) => VerifyStep(s, id, post)
    case VerifyRaises(id) => FinishTask(s, id)
    case RevertDone(id) => FinishTask(s, id)
  }

  ghost predicate IsRun(states: seq<State>, steps: seq<Step>, policies: seq<Policy>) {
    && |states| == |steps| + 1
    && states[0] == Init()
    && forall i :: 0 <= i < |steps| ==>
        Enabled(states[i], steps[i]) && states[i + 1] == Next(states[i], steps[i], policies)
  }

  // ----- every effect has its cause -----

  /** The handler was called for this action, on an approved recommendation of a handled
      kind, after these KPIs were measured. */
  ghost predicate Called(log: seq<Effect>, id: ActionId, pre: Kpis) {
    exists i :: 0 <= i < |log| && log[i].HandlerCalled? && log[i].id == id && log[i].pre == pre
  }

  /** The handler was called so, and reported success after that. */
  ghost predicate Succeeded(log: seq<Effect>, id: ActionId, pre: Kpis) {
    exists i, j :: 0 <= i < j < |log| && log[i].HandlerCalled? && log[i].id == id && log[i].pre == pre
      && log[j] == HandlerReturned(id, true)
  }

  ghost predicate WellFounded(e: Effect, before: seq<Effect>, policies: seq<Policy>) {
    match e
    case HandlerCalled(rec, utcHour, _, _) => Verdict(policies, rec, utcHour) == Approved && rec.kind in HANDLED_KINDS
    case HandlerReturned(id, _) => exists pre :: Called(before, id, pre)
    case RevertCalled(id, regressions) =>
      && regressions != map[]
      && exists pre :: pre != map[] && Succeeded(before, id, pre)
           && forall m :: m in regressions ==>
                m in pre && regressions[m].0 == pre[m]
                && IsRegression(m, regressions[m].0, regressions[m].1, REGRESSION_THRESHOLD)
  }

  ghost predicate LogWellFounded(log: seq<Effect>, policies: seq<Policy>) {
    forall i :: 0 <= i < |log| ==> WellFounded(log[i], log[..i], policies)
  }

  /** A published or pending event tells of a handler call that succeeded if it says so. */
  ghost predicate Truthful(s: State, event: Executed) {
    event.success ==> Succeeded(s.log, event.id, event.pre)
  }

  ghost predicate EventsTruthful(s: State, policies: seq<Policy>) {
    && (s.phase.Snapshotting? ==>
        Verdict(policies, s.phase.rec, s.phase.utcHour) == Approved && s.phase.rec.kind in HANDLED_KINDS)
    && (s.phase.Calling? ==> Called(s.log, s.phase.id, s.phase.pre))
    && (s.phase.Publishing? ==> Truthful(s, s.phase.event))
    && (forall e :: e in s.published ==> Truthful(s, e))
    && (forall id :: id in s.tasks ==>
          var e := s.tasks[id].event; e.id == id && e.success && e.pre != map[] && Truthful(s, e))
  }

  /** The monitor's in-flight set is exactly the ids of its pending verifications. */
  ghost predicate InflightExact(s: State) {
    s.inflight == s.tasks.Keys
  }

  lemma CalledLater(log: seq<Effect>, e: Effect, id: ActionId, pre: Kpis)
    ensures Called(log, id, pre) ==> Called(log + [e], id, pre)
    ensures Succeeded(log, id, pre) ==> Succeeded(log + [e], id, pre)
    ensures Called(log, id, pre) && e == HandlerReturned(id, true) ==> Succeeded(log + [e], id, pre)
  {
    var log' := log + [e];
    if i :| 0 <= i < |log| && log[i].HandlerCalled? && log[i].id == id && log[i].pre == pre {
      assert log'[i] == log[i];
      assert log'[|log|] == e;
    }
    if i, j :| 0 <= i < j < |log| && log[i].HandlerCalled? && log[i].id == id && log[i].pre == pre
               && log[j] == HandlerReturned(id, true) {
      assert log'[i] == log[i] && log'[j] == log[j];
    }
  }

  lemma LogExtended(log: seq<Effect>, e: Effect, policies: seq<Policy>)
    requires LogWellFounded(log, policies) && WellFounded(e, log, policies)
    ensures LogWellFounded(log + [e], policies)
  {
    var log' := log + [e];
    forall i | 0 <= i < |log'| ensures WellFounded(log'[i], log'[..i], policies) {
      if i < |log| { assert log'[..i] == log[..i]; } else { assert log'[..i] == log; }
    }
  }

  lemma TruthfulLater(s: State, s': State, e: Effect, policies: seq<Policy>)
    requires EventsTruthful(s, policies) && s'.log == s.log + [e]
    ensures forall v :: Truthful(s, v) ==> Truthful(s', v)
  {
    hide Succeeded;
    forall v | Truthful(s, v) ensures Truthful(s', v) { CalledLater(s.log, e, v.id, v.pre); }
  }

  lemma StepKeepsTruth(s: State, a: Step, policies: seq<Policy>)
    requires Enabled(s, a) && EventsTruthful(s, policies) && LogWellFounded(s.log, policies)
    ensures EventsTruthful(Next(s, a, policies), policies) && LogWellFounded(Next(s, a, policies).log, policies)
  {
    hide Succeeded, Called, LogWellFounded, Regressions;
    var s' := Next(s, a, policies);
    match a
    case Snapshot(pre) =>
      var e := HandlerCalled(s.phase.rec, s.phase.utcHour, s.phase.id, pre);
      LogExtended(s.log, e, policies);
      TruthfulLater(s, s', e, policies);
      JustCalled(s.log, e);
    case HandlerDone(ok) =>
      var e := HandlerReturned(s.phase.id, ok);
      LogExtended(s.log, e, policies);
      TruthfulLater(s, s', e, policies);
      CalledLater(s.log, e, s.phase.id, s.phase.pre);
    case Verify(id, post) => VerifyKeepsTruth(s, id, post, policies);
    case _ =>
  }

  lemma VerifyKeepsTruth(s: State, id: ActionId, post: Kpis, policies: seq<Policy>)
    requires id in s.tasks && EventsTruthful(s, policies) && LogWellFounded(s.log, policies)
    ensures EventsTruthful(VerifyStep(s, id, post), policies) && LogWellFounded(VerifyStep(s, id, post).log, policies)
  {
    hide Succeeded, Called, LogWellFounded, Regressions, Verdict;
    var event, s' := s.tasks[id].event, VerifyStep(s, id, post);
    var regressions := Regressions(event.pre, post);
    if regressions != map[] {
      var e := RevertCalled(event.id, regressions);
      RegressionsMean(event.pre, post);
      assert Truthful(s, event);
      assert WellFounded(e, s.log, policies);
      LogExtended(s.log, e, policies);
      TruthfulLater(s, s', e, policies);
      if s.phase.Calling? { CalledLater(s.log, e, s.phase.id, s.phase.pre); }
    }
  }

  lemma JustCalled(log: seq<Effect>, e: Effect)
    requires e.HandlerCalled?
    ensures Called(log + [e], e.id, e.pre)
  {
    assert (log + [e])[|log|] == e;
  }

  lemma RegressionsMean(pre: Kpis, post: Kpis)
    ensures forall m :: m in Regressions(pre, post) ==>
              m in pre && m in post && Regressions(pre, post)[m] == (pre[m], post[m])
              && IsRegression(m, pre[m], post[m], REGRESSION_THRESHOLD)
  {
  }

  /** A verification reverts exactly when some metric measured both times got worse, and
      otherwise ends without any effect. */
  lemma RevertsIffRegressed(s: State, id: ActionId, post: Kpis, policies: seq<Policy>)
    requires Enabled(s, Verify(id, post))
    ensures
      (var pre, s' := s.tasks[id].event.pre, Next(s, Verify(id, post), policies);
       && (s'.log != s.log <==>
             exists m :: m in pre && m in post && IsRegression(m, pre[m], post[m], REGRESSION_THRESHOLD))
       && (s'.log != s.log ==>
           s'.log == s.log + [RevertCalled(s.tasks[id].event.id, Regressions(pre, post))] && id in s'.tasks)
       && (s'.log == s.log ==> id !in s'.tasks && id !in s'.inflight))
  {
    var pre := s.tasks[id].event.pre;
    if m :| m in pre && m in post && IsRegression(m, pre[m], post[m], REGRESSION_THRESHOLD) {
      assert m in Regressions(pre, post);
    }
    if Regressions(pre, post) != map[] {
      var m :| m in Regressions(pre, post);
      assert m in pre && m in post && IsRegression(m, pre[m], post[m], REGRESSION_THRESHOLD);
      assert |s.log + [RevertCalled(s.tasks[id].event.id, Regressions(pre, post))]| != |s.log|;
    }
  }

  /** MAIN: what a verification does, in numbers: it calls revert if and only if a metric
      measured both times fell by more than a tenth where higher is better, or rose by more
      than a tenth anywhere else, and it reports exactly those metrics with both values. */
  lemma RevertsIffWorse(s: State, id: ActionId, post: Kpis, policies: seq<Policy>)
    requires Enabled(s, Verify(id, post))
    ensures
      (var event, s' := s.tasks[id].event, Next(s, Verify(id, post), policies);
       var pre := event.pre;
       && (s'.log != s.log <==>
             exists m :: m in pre && m in post
                && if m in {"fan.rpm", "net.port.up", "psu.efficiency.percent"} then post[m] < 0.9 * pre[m]
                   else post[m] > 1.1 * pre[m])
       && (s'.log != s.log ==>
             |s'.log| == |s.log| + 1 && s'.log[..|s.log|] == s.log
             && s'.log[|s.log|].RevertCalled? && s'.log[|s.log|].id == event.id
             && var r := s'.log[|s.log|].regressions;
                (forall m :: m in r <==>
                   m in pre && m in post
                   && if m in {"fan.rpm", "net.port.up", "psu.efficiency.percent"} then post[m] < 0.9 * pre[m]
                      else post[m] > 1.1 * pre[m])
                && forall m :: m in r ==> r[m] == (pre[m], post[m])))
  {
    var pre := s.tasks[id].event.pre;
    var r := Regressions(pre, post);
    RegressionsInNumbers(pre, post);
    hide Regressions;
    if r != map[] {
      var m :| m in r;
      assert |s.log + [RevertCalled(s.tasks[id].event.id, r)]| != |s.log|;
    }
  }

  /** A verification that raises, or whose revert has returned, is over without a further
      effect, and an exception in the executor leaves no event behind. */
  lemma RaisingEnds(s: State, a: Step, policies: seq<Policy>)
    requires Enabled(s, a)
    ensures a.VerifyRaises? || a.RevertDone? ==>
              var s' := Next(s, a, policies);
              s'.log == s.log && s'.tasks == s.tasks - {a.id} && s'.inflight == s.inflight - {a.id}
                  && a.id in s'.finished
    ensures a.ExecutorRaises? ==>
              var s' := Next(s, a, policies);
              s'.log == s.log && s'.published == s.published && s'.phase == Waiting && s'.used == s.used
  {
  }

  /** MAIN: over every run, redelivered events included: a handler is called only for an
      approved recommendation of a handled kind; a revert is attempted only after a
      successful execution of the same action, on KPIs measured before it, at least one
      of which got worse; and the in-flight set is exactly the pending verifications. */
  lemma {:induction false} LoopIsSafe(states: seq<State>, steps: seq<Step>, policies: seq<Policy>)
    requires IsRun(states, steps, policies)
    ensures var s := states[|steps|];
            LogWellFounded(s.log, policies) && EventsTruthful(s, policies) && InflightExact(s)
    decreases |steps|
  {
    hide LogWellFounded, Verdict, Regressions, Succeeded, Called;
    if steps != [] {
      hide EventsTruthful;
      var n := |steps| - 1;
      assert IsRun(states[..n + 1], steps[..n], policies);
      LoopIsSafe(states[..n + 1], steps[..n], policies);
      StepKeepsTruth(states[n], steps[n], policies);
    } else {
      EmptyLog(policies);
    }
  }

  lemma EmptyLog(policies: seq<Policy>)
    ensures LogWellFounded([], policies)
  {
  }

  /** What the approval behind a handler call means, policy by policy. */
  lemma HandlerCallsPassEveryPolicy(states: seq<State>, steps: seq<Step>, policies: seq<Policy>, i: nat, p: Policy)
    requires IsRun(states, steps, policies) && p in policies
    requires i < |states[|steps|].log| && states[|steps|].log[i].HandlerCalled?
    ensures
      (var e := states[|steps|].log[i];
       && !e.rec.requiresHuman
       && (InScope(p, e.rec) ==>
             && (p.rule.BlastRadius? ==> |e.rec.targets| <= p.rule.cap)
             && (p.rule.ChangeFreeze? ==> !p.rule.enabled)
             && (p.rule.BlackoutWindow? && (p.rule.kinds == {} || e.rec.kind in p.rule.kinds) ==>
                   !InWindow(p.rule.startHour, p.rule.endHour, (e.utcHour + p.rule.offset) % 24))))
  {
    LoopIsSafe(states, steps, policies);
    var log := states[|steps|].log;
    var e := log[i];
    assert WellFounded(log[i], log[..i], policies);
    VerdictMeans(policies, e.rec, e.utcHour);
    var j :| 0 <= j < |policies| && policies[j] == p;
    assert !Gives(policies[j], e.rec, e.utcHour, NeedsHuman) && !Gives(policies[j], e.rec, e.utcHour, Denied);
  }

  // ----- action ids -----

  function Calls(log: seq<Effect>, id: ActionId): (n: nat)
  {
    if log == [] then 0
    else Calls(log[..|log| - 1], id) + if log[|log| - 1].HandlerCalled? && log[|log| - 1].id == id then 1 else 0
  }

  lemma {:induction false} CallsAppend(log: seq<Effect>, e: Effect, id: ActionId)
    ensures Calls(log + [e], id) == Calls(log, id) + if e.HandlerCalled? && e.id == id then 1 else 0
  {
    assert (log + [e])[..|log|] == log;
  }

  /** The action is the one the executor is busy with. */
  predicate Busy(s: State, id: ActionId) {
    match s.phase
    case Waiting => false
    case Publishing(event) => event.id == id
    case _ => s.phase.id == id
  }

  /** An id is called for at most once, and not before the executor has drawn it. */
  ghost predicate CallsInOrder(s: State) {
    && (s.phase.Snapshotting? ==> Calls(s.log, s.phase.id) == 0)
    && (forall id :: Busy(s, id) ==> id in s.used)
    && (forall id :: Calls(s.log, id) <= 1 && (id !in s.used ==> Calls(s.log, id) == 0))
  }

  /** An id whose event is out is done with for the executor. */
  ghost predicate EventsInOrder(s: State) {
    && (forall id :: Busy(s, id) ==> id in s.used)
    && (forall e :: e in s.published ==> e.id in s.used && !Busy(s, e.id))
  }

  /** A delivery of this event starts a verification when none is pending. */
  predicate Starts(e: Executed, id: ActionId) {
    e.id == id && e.success && e.pre != map[]
  }

  ghost predicate Verifiable(s: State, id: ActionId) {
    exists e :: e in s.published && Starts(e, id)
  }

  /** The monitor only knows ids from published events that start a verification. */
  ghost predicate MonitorInOrder(s: State) {
    && (forall id :: id in s.tasks ==> s.tasks[id].event in s.published && Starts(s.tasks[id].event, id))
    && (forall id :: id in s.finished ==> Verifiable(s, id))
  }

  lemma StepKeepsCalls(s: State, a: Step, policies: seq<Policy>)
    requires Enabled(s, a) && CallsInOrder(s)
    ensures CallsInOrder(Next(s, a, policies))
  {
    hide Calls, Regressions, Verdict;
    var s' := Next(s, a, policies);
    if |s'.log| > |s.log| {
      var e := s'.log[|s.log|];
      assert s'.log == s.log + [e];
      forall id ensures Calls(s'.log, id) == Calls(s.log, id) + if e.HandlerCalled? && e.id == id then 1 else 0 {
        CallsAppend(s.log, e, id);
      }
    }
  }

  lemma StepKeepsEvents(s: State, a: Step, policies: seq<Policy>)
    requires Enabled(s, a) && EventsInOrder(s)
    ensures EventsInOrder(Next(s, a, policies))
  {
    hide Regressions, Verdict;
  }

  lemma StepKeepsMonitor(s: State, a: Step, policies: seq<Policy>)
    requires Enabled(s, a) && MonitorInOrder(s)
    ensures MonitorInOrder(Next(s, a, policies))
  {
    hide Regressions, Verdict, Starts;
    var s' := Next(s, a, policies);
    forall id | Verifiable(s, id) ensures Verifiable(s', id) {
      var e :| e in s.published && Starts(e, id);
      assert e in s'.published;
    }
    if a.Deliver? && a.event.success && a.event.pre != map[] { DeliveryStarts(a.event); }
  }

  lemma DeliveryStarts(e: Executed)
    requires e.success && e.pre != map[]
    ensures Starts(e, e.id)
  {
  }

  lemma {:induction false} IdsStayInOrder(states: seq<State>, steps: seq<Step>, policies: seq<Policy>)
    requires IsRun(states, steps, policies)
    ensures CallsInOrder(states[|steps|]) && EventsInOrder(states[|steps|]) && MonitorInOrder(states[|steps|])
    decreases |steps|
  {
    if steps != [] {
      hide CallsInOrder, EventsInOrder, MonitorInOrder;
      var n := |steps| - 1;
      assert IsRun(states[..n + 1], steps[..n], policies);
      IdsStayInOrder(states[..n + 1], steps[..n], policies);
      StepKeepsCalls(states[n], steps[n], policies);
      StepKeepsEvents(states[n], steps[n], policies);
      StepKeepsMonitor(states[n], steps[n], policies);
    }
  }

  /** MAIN: no action id is ever used for two handler calls. */
  lemma {:induction false} HandlerCalledOnce(states: seq<State>, steps: seq<Step>, policies: seq<Policy>, id: ActionId)
    requires IsRun(states, steps, policies)
    ensures Calls(states[|steps|].log, id) <= 1
  {
    IdsStayInOrder(states, steps, policies);
  }

  /** The events on the bus are exactly those whose publish succeeded. */
  lemma {:induction false} PublishedAre(states: seq<State>, steps: seq<Step>, policies: seq<Policy>, e: Executed)
    requires IsRun(states, steps, policies)
    ensures e in states[|steps|].published <==>
              exists i :: 0 <= i < |steps| && steps[i] == PublishDone(true) && states[i].phase == Publishing(e)
    decreases |steps|
  {
    hide Verdict, Regressions;
    if steps != [] {
      var n := |steps| - 1;
      var pre, preSteps := states[..n + 1], steps[..n];
      assert IsRun(pre, preSteps, policies);
      PublishedAre(pre, preSteps, policies, e);
      if i :| 0 <= i < n && preSteps[i] == PublishDone(true) && pre[i].phase == Publishing(e) {
        assert steps[i] == PublishDone(true) && states[i].phase == Publishing(e);
      }
      if i :| 0 <= i < |steps| && steps[i] == PublishDone(true) && states[i].phase == Publishing(e) {
        if i < n { assert preSteps[i] == PublishDone(true) && pre[i].phase == Publishing(e); }
      }
    }
  }

  // ----- at most one revert per action -----

  function Reverts(log: seq<Effect>, id: ActionId): (n: nat)
  {
    if log == [] then 0
    else Reverts(log[..|log| - 1], id) + if log[|log| - 1].RevertCalled? && log[|log| - 1].id == id then 1 else 0
  }

  lemma {:induction false} RevertsAppend(log: seq<Effect>, e: Effect, id: ActionId)
    ensures Reverts(log + [e], id) == Reverts(log, id) + if e.RevertCalled? && e.id == id then 1 else 0
  {
    assert (log + [e])[..|log|] == log;
  }

  /** The run delivers the event of action `id` again after its verification ended. */
  ghost predicate RedeliveredLate(states: seq<State>, steps: seq<Step>, id: ActionId)
    requires |states| == |steps| + 1
  {
    exists i :: 0 <= i < |steps| && steps[i].Deliver? && steps[i].event.id == id && id in states[i].finished
  }

  /** One verification, at most one revert: none before it, none while measuring. */
  ghost predicate RevertedOnce(s: State, id: ActionId) {
    && Reverts(s.log, id) <= 1
    && (id !in s.finished && (id !in s.tasks || s.tasks[id].Measuring?) ==> Reverts(s.log, id) == 0)
    && (id in s.tasks ==> id !in s.finished && s.tasks[id].event.id == id)
  }

  lemma StepKeepsRevertedOnce(s: State, a: Step, policies: seq<Policy>, id: ActionId)
    requires Enabled(s, a) && InflightExact(s) && RevertedOnce(s, id)
    requires forall t :: t in s.tasks ==> s.tasks[t].event.id == t
    requires !(a.Deliver? && a.event.id == id && id in s.finished)
    ensures RevertedOnce(Next(s, a, policies), id)
  {
    hide Regressions, Verdict, Reverts;
    var s' := Next(s, a, policies);
    if |s'.log| > |s.log| { RevertsAppend(s.log, s'.log[|s.log|], id); }
  }

  /** MAIN: an action whose event is not delivered again after its verification has
      ended is reverted at most once, however often it is delivered before. */
  lemma {:induction false} RevertedAtMostOnce(states: seq<State>, steps: seq<Step>, policies: seq<Policy>, id: ActionId)
    requires IsRun(states, steps, policies) && !RedeliveredLate(states, steps, id)
    ensures RevertedOnce(states[|steps|], id)
    decreases |steps|
  {
    hide LogWellFounded, Truthful;
    if steps != [] {
      var n := |steps| - 1;
      var pre, preSteps := states[..n + 1], steps[..n];
      assert IsRun(pre, preSteps, policies);
      assert forall i :: 0 <= i < n ==> preSteps[i] == steps[i] && pre[i] == states[i];
      RevertedAtMostOnce(pre, preSteps, policies, id);
      LoopIsSafe(pre, preSteps, policies);
      hide RevertedOnce;
      StepKeepsRevertedOnce(states[n], steps[n], policies, id);
    }
  }

  /** The loop goes on from state `s`, and delivers only events the bus may deliver. */
  ghost predicate GoesOn(s: State, states: seq<State>, steps: seq<Step>, policies: seq<Policy>, may: Executed -> bool) {
    && |states| == |steps| + 1
    && states[0] == s
    && forall i :: 0 <= i < |steps| ==>
         Enabled(states[i], steps[i]) && states[i + 1] == Next(states[i], steps[i], policies)
         && (steps[i].Deliver? ==> may(steps[i].event))
  }

  /** MAIN: after any run in which the verification of an action has ended, whatever the
      bus may still deliver, the action can be reverted again exactly when the bus may
      deliver a published successful event of it that carries KPIs. */
  lemma {:induction false} RevertedAgainIff(states: seq<State>, steps: seq<Step>, policies: seq<Policy>, id: ActionId,
                         may: Executed -> bool)
    requires IsRun(states, steps, policies)
    requires id in states[|steps|].finished && id !in states[|steps|].inflight
    ensures var s := states[|steps|];
            (exists later: seq<State>, more: seq<Step> ::
               GoesOn(s, later, more, policies, may) && Reverts(later[|more|].log, id) > Reverts(s.log, id))
            <==> exists e :: e in s.published && may(e) && Starts(e, id)
  {
    var s := states[|steps|];
    hide LogWellFounded, EventsTruthful, Truthful, Reverts, Regressions, Next;
    IdsStayInOrder(states, steps, policies);
    LoopIsSafe(states, steps, policies);
    if e :| e in s.published && may(e) && Starts(e, id) {
      var later, more := RevertOnceMore(s, e, policies, may);
    }
    if later: seq<State>, more: seq<Step> :|
        GoesOn(s, later, more, policies, may) && Reverts(later[|more|].log, id) > Reverts(s.log, id) {
      if forall e :: e in s.published && may(e) ==> !Starts(e, id) {
        NotRevertedAgain(s, later, more, policies, id, may);
        assert false;
      }
    }
  }

  /** Some post-action measurements make any action look worse. */
  lemma SomethingRegresses(pre: Kpis) returns (post: Kpis)
    requires pre != map[]
    ensures Regressions(pre, post) != map[]
  {
    var m :| m in pre;
    post := map[m := if m in HIGHER_IS_BETTER then pre[m] * (1.0 - REGRESSION_THRESHOLD) - 1.0
                     else pre[m] * (1.0 + REGRESSION_THRESHOLD) + 1.0];
    assert m in Regressions(pre, post);
  }

  lemma RevertOnceMore(s: State, e: Executed, policies: seq<Policy>, may: Executed -> bool)
    returns (later: seq<State>, more: seq<Step>)
    requires e in s.published && may(e) && Starts(e, e.id) && e.id !in s.inflight
    ensures GoesOn(s, later, more, policies, may) && more != [] && more[0] == Deliver(e)
    ensures var s' := later[|more|];
            && Reverts(s'.log, e.id) == Reverts(s.log, e.id) + 1
            && s'.published == s.published && e.id in s'.tasks && s'.tasks[e.id] == Reverting(e)
  {
    hide Regressions;
    var post := SomethingRegresses(e.pre);
    var s1 := Next(s, Deliver(e), policies);
    later, more := [s, s1, Next(s1, Verify(e.id, post), policies)], [Deliver(e), Verify(e.id, post)];
    RevertsAppend(s.log, RevertCalled(e.id, Regressions(e.pre, post)), e.id);
  }

  /** An approved recommendation is acted on and its event published. */
  lemma ActedOn(policies: seq<Policy>, rec: Recommendation, utcHour: int, id: ActionId, pre: Kpis)
    returns (states: seq<State>, steps: seq<Step>)
    requires Verdict(policies, rec, utcHour) == Approved && rec.kind in HANDLED_KINDS
    ensures IsRun(states, steps, policies)
    ensures var s := states[|steps|];
            Reverts(s.log, id) == 0 && id !in s.inflight && Executed(id, true, pre) in s.published
  {
    hide Verdict, Reverts;
    var called, returned := HandlerCalled(rec, utcHour, id, pre), HandlerReturned(id, true);
    var used := Init().(used := {id});
    states := [Init(),
               used.(phase := Snapshotting(rec, utcHour, id)),
               used.(phase := Calling(rec, utcHour, id, pre), log := [called]),
               used.(phase := Publishing(Executed(id, true, pre)), log := [called] + [returned]),
               used.(published := [Executed(id, true, pre)], log := [called] + [returned])];
    steps := [Recommend(rec, utcHour, id), Snapshot(pre), HandlerDone(true), PublishDone(true)];
    NothingReverted(id);
    RevertsAppend([], called, id);
    RevertsAppend([called], returned, id);
    assert [] + [called] == [called];
  }

  /** And reverted once. */
  lemma FirstRevert(policies: seq<Policy>, rec: Recommendation, utcHour: int, id: ActionId, pre: Kpis)
    returns (states: seq<State>, steps: seq<Step>)
    requires Verdict(policies, rec, utcHour) == Approved && rec.kind in HANDLED_KINDS && pre != map[]
    ensures IsRun(states, steps, policies)
    ensures var s := states[|steps|];
            Reverts(s.log, id) == 1 && id in s.finished && id !in s.inflight && Executed(id, true, pre) in s.published
  {
    hide Verdict, Reverts;
    var first, begun := ActedOn(policies, rec, utcHour, id, pre);
    var later, more := RevertOnceMore(first[|begun|], Executed(id, true, pre), policies, _ => true);
    RunsJoin(first, begun, later, more, policies, _ => true);
    RunExtended(first + later[1..], begun + more, RevertDone(id), policies);
    states, steps := first + later[1..] + [Next(later[|more|], RevertDone(id), policies)], begun + more
        + [RevertDone(id)];
  }

  lemma RunExtended(states: seq<State>, steps: seq<Step>, a: Step, policies: seq<Policy>)
    requires IsRun(states, steps, policies) && Enabled(states[|steps|], a)
    ensures IsRun(states + [Next(states[|steps|], a, policies)], steps + [a], policies)
  {
    hide Next, Enabled;
  }

  lemma {:induction false} NothingReverted(id: ActionId)
    ensures Reverts([], id) == 0
  {
  }

  /** MAIN: the condition is needed: every approved recommendation with KPIs has a run from
      the start in which its action is reverted twice. */
  lemma LateRedeliveryRevertsAgain(policies: seq<Policy>, rec: Recommendation, utcHour: int, id: ActionId, pre: Kpis)
    returns (states: seq<State>, steps: seq<Step>)
    requires Verdict(policies, rec, utcHour) == Approved && rec.kind in HANDLED_KINDS && pre != map[]
    ensures IsRun(states, steps, policies) && RedeliveredLate(states, steps, id)
    ensures Reverts(states[|steps|].log, id) == 2
  {
    hide Verdict, Reverts, Next, Enabled;
    var first, begun := FirstRevert(policies, rec, utcHour, id, pre);
    var s, e := first[|begun|], Executed(id, true, pre);
    var later, more := RevertOnceMore(s, e, policies, _ => true);
    states, steps := first + later[1..], begun + more;
    RunsJoin(first, begun, later, more, policies, _ => true);
    assert steps[|begun|] == more[0] && states[|begun|] == s;
  }

  lemma RunsJoin(states: seq<State>, steps: seq<Step>, later: seq<State>, more: seq<Step>, policies: seq<Policy>,
                 may: Executed -> bool)
    requires IsRun(states, steps, policies) && GoesOn(states[|steps|], later, more, policies, may)
    ensures IsRun(states + later[1..], steps + more, policies)
    ensures (states + later[1..])[|steps + more|] == later[|more|]
  {
    hide Next, Enabled;
    var all, done := states + later[1..], steps + more;
    forall i | 0 <= i < |done| ensures Enabled(all[i], done[i]) && all[i + 1] == Next(all[i], done[i], policies) {
      if i >= |steps| {
        assert all[i] == later[i - |steps|] && all[i + 1] == later[i + 1 - |steps|] && done[i] == more[i - |steps|];
      }
    }
  }

  /** The action is through, and no event that the bus may deliver starts it again. */
  ghost predicate Settled(s: State, id: ActionId, may: Executed -> bool) {
    && id in s.used && !Busy(s, id) && id !in s.tasks
    && (forall t :: t in s.tasks ==> s.tasks[t].event.id == t)
    && forall e :: e in s.published && may(e) ==> !Starts(e, id)
  }

  lemma {:induction false} StepKeepsSettled(s: State, a: Step, policies: seq<Policy>, id: ActionId,
                                            may: Executed -> bool)
    requires Enabled(s, a) && Settled(s, id, may) && (a.Deliver? ==> may(a.event))
    ensures Settled(Next(s, a, policies), id, may) && Reverts(Next(s, a, policies).log, id) == Reverts(s.log, id)
  {
    hide Regressions, Verdict, Reverts;
    var s' := Next(s, a, policies);
    if |s'.log| > |s.log| { RevertsAppend(s.log, s'.log[|s.log|], id); }
  }

  lemma {:induction false} NotRevertedAgain(s: State, later: seq<State>, more: seq<Step>, policies: seq<Policy>,
                                            id: ActionId,
                                            may: Executed -> bool)
    requires GoesOn(s, later, more, policies, may) && Settled(s, id, may)
    ensures Settled(later[|more|], id, may) && Reverts(later[|more|].log, id) == Reverts(s.log, id)
    decreases |more|
  {
    hide Settled, Reverts;
    if more != [] {
      var n := |more| - 1;
      assert GoesOn(s, later[..n + 1], more[..n], policies, may);
      NotRevertedAgain(s, later[..n + 1], more[..n], policies, id, may);
      StepKeepsSettled(later[n], more[n], policies, id, may);
    }
  }

  // ----- the executor -----

  /** How `ExecutorAgent.handle` ends: it records a denial, asks a human, or acts. */
  datatype Outcome = RecordsDenial(reason: string) | AsksHuman | Acts

  class ExecutorAgent {
    const engine: PolicyEngine

    constructor (policies: seq<Policy>)
      ensures engine.policies == policies
    {
      engine := new PolicyEngine(policies);
    }

    /** Acts exactly when the loop's `Recommend` step leaves `Waiting`. */
    method Handle(rec: Recommendation, utcHour: int, newId: ActionId, ghost s: State) returns (outcome: Outcome)
      requires s.phase.Waiting?
      ensures outcome == Acts <==>
                RecommendStep(s, engine.policies, rec, utcHour, newId).phase == Snapshotting(rec, utcHour, newId)
      ensures outcome == Acts <==>
                Verdict(engine.policies, rec, utcHour) == Approved
                    && rec.kind in {"workload_migration", "fan_speed_adjust"}
      ensures outcome != Acts ==> RecommendStep(s, engine.policies, rec, utcHour, newId) == s
      ensures outcome == AsksHuman <==> Verdict(engine.policies, rec, utcHour) == NeedsHuman
      ensures Verdict(engine.policies, rec, utcHour) == Denied ==>
                outcome.RecordsDenial? && exists p ::
                    p in engine.policies && outcome.reason == p.id && Gives(p, rec, utcHour, Denied)
    {
      var decision, reason, applied := engine.Evaluate(rec, utcHour);
      if decision == Denied {
        outcome := RecordsDenial(reason.value.id);
      } else if decision == NeedsHuman {
        outcome := AsksHuman;
      } else if rec.kind !in HANDLED_KINDS {
        outcome := RecordsDenial("no handler for kind " + rec.kind);
      } else {
        outcome := Acts;
      }
    }
  }

  // ----- the monitor -----

  class RollbackAgent {
    var inflight: set<ActionId>
    var tasks: map<ActionId, Task>

    ghost predicate Valid()
      reads this
    {
      inflight == tasks.Keys && forall id :: id in tasks ==> tasks[id].event.id == id
    }

    /** This agent's part of a state of the loop. */
    ghost predicate Matches(s: State)
      reads this
    {
      s.inflight == inflight && s.tasks == tasks
    }

    constructor ()
      ensures Valid() && Matches(Init())
    {
      inflight, tasks := {}, map[];
    }

    method HandleExecuted(event: Executed, ghost s: State)
      requires Valid() && Matches(s)
      modifies this
      ensures Valid() && Matches(DeliverStep(s, event))
    {
      if !event.success { return; }
      if |event.pre| == 0 { return; }
      if event.id in inflight { return; }
      inflight := inflight + {event.id};
      tasks := tasks[event.id := Measuring(event)];
    }

    /** Returns what `_trigger_revert` is called with, if it is. */
    method VerifyAction(id: ActionId, metrics: seq<string>, post: Kpis,
                        ghost s: State) returns (regressions: map<string, (real, real)>)
      requires Valid() && Matches(s) && id in tasks && tasks[id].Measuring?
      requires forall m :: m in tasks[id].event.pre <==> m in metrics
      modifies this
      ensures Valid() && Matches(VerifyStep(s, id, post))
      ensures VerifyStep(s, id, post).log == s.log
          + if regressions == map[] then [] else [RevertCalled(id, regressions)]
      ensures var pre := old(tasks)[id].event.pre;
              && (forall m :: m in regressions <==>
                    m in pre && m in post
                    && if m in {"fan.rpm", "net.port.up", "psu.efficiency.percent"} then post[m] < 0.9 * pre[m]
                       else post[m] > 1.1 * pre[m])
              && forall m :: m in regressions ==> regressions[m] == (pre[m], post[m])
    {
      var event := tasks[id].event;
      regressions := FindRegressions(event.pre, metrics, post);
      if regressions == map[] {
        Finish(id, s);
      } else {
        tasks := tasks[id := Reverting(event)];
      }
    }

    /** The `finally` of `_verify_later`, after a return as after an exception. */
    method Finish(id: ActionId, ghost s: State)
      requires Valid() && Matches(s) && id in tasks
      modifies this
      ensures Valid() && Matches(FinishTask(s, id))
    {
      inflight, tasks := inflight - {id}, tasks - {id};
    }
  }

  /** The loop over the pre-action KPIs. */
  method FindRegressions(pre: Kpis, metrics: seq<string>, post: Kpis) returns (found: map<string, (real, real)>)
    requires forall m :: m in pre <==> m in metrics
    ensures found == Regressions(pre, post)
    ensures forall m :: m in found <==>
              m in pre && m in post
              && if m in {"fan.rpm", "net.port.up", "psu.efficiency.percent"} then post[m] < 0.9 * pre[m]
                 else post[m] > 1.1 * pre[m]
    ensures forall m :: m in found ==> found[m] == (pre[m], post[m])
  {
    hide IsRegression;
    RegressionsInNumbers(pre, post);
    found := map[];
    for i := 0 to |metrics|
      invariant found == map m | m in Regressions(pre, post) && m in metrics[..i] :: Regressions(pre, post)[m]
    {
      var m := metrics[i];
      if m in post && IsRegression(m, pre[m], post[m], REGRESSION_THRESHOLD) {
        found := found[m := (pre[m], post[m])];
      }
    }
    assert metrics[..|metrics|] == metrics;
  }
}
