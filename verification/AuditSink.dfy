/** The audit sink (apps/audit/sink.py): stream entries are put into the object store
    under a content-addressed key and only then acknowledged. */
module AuditSink {
  type Bytes = seq<int>
  type Id = nat

  /** The stream and the digest function, which do not change during a run. */
  datatype World = World(payloads: map<Id, Bytes>, hash: Bytes -> int)

  /** `audit/<day>/<digest>.json` */
  datatype Key = Key(day: int, digest: int)

  function ObjectKey(w: World, payload: Bytes, day: int): (k: Key)
  {
    Key(day, w.hash(payload))
  }

  /** Where `_process_entry` is suspended. */
  datatype Work = Idle | Putting(id: Id) | Acking(id: Id)

  /** `queue` is what is left of the batch read; `acked` and `delivered` are kept by the
      consumer group, whose pending entries are the delivered ones not acknowledged. */
  datatype State = State(delivered: set<Id>, acked: set<Id>, queue: seq<Id>, work: Work, store: map<Key, Bytes>)

  function Pending(s: State): (r: set<Id>) { s.delivered - s.acked }

  /** `PutReturns` says whether the client reported success and whether the object was
      stored: a reported failure may still have stored it.  `Redeliver` hands pending
      entries out again, which the sink itself never asks for.  No reply of the stream
      lists an entry twice. */
  datatype Step =
    | Read(ids: seq<Id>)
    | Redeliver(ids: seq<Id>)
    | Start
    | PutReturns(ok: bool, stored: bool, day: int)
    | AckReturns
    | Crash

  predicate Distinct(ids: seq<Id>) {
    forall i, j :: 0 <= i < j < |ids| ==> ids[i] != ids[j]
  }

  predicate Enabled(w: World, s: State, a: Step) {
    match a
    case Read(ids) =>
      s.work.Idle? && s.queue == [] && Distinct(ids) && forall id :: id in ids ==>
          id in w.payloads && id !in s.delivered
    case Redeliver(ids) => s.work.Idle? && s.queue == [] && Distinct(ids) && forall id :: id in ids ==> id in Pending(s)
    case Start => s.work.Idle? && s.queue != []
    case PutReturns(ok, stored, _) => s.work.Putting? && (ok ==> stored)
    case AckReturns => s.work.Acking?
    case Crash => true
  }

  function Payload(w: World, id: Id): (p: Bytes)
  {
    if id in w.payloads then w.payloads[id] else []
  }

  function Next(w: World, s: State, a: Step): (r: State)
    requires Enabled(w, s, a)
  {
    match a
    case Read(ids) => s.(delivered := s.delivered + (set id | id in ids), queue := ids)
    case Redeliver(ids) => s.(queue := ids)
    case Start =>
      var id := s.queue[0];
      s.(queue := s.queue[1..], work := if Payload(w, id) == [] then Acking(id) else Putting(id))
    case PutReturns(ok, stored, day) =>
      var body := Payload(w, s.work.id);
      s.(store := if stored then s.store[ObjectKey(w, body, day) := body] else s.store,
         work := if ok then Acking(s.work.id) else Idle)
    case AckReturns => s.(acked := s.acked + {s.work.id}, work := Idle)
    case Crash => s.(queue := [], work := Idle)
  }

  function Init(): (s: State) { State({}, {}, [], Idle, map[]) }

  ghost predicate IsRun(w: World, states: seq<State>, steps: seq<Step>) {
    && |states| == |steps| + 1
    && states[0] == Init()
    && forall i :: 0 <= i < |steps| ==> Enabled(w, states[i], steps[i]) && states[i + 1] == Next(w, states[i], steps[i])
  }

  lemma RunExtended(w: World, states: seq<State>, steps: seq<Step>, a: Step)
    requires IsRun(w, states, steps) && Enabled(w, states[|steps|], a)
    ensures IsRun(w, states + [Next(w, states[|steps|], a)], steps + [a])
  {
  }

  // ----- safety -----

  ghost predicate NoCollisions(w: World) {
    forall a, b :: a in w.payloads && b in w.payloads && w.payloads[a] != [] && w.payloads[b] != []
        && w.hash(w.payloads[a]) == w.hash(w.payloads[b])
      ==> w.payloads[a] == w.payloads[b]
  }

  /** Some object holds exactly the payload of the entry. */
  ghost predicate Stored(w: World, s: State, id: Id) {
    exists k :: k in s.store && k.digest == w.hash(Payload(w, id)) && s.store[k] == Payload(w, id)
  }

  ghost predicate Known(s: State) {
    && (forall id :: id in s.queue ==> id in s.delivered)
    && (!s.work.Idle? ==> s.work.id in s.delivered)
    && s.acked <= s.delivered
  }

  /** Every acknowledged non-empty entry is stored, and so is one about to be. */
  ghost predicate AckedAreStored(w: World, s: State) {
    && (forall id :: id in s.acked && Payload(w, id) != [] ==> Stored(w, s, id))
    && (s.work.Acking? && Payload(w, s.work.id) != [] ==> Stored(w, s, s.work.id))
    && (s.work.Putting? ==> Payload(w, s.work.id) != [])
  }

  /** Every object's digest is that of its content, the content of some entry. */
  ghost predicate Addressed(w: World, s: State) {
    forall k :: k in s.store ==>
      k.digest == w.hash(s.store[k]) && exists id ::
          id in w.payloads && w.payloads[id] != [] && w.payloads[id] == s.store[k]
  }

  lemma StoreOnlyGrows(w: World, s: State, a: Step)
    requires Enabled(w, s, a) && NoCollisions(w) && Addressed(w, s) && AckedAreStored(w, s)
    ensures forall k :: k in s.store ==> k in Next(w, s, a).store && Next(w, s, a).store[k] == s.store[k]
  {
    if a.PutReturns? && a.stored {
      var body := Payload(w, s.work.id);
      var k := ObjectKey(w, body, a.day);
      if k in s.store {
        var id :| id in w.payloads && w.payloads[id] != [] && w.payloads[id] == s.store[k];
        assert w.hash(w.payloads[id]) == w.hash(w.payloads[s.work.id]);
      }
    }
  }

  lemma StepKeepsSafe(w: World, s: State, a: Step)
    requires Enabled(w, s, a) && NoCollisions(w)
    requires Known(s) && AckedAreStored(w, s) && Addressed(w, s)
    ensures Known(Next(w, s, a)) && AckedAreStored(w, Next(w, s, a)) && Addressed(w, Next(w, s, a))
  {
    var s' := Next(w, s, a);
    StoreOnlyGrows(w, s, a);
    forall id | Stored(w, s, id) ensures Stored(w, s', id) {
      var k :| k in s.store && k.digest == w.hash(Payload(w, id)) && s.store[k] == Payload(w, id);
      assert k in s'.store && s'.store[k] == s.store[k];
    }
    if a.PutReturns? && a.stored {
      var k := ObjectKey(w, Payload(w, s.work.id), a.day);
      assert k in s'.store && s'.store[k] == Payload(w, s.work.id);
    }
  }

  /** MAIN: over every run with failed puts, crashes and redeliveries, and without hash
      collisions: each delivered entry is pending or acknowledged, each acknowledged
      non-empty entry is stored with exactly its payload, and no object ever changes. */
  lemma {:induction false} NothingIsLost(w: World, states: seq<State>, steps: seq<Step>, i: nat)
    requires IsRun(w, states, steps) && NoCollisions(w) && i <= |steps|
    ensures var s := states[|steps|];
            && s.delivered == Pending(s) + s.acked && Pending(s) !! s.acked
            && Known(s) && AckedAreStored(w, s) && Addressed(w, s)
            && forall k :: k in states[i].store ==> k in s.store && s.store[k] == states[i].store[k]
    decreases |steps|
  {
    if steps != [] {
      var n := |steps| - 1;
      assert IsRun(w, states[..n + 1], steps[..n]);
      NothingIsLost(w, states[..n + 1], steps[..n], if i <= n then i else n);
      StepKeepsSafe(w, states[n], steps[n]);
      StoreOnlyGrows(w, states[n], steps[n]);
    }
  }

  // ----- when the two assumptions fail -----

  /** The run that reads, puts on day `day` and acknowledges two entries in turn. */
  function TwoPuts(a: Id, b: Id, day: int): (steps: seq<Step>)
  {
    [Read([a, b]), Start, PutReturns(true, true, day), AckReturns, Start, PutReturns(true, true, day), AckReturns]
  }

  /** Two colliding payloads on one day: the first entry ends up acknowledged with no
      object holding its payload. */
  lemma CollisionLosesAnEntry(w: World, a: Id, b: Id, day: int) returns (states: seq<State>)
    requires a in w.payloads && b in w.payloads && w.payloads[a] != [] && w.payloads[b] != []
    requires w.payloads[a] != w.payloads[b] && w.hash(w.payloads[a]) == w.hash(w.payloads[b])
    ensures IsRun(w, states, TwoPuts(a, b, day))
    ensures var s := states[7]; a in s.acked && !Stored(w, s, a)
  {
    var steps := TwoPuts(a, b, day);
    var s1 := Next(w, Init(), steps[0]);
    var s2 := Next(w, s1, steps[1]);
    var s3 := Next(w, s2, steps[2]);
    var s4 := Next(w, s3, steps[3]);
    var s5 := Next(w, s4, steps[4]);
    var s6 := Next(w, s5, steps[5]);
    var s7 := Next(w, s6, steps[6]);
    states := [Init(), s1, s2, s3, s4, s5, s6, s7];
    var k := ObjectKey(w, w.payloads[b], day);
    assert s7.store.Keys == {k} && s7.store[k] == w.payloads[b];
  }

  /** Every acknowledged non-empty entry of the state is stored. */
  ghost predicate Faithful(w: World, s: State) {
    forall id :: id in s.acked && Payload(w, id) != [] ==> Stored(w, s, id)
  }

  /** MAIN: acknowledged entries are stored in all runs exactly when no two different
      non-empty payloads of the stream share a digest. */
  lemma FaithfulIffNoCollisions(w: World)
    ensures NoCollisions(w) <==>
              forall states: seq<State>, steps: seq<Step> :: IsRun(w, states, steps) ==> Faithful(w, states[|steps|])
  {
    if NoCollisions(w) {
      forall states: seq<State>, steps: seq<Step> | IsRun(w, states, steps) ensures Faithful(w, states[|steps|]) {
        NothingIsLost(w, states, steps, 0);
      }
    } else {
      var a, b :| a in w.payloads && b in w.payloads && w.payloads[a] != [] && w.payloads[b] != []
                  && w.hash(w.payloads[a]) == w.hash(w.payloads[b]) && w.payloads[a] != w.payloads[b];
      var states := CollisionLosesAnEntry(w, a, b, 0);
      assert !Faithful(w, states[|TwoPuts(a, b, 0)|]);
    }
  }

  // ----- the promised retry -----

  /** What is left of a batch is distinct and pending, and so is the entry in hand. */
  ghost predicate InHand(s: State) {
    && Distinct(s.queue)
    && (forall id :: id in s.queue ==> id in Pending(s))
    && (!s.work.Idle? ==> s.work.id in Pending(s) && s.work.id !in s.queue)
    && s.acked <= s.delivered
  }

  lemma StepKeepsInHand(w: World, s: State, a: Step)
    requires Enabled(w, s, a) && InHand(s)
    ensures InHand(Next(w, s, a))
  {
    if a.Start? {
      assert s.queue[0] in s.queue;
      assert forall i :: 0 <= i < |s.queue| - 1 ==> s.queue[1..][i] == s.queue[i + 1];
      assert forall id :: id in s.queue[1..] ==> id in s.queue && id != s.queue[0];
    }
  }

  lemma {:induction false} AlwaysInHand(w: World, states: seq<State>, steps: seq<Step>)
    requires IsRun(w, states, steps)
    ensures InHand(states[|steps|])
    decreases |steps|
  {
    if steps != [] {
      var n := |steps| - 1;
      assert IsRun(w, states[..n + 1], steps[..n]);
      AlwaysInHand(w, states[..n + 1], steps[..n]);
      hide InHand;
      StepKeepsInHand(w, states[n], steps[n]);
    }
  }

  /** The entry is delivered, not acknowledged, and in nobody's hand. */
  predicate Stranded(s: State, id: Id) {
    id in Pending(s) && id !in s.queue && (s.work.Idle? || s.work.id != id)
  }

  predicate Redelivers(a: Step, id: Id) {
    a.Redeliver? && id in a.ids
  }

  lemma {:induction false} StrandedUnlessRedelivered(w: World, states: seq<State>, steps: seq<Step>, i: nat, id: Id)
    requires IsRun(w, states, steps) && i <= |steps| && Stranded(states[i], id)
    requires forall j :: i <= j < |steps| ==> !Redelivers(steps[j], id)
    ensures Stranded(states[|steps|], id)
    decreases |steps|
  {
    if i < |steps| {
      var n := |steps| - 1;
      assert IsRun(w, states[..n + 1], steps[..n]);
      StrandedUnlessRedelivered(w, states[..n + 1], steps[..n], i, id);
    }
  }

  /** MAIN: the module promises a retry after a failed put, but its own loop reads new
      entries only.  In every run, an entry whose put failed is never acknowledged
      unless somebody has it redelivered after that. */
  lemma FailedPutIsFinalUnlessRedelivered(w: World, states: seq<State>, steps: seq<Step>, i: nat)
    requires IsRun(w, states, steps) && i < |steps| && steps[i].PutReturns? && !steps[i].ok
    requires forall j :: i < j < |steps| ==> !Redelivers(steps[j], states[i].work.id)
    ensures states[|steps|].work.Idle? || states[|steps|].work.id != states[i].work.id
    ensures states[i].work.id in Pending(states[|steps|]) && states[i].work.id !in states[|steps|].queue
  {
    assert IsRun(w, states[..i + 1], steps[..i]);
    AlwaysInHand(w, states[..i + 1], steps[..i]);
    StrandedUnlessRedelivered(w, states, steps, i + 1, states[i].work.id);
  }

  /** Such a run exists for every non-empty entry of every stream. */
  lemma SomeRunStrands(w: World, id: Id, stored: bool, day: int) returns (states: seq<State>)
    requires id in w.payloads && w.payloads[id] != []
    ensures IsRun(w, states, [Read([id]), Start, PutReturns(false, stored, day)])
    ensures Stranded(states[3], id)
  {
    var s1 := Next(w, Init(), Read([id]));
    var s2 := Next(w, s1, Start);
    states := [Init(), s1, s2, Next(w, s2, PutReturns(false, stored, day))];
  }

  /** MAIN: and the redelivery is enough.  Any run that ends with one can go on so that
      the entry is acknowledged. */
  lemma RedeliveryCanAcknowledge(w: World, states: seq<State>, steps: seq<Step>, id: Id, day: int)
    returns (later: seq<State>, more: seq<Step>)
    requires IsRun(w, states, steps) && steps != [] && Redelivers(steps[|steps| - 1], id)
    ensures IsRun(w, later, steps + more) && id in later[|steps + more|].acked
    ensures later[..|states|] == states
  {
    var s := states[|steps|];
    var k :| 0 <= k < |s.queue| && s.queue[k] == id;
    later, more := QueuedCanAcknowledge(w, states, steps, k, day);
  }

  /** The entries before the k-th of the queue are served first. */
  lemma {:induction false} QueuedCanAcknowledge(w: World, states: seq<State>, steps: seq<Step>, k: nat, day: int)
    returns (later: seq<State>, more: seq<Step>)
    requires IsRun(w, states, steps) && states[|steps|].work.Idle? && k < |states[|steps|].queue|
    ensures IsRun(w, later, steps + more) && states[|steps|].queue[k] in later[|steps + more|].acked
    ensures later[..|states|] == states
    decreases k
  {
    var later1, more1 := HeadAcknowledged(w, states, steps, day);
    if k == 0 {
      later, more := later1, more1;
    } else {
      var more2;
      later, more2 := QueuedCanAcknowledge(w, later1, steps + more1, k - 1, day);
      more := more1 + more2;
      assert steps + more1 + more2 == steps + more;
      assert later[..|states|] == later[..|later1|][..|states|];
    }
  }

  lemma HeadAcknowledged(w: World, states: seq<State>, steps: seq<Step>, day: int)
    returns (later: seq<State>, more: seq<Step>)
    requires IsRun(w, states, steps) && states[|steps|].work.Idle? && states[|steps|].queue != []
    ensures IsRun(w, later, steps + more) && later[..|states|] == states
    ensures var s, s' := states[|steps|], later[|steps + more|];
            s'.work.Idle? && s'.queue == s.queue[1..] && s'.acked == s.acked + {s.queue[0]}
  {
    var s1 := Next(w, states[|steps|], Start);
    RunExtended(w, states, steps, Start);
    later, more := states + [s1], [Start];
    if s1.work.Putting? {
      RunExtended(w, later, steps + more, PutReturns(true, true, day));
      later := later + [Next(w, s1, PutReturns(true, true, day))];
      assert steps + more + [PutReturns(true, true, day)] == steps + [Start, PutReturns(true, true, day)];
      more := [Start, PutReturns(true, true, day)];
    }
    RunExtended(w, later, steps + more, AckReturns);
    later := later + [Next(w, later[|steps + more|], AckReturns)];
    assert steps + more + [AckReturns] == steps + (more + [AckReturns]);
    more := more + [AckReturns];
  }

  /** A crash can come at any time; it strands every pending entry and stores nothing. */
  lemma CrashStrandsPending(w: World, s: State)
    ensures Enabled(w, s, Crash)
    ensures var s' := Next(w, s, Crash);
            s'.store == s.store && Pending(s') == Pending(s) && forall id :: id in Pending(s) ==> Stranded(s', id)
  {
  }

  // ----- redelivery and the object store -----

  lemma ObjectsAfterPut(store: map<Key, Bytes>, key: Key, body: Bytes)
    ensures |store[key := body]| == |store| + if key in store then 0 else 1
  {
    assert store[key := body].Keys == store.Keys + {key};
    assert |store| == |store.Keys| && |store[key := body]| == |store[key := body].Keys|;
  }

  /** In every run without collisions, a put that stores adds an object if no object of
      that day holds the payload already, and otherwise leaves the store as it is. */
  lemma PutAddsObjectIff(w: World, states: seq<State>, steps: seq<Step>, ok: bool, day: int)
    requires IsRun(w, states, steps) && NoCollisions(w)
    requires Enabled(w, states[|steps|], PutReturns(ok, true, day))
    ensures var s, s' := states[|steps|], Next(w, states[|steps|], PutReturns(ok, true, day));
            if exists k :: k in s.store && k.day == day && s.store[k] == Payload(w, s.work.id)
            then s'.store == s.store
            else |s'.store| == |s.store| + 1
  {
    NothingIsLost(w, states, steps, 0);
    hide NoCollisions, AckedAreStored, Known, IsRun;
    var s, body := states[|steps|], Payload(w, states[|steps|].work.id);
    var key := ObjectKey(w, body, day);
    ObjectsAfterPut(s.store, key, body);
    assert forall k :: k in s.store && k.day == day && s.store[k] == body ==> k == key;
    if key in s.store { SameObject(w, s, day); }
  }

  lemma SameObject(w: World, s: State, day: int)
    requires NoCollisions(w) && Addressed(w, s) && AckedAreStored(w, s) && s.work.Putting?
    requires ObjectKey(w, Payload(w, s.work.id), day) in s.store
    ensures s.store[ObjectKey(w, Payload(w, s.work.id), day)] == Payload(w, s.work.id)
  {
    var key := ObjectKey(w, Payload(w, s.work.id), day);
    var id :| id in w.payloads && w.payloads[id] != [] && w.payloads[id] == s.store[key];
    assert w.hash(w.payloads[id]) == w.hash(w.payloads[s.work.id]);
  }

  /** So a retry on another day stores a second object with the same content. */
  lemma RetryOnAnotherDayStoresTwice(w: World, id: Id, day: int, later: int) returns (states: seq<State>)
    requires id in w.payloads && w.payloads[id] != [] && day != later
    ensures IsRun(w, states, [Read([id]), Start, PutReturns(false, true, day), Redeliver([id]), Start,
        PutReturns(true, true, later)])
    ensures |states[6].store| == 2 && forall k :: k in states[6].store ==> states[6].store[k] == w.payloads[id]
  {
    var s1 := Next(w, Init(), Read([id]));
    var s2 := Next(w, s1, Start);
    var s3 := Next(w, s2, PutReturns(false, true, day));
    var s4 := Next(w, s3, Redeliver([id]));
    var s5 := Next(w, s4, Start);
    var s6 := Next(w, s5, PutReturns(true, true, later));
    states := [Init(), s1, s2, s3, s4, s5, s6];
    var k, k' := ObjectKey(w, w.payloads[id], day), ObjectKey(w, w.payloads[id], later);
    assert s6.store == map[k := w.payloads[id], k' := w.payloads[id]];
    assert s6.store.Keys == {k, k'};
    assert |s6.store| == |s6.store.Keys|;
  }

  // ----- _process_entry as one call -----

  /** What the call does to the store and the acknowledgements. */
  class Sink {
    const world: World
    var acked: set<Id>
    var store: map<Key, Bytes>
    ghost var delivered: set<Id>

    ghost function Abs(queue: seq<Id>, work: Work): State
      reads this
    {
      State(delivered, acked, queue, work, store)
    }

    constructor (world: World)
      ensures this.world == world && Abs([], Idle) == Init()
    {
      this.world, acked, store, delivered := world, {}, map[], {};
    }

    /** Ends in the state that the steps of the machine lead to; true iff it acknowledged. */
    method ProcessEntry(id: Id, ok: bool, stored: bool, day: int) returns (done: bool)
      requires ok ==> stored
      modifies this
      ensures delivered == old(delivered)
      ensures done <==> Payload(world, id) == [] || ok
      ensures var s1 := Next(world, old(Abs([id], Idle)), Start);
              var s2 := if s1.work.Putting? then Next(world, s1, PutReturns(ok, stored, day)) else s1;
              Abs([], Idle) == if s2.work.Acking? then Next(world, s2, AckReturns) else s2
    {
      var body := Payload(world, id);
      if body == [] {
        acked := acked + {id};
        return true;
      }
      if stored { store := store[ObjectKey(world, body, day) := body]; }
      if !ok { return false; }
      acked := acked + {id};
      return true;
    }
  }
}
