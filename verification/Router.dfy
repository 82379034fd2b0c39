/** The LLM router's budget ledger (apps/agents/shared/llm_router.py).

    A call resets the ledger on a new day and checks the budget, then suspends in the
    backend, and is charged only when it returns: any number of calls can pass the check
    before the first is charged. */
module Router {
  datatype Tier = Haiku | Sonnet

  /** `paid` says that the backend is the paid one. */
  datatype Config = Config(budget: real, paid: bool)

  /** A call between its check and its charge. */
  datatype Flight = Flight(tier: Tier, downgraded: bool)

  datatype Record = Record(tier: Tier, cost: real, downgraded: bool)

  /** `ledger` are the call records since the last reset. */
  datatype State = State(spent: real, resetDay: int, flights: map<nat, Flight>, ledger: seq<Record>)

  datatype Step =
    | Begin(id: nat, today: int, requested: Tier)
    | Finish(id: nat, tokensIn: nat, tokensOut: nat)
    | Fail(id: nat)

  function Cost(paid: bool, tier: Tier, tokensIn: nat, tokensOut: nat): (c: real)
    ensures c >= 0.0 && (!paid ==> c == 0.0)
  {
    if !paid then 0.0
    else match tier
      case Haiku => (tokensIn as real * 1.0 + tokensOut as real * 5.0) / 1000000.0
      case Sonnet => (tokensIn as real * 3.0 + tokensOut as real * 15.0) / 1000000.0
  }

  /** The fast tier is never dearer for the same tokens. */
  lemma DowngradeNeverCostsMore(paid: bool, tier: Tier, tokensIn: nat, tokensOut: nat)
    ensures Cost(paid, Haiku, tokensIn, tokensOut) <= Cost(paid, tier, tokensIn, tokensOut)
  {
  }

  function ResetIfNewDay(s: State, today: int): (r: State)
  {
    if today != s.resetDay then s.(spent := 0.0, resetDay := today, ledger := []) else s
  }

  function BudgetPolicy(s: State, requested: Tier, cfg: Config): (f: Flight)
  {
    if !cfg.paid || s.spent < cfg.budget then Flight(requested, false) else Flight(Haiku, true)
  }

  predicate Enabled(s: State, a: Step) {
    match a
    case Begin(id, _, _) => id !in s.flights
    case Finish(id, _, _) => id in s.flights
    case Fail(id) => id in s.flights
  }

  function Next(s: State, a: Step, cfg: Config): (r: State)
    requires Enabled(s, a)
  {
    match a
    case Begin(id, today, requested) =>
      var s1 := ResetIfNewDay(s, today);
      s1.(flights := s1.flights[id := BudgetPolicy(s1, requested, cfg)])
    case Finish(id, tokensIn, tokensOut) =>
      var f := s.flights[id];
      var cost := Cost(cfg.paid, f.tier, tokensIn, tokensOut);
      s.(spent := s.spent + cost, flights := s.flights - {id}, ledger := s.ledger
          + [Record(f.tier, cost, f.downgraded)])
    case Fail(id) => s.(flights := s.flights - {id})
  }

  function Init(today: int): (s: State) { State(0.0, today, map[], []) }

  predicate Legal(s: State, steps: seq<Step>, cfg: Config)
    decreases |steps|
  {
    steps == [] || (Enabled(s, steps[0]) && Legal(Next(s, steps[0], cfg), steps[1..], cfg))
  }

  function Exec(s: State, steps: seq<Step>, cfg: Config): (r: State)
    requires Legal(s, steps, cfg)
    decreases |steps|
  {
    if steps == [] then s else Exec(Next(s, steps[0], cfg), steps[1..], cfg)
  }

  // ----- the ledger adds up -----

  function Total(ledger: seq<Record>): (r: real)
  {
    if ledger == [] then 0.0 else Total(ledger[..|ledger| - 1]) + ledger[|ledger| - 1].cost
  }

  /** What the calls that were not downgraded cost. */
  function Full(ledger: seq<Record>): (r: real)
  {
    if ledger == [] then 0.0
    else Full(ledger[..|ledger| - 1]) + if ledger[|ledger| - 1].downgraded then 0.0 else ledger[|ledger| - 1].cost
  }

  lemma {:induction false} TotalAppend(ledger: seq<Record>, r: Record)
    ensures Total(ledger + [r]) == Total(ledger) + r.cost
    ensures Full(ledger + [r]) == Full(ledger) + if r.downgraded then 0.0 else r.cost
  {
    assert (ledger + [r])[..|ledger|] == ledger;
  }

  ghost predicate Consistent(s: State, cfg: Config) {
    && s.spent == Total(s.ledger)
    && Full(s.ledger) <= s.spent
    && (!cfg.paid ==> s.spent == 0.0)
    && (forall id :: id in s.flights && s.flights[id].downgraded ==> s.flights[id].tier == Haiku)
  }

  lemma StepKeepsConsistent(s: State, a: Step, cfg: Config)
    requires Enabled(s, a) && Consistent(s, cfg)
    ensures Consistent(Next(s, a, cfg), cfg)
  {
    if a.Finish? {
      var f := s.flights[a.id];
      TotalAppend(s.ledger, Record(f.tier, Cost(cfg.paid, f.tier, a.tokensIn, a.tokensOut), f.downgraded));
    }
  }

  /** MAIN: in every interleaving, the spend is the sum of the call records since the
      last reset. */
  lemma {:induction false} SpendIsSumOfRecords(s: State, steps: seq<Step>, cfg: Config)
    requires Consistent(s, cfg) && Legal(s, steps, cfg)
    ensures Consistent(Exec(s, steps, cfg), cfg)
    decreases |steps|
  {
    if steps != [] {
      StepKeepsConsistent(s, steps[0], cfg);
      SpendIsSumOfRecords(Next(s, steps[0], cfg), steps[1..], cfg);
    }
  }

  // ----- how far the check can be overrun -----

  /** The calls in flight that were not downgraded. */
  function FullFlights(s: State): (r: set<nat>)
  {
    FullOf(s.flights)
  }

  function FullOf(flights: map<nat, Flight>): (r: set<nat>)
  {
    set id | id in flights && !flights[id].downgraded
  }

  /** At most `k` such calls at a time, none costing more than `c`. */
  predicate WithinLimits(s: State, steps: seq<Step>, cfg: Config, k: nat, c: real)
    requires Legal(s, steps, cfg)
    decreases |steps|
  {
    && |FullFlights(s)| <= k
    && (steps != [] ==>
          && (steps[0].Finish? ==>
                Cost(cfg.paid, s.flights[steps[0].id].tier, steps[0].tokensIn, steps[0].tokensOut) <= c)
          && WithinLimits(Next(s, steps[0], cfg), steps[1..], cfg, k, c))
  }

  /** `c` charged `n` times. */
  function Charges(n: nat, c: real): (r: real)
  {
    if n == 0 then 0.0 else Charges(n - 1, c) + c
  }

  lemma {:induction false} ChargesMean(n: nat, c: real)
    ensures Charges(n, c) == n as real * c
    ensures c >= 0.0 ==> Charges(n, c) >= 0.0
  {
    if n > 0 {
      ChargesMean(n - 1, c);
      assert n as real * c == (n - 1) as real * c + c;
    }
  }

  function Floor0(x: real): (r: real) { if x < 0.0 then 0.0 else x }

  /** The room left: each call in flight has reserved one charge. */
  ghost predicate Reserved(s: State, cfg: Config, k: nat, c: real) {
    && |FullFlights(s)| <= k
    && Full(s.ledger) <= Floor0(cfg.budget) + Charges(k - |FullFlights(s)|, c)
  }

  lemma StepKeepsReserve(s: State, a: Step, cfg: Config, k: nat, c: real)
    requires Enabled(s, a) && Consistent(s, cfg) && Reserved(s, cfg, k, c) && c >= 0.0
    requires |FullFlights(Next(s, a, cfg))| <= k
    requires a.Finish? ==> Cost(cfg.paid, s.flights[a.id].tier, a.tokensIn, a.tokensOut) <= c
    ensures Reserved(Next(s, a, cfg), cfg, k, c)
  {
    var s' := Next(s, a, cfg);
    ChargesNonNegative(k - |FullFlights(s')|, c);
    FlightsStep(s, a, cfg);
    hide FullOf, Cost;
    match a
    case Finish(id, tin, tout) =>
      var f := s.flights[id];
      TotalAppend(s.ledger, Record(f.tier, Cost(cfg.paid, f.tier, tin, tout), f.downgraded));
    case _ =>
  }

  lemma {:induction false} ChargesNonNegative(n: nat, c: real)
    requires c >= 0.0
    ensures Charges(n, c) >= 0.0
  {
    ChargesMean(n, c);
  }

  /** How a step changes the number of calls in flight that were not downgraded. */
  lemma FlightsStep(s: State, a: Step, cfg: Config)
    requires Enabled(s, a)
    ensures var now, later := FullFlights(s), FullFlights(Next(s, a, cfg));
            match a
            case Begin(id, _, _) => |later| == |now| + if Next(s, a, cfg).flights[id].downgraded then 0 else 1
            case _ => |later| == |now| - if s.flights[a.id].downgraded then 0 else 1
  {
    match a
    case Begin(id, _, _) => FlightAdded(s.flights, id, Next(s, a, cfg).flights[id]);
    case _ => FlightRemoved(s.flights, a.id);
  }

  lemma FlightAdded(flights: map<nat, Flight>, id: nat, f: Flight)
    requires id !in flights
    ensures |FullOf(flights[id := f])| == |FullOf(flights)| + if f.downgraded then 0 else 1
  {
    var now, later := FullOf(flights), FullOf(flights[id := f]);
    if f.downgraded { assert later == now; } else { assert later == now + {id}; }
  }

  lemma FlightRemoved(flights: map<nat, Flight>, id: nat)
    requires id in flights
    ensures |FullOf(flights - {id})| == |FullOf(flights)| - if flights[id].downgraded then 0 else 1
  {
    var now, later := FullOf(flights), FullOf(flights - {id});
    if flights[id].downgraded { assert later == now; } else { assert later == now - {id}; }
  }

  /** MAIN: with at most `k` full-price calls in flight, each costing at most `c`, they
      never cost more than the budget plus `k` charges of `c` between two resets. */
  lemma {:induction false} OverrunBounded(s: State, steps: seq<Step>, cfg: Config, k: nat, c: real)
    requires Consistent(s, cfg) && Reserved(s, cfg, k, c) && c >= 0.0
    requires Legal(s, steps, cfg) && WithinLimits(s, steps, cfg, k, c)
    ensures Full(Exec(s, steps, cfg).ledger) <= Floor0(cfg.budget) + k as real * c
    decreases |steps|
  {
    if steps != [] {
      StepKeepsConsistent(s, steps[0], cfg);
      StepKeepsReserve(s, steps[0], cfg, k, c);
      OverrunBounded(Next(s, steps[0], cfg), steps[1..], cfg, k, c);
    } else {
      ChargesMonotone(k - |FullFlights(s)|, k, c);
      ChargesMean(k, c);
    }
  }

  lemma {:induction false} ChargesMonotone(n: nat, k: nat, c: real)
    requires n <= k && c >= 0.0
    ensures Charges(n, c) <= Charges(k, c)
    decreases k
  {
    if n < k { ChargesMonotone(n, k - 1, c); }
  }

  /** A new router meets the premises. */
  lemma InitHasReserve(today: int, cfg: Config, k: nat, c: real)
    requires c >= 0.0
    ensures Consistent(Init(today), cfg) && Reserved(Init(today), cfg, k, c)
  {
    assert FullFlights(Init(today)) == {};
    ChargesMean(k, c);
  }

  // ----- and that bound cannot be improved -----

  lemma {:induction false} LegalAppend(s: State, a: seq<Step>, b: seq<Step>, cfg: Config)
    requires Legal(s, a, cfg) && Legal(Exec(s, a, cfg), b, cfg)
    ensures Legal(s, a + b, cfg) && Exec(s, a + b, cfg) == Exec(Exec(s, a, cfg), b, cfg)
    decreases |a|
  {
    hide Next;
    if a == [] {
      assert a + b == b;
    } else {
      LegalAppend(Next(s, a[0], cfg), a[1..], b, cfg);
      assert (a + b)[0] == a[0] && (a + b)[1..] == a[1..] + b;
    }
  }

  lemma {:induction false} WithinAppend(s: State, a: seq<Step>, b: seq<Step>, cfg: Config, k: nat, c: real)
    requires Legal(s, a, cfg) && Legal(Exec(s, a, cfg), b, cfg)
    requires WithinLimits(s, a, cfg, k, c) && WithinLimits(Exec(s, a, cfg), b, cfg, k, c)
    ensures Legal(s, a + b, cfg) && WithinLimits(s, a + b, cfg, k, c)
    decreases |a|
  {
    hide Next, Cost;
    LegalAppend(s, a, b, cfg);
    if a == [] {
      assert a + b == b;
    } else {
      WithinAppend(Next(s, a[0], cfg), a[1..], b, cfg, k, c);
      assert (a + b)[0] == a[0] && (a + b)[1..] == a[1..] + b;
    }
  }

  function Begins(k: nat, today: int, tier: Tier): (steps: seq<Step>)
  {
    if k == 0 then [] else [Begin(k - 1, today, tier)] + Begins(k - 1, today, tier)
  }

  function Finishes(k: nat, tokensIn: nat, tokensOut: nat): (steps: seq<Step>)
  {
    if k == 0 then [] else [Finish(k - 1, tokensIn, tokensOut)] + Finishes(k - 1, tokensIn, tokensOut)
  }

  /** `k` calls are in flight on `tier`, none downgraded. */
  predicate AllFlying(s: State, k: nat, tier: Tier) {
    forall id: nat :: id < k ==> id in s.flights && s.flights[id] == Flight(tier, false)
  }

  lemma {:induction false} AllBegin(s: State, k: nat, today: int, tier: Tier, cfg: Config, limit: nat, c: real)
    requires s.resetDay == today && (!cfg.paid || s.spent < cfg.budget)
    requires forall id: nat :: id < k ==> id !in s.flights
    requires |FullFlights(s)| + k <= limit
    ensures Legal(s, Begins(k, today, tier), cfg) && WithinLimits(s, Begins(k, today, tier), cfg, limit, c)
    ensures var r := Exec(s, Begins(k, today, tier), cfg);
            && AllFlying(r, k, tier) && r.ledger == s.ledger && |FullFlights(r)| == |FullFlights(s)| + k
            && forall id :: id in s.flights ==> id in r.flights && r.flights[id] == s.flights[id]
    decreases k
  {
    hide FullOf;
    if k > 0 {
      var steps := Begins(k, today, tier);
      assert steps[0] == Begin(k - 1, today, tier) && steps[1..] == Begins(k - 1, today, tier);
      FlightsStep(s, steps[0], cfg);
      AllBegin(Next(s, steps[0], cfg), k - 1, today, tier, cfg, limit, c);
    }
  }

  lemma FinishStep(s: State, id: nat, tier: Tier, tokensIn: nat, tokensOut: nat, cfg: Config)
    requires AllFlying(s, id + 1, tier)
    ensures Enabled(s, Finish(id, tokensIn, tokensOut)) && s.flights[id].tier == tier
    ensures var r := Next(s, Finish(id, tokensIn, tokensOut), cfg);
            && AllFlying(r, id, tier) && |FullFlights(r)| == |FullFlights(s)| - 1
            && Full(r.ledger) == Full(s.ledger) + Cost(cfg.paid, tier, tokensIn, tokensOut)
  {
    hide Cost, FullOf, Full, Total;
    assert s.flights[id] == Flight(tier, false);
    TotalAppend(s.ledger, Record(tier, Cost(cfg.paid, tier, tokensIn, tokensOut), false));
    FlightsStep(s, Finish(id, tokensIn, tokensOut), cfg);
  }

  lemma {:induction false} AllFinish(s: State, k: nat, tier: Tier, tokensIn: nat, tokensOut: nat, cfg: Config,
                                     limit: nat)
    requires AllFlying(s, k, tier) && |FullFlights(s)| <= limit
    ensures Legal(s, Finishes(k, tokensIn, tokensOut), cfg)
    ensures WithinLimits(s, Finishes(k, tokensIn, tokensOut), cfg, limit, Cost(cfg.paid, tier, tokensIn, tokensOut))
    ensures Full(Exec(s, Finishes(k, tokensIn, tokensOut), cfg).ledger)
         == Full(s.ledger) + Charges(k, Cost(cfg.paid, tier, tokensIn, tokensOut))
    decreases k
  {
    hide FullOf, Cost, Next, AllFlying, Full;
    if k > 0 {
      var steps := Finishes(k, tokensIn, tokensOut);
      assert steps[0] == Finish(k - 1, tokensIn, tokensOut) && steps[1..] == Finishes(k - 1, tokensIn, tokensOut);
      FinishStep(s, k - 1, tier, tokensIn, tokensOut, cfg);
      AllFinish(Next(s, steps[0], cfg), k - 1, tier, tokensIn, tokensOut, cfg, limit);
    }
  }

  /** One call, and then `k` more at a time. */
  function OneThenMany(today: int, k: nat, tier: Tier, tokensIn: nat, tokensOut: nat): (steps: seq<Step>)
  {
    [Begin(0, today, tier), Finish(0, tokensIn, tokensOut)]
        + (Begins(k, today, tier) + Finishes(k, tokensIn, tokensOut))
  }

  /** MAIN: the bound cannot be improved: whatever the price c of a call, the number k of
      concurrent calls and the gap, there is a budget for which some run within those
      limits charges budget + k * c minus that gap. */
  lemma {:induction false} BoundApproached(today: int, k: nat, tier: Tier, tokensIn: nat, tokensOut: nat, gap: real)
    requires k > 0 && gap > 0.0
    ensures
      (var c := Cost(true, tier, tokensIn, tokensOut);
       var cfg, steps := Config(c + gap, true), OneThenMany(today, k, tier, tokensIn, tokensOut);
       && Legal(Init(today), steps, cfg) && WithinLimits(Init(today), steps, cfg, k, c)
       && Full(Exec(Init(today), steps, cfg).ledger) == cfg.budget + k as real * c - gap)
  {
    var c := Cost(true, tier, tokensIn, tokensOut);
    var cfg := Config(c + gap, true);
    hide Cost, FullOf, BudgetPolicy;
    var one := [Begin(0, today, tier), Finish(0, tokensIn, tokensOut)];
    var s := OneCall(today, tier, tokensIn, tokensOut, cfg, k);
    AllBegin(s, k, today, tier, cfg, k, c);
    var mid := Exec(s, Begins(k, today, tier), cfg);
    AllFinish(mid, k, tier, tokensIn, tokensOut, cfg, k);
    ChargesMean(k, c);
    LegalAppend(s, Begins(k, today, tier), Finishes(k, tokensIn, tokensOut), cfg);
    WithinAppend(s, Begins(k, today, tier), Finishes(k, tokensIn, tokensOut), cfg, k, c);
    LegalAppend(Init(today), one, Begins(k, today, tier) + Finishes(k, tokensIn, tokensOut), cfg);
    WithinAppend(Init(today), one, Begins(k, today, tier) + Finishes(k, tokensIn, tokensOut), cfg, k, c);
  }

  lemma {:induction false} TwoSteps(s: State, a: Step, b: Step, cfg: Config, k: nat, c: real)
    requires Enabled(s, a) && Enabled(Next(s, a, cfg), b) && a.Begin?
    ensures Legal(s, [a, b], cfg) && Exec(s, [a, b], cfg) == Next(Next(s, a, cfg), b, cfg)
    ensures var s1 := Next(s, a, cfg);
            WithinLimits(s, [a, b], cfg, k, c) <==>
              && |FullFlights(s)| <= k && |FullFlights(s1)| <= k && |FullFlights(Next(s1, b, cfg))| <= k
              && (b.Finish? ==> Cost(cfg.paid, s1.flights[b.id].tier, b.tokensIn, b.tokensOut) <= c)
  {
    hide Next, Cost, FullFlights;
    assert [a, b][1..] == [b] && [b][1..] == [];
    var s1 := Next(s, a, cfg);
    assert Legal(s1, [b], cfg) && Exec(s1, [b], cfg) == Next(s1, b, cfg);
    var s2 := Next(s1, b, cfg);
    assert WithinLimits(s2, [], cfg, k, c) <==> |FullFlights(s2)| <= k;
    assert WithinLimits(s1, [b], cfg, k, c) <==>
        |FullFlights(s1)| <= k && WithinLimits(s2, [], cfg, k, c)
        && (b.Finish? ==> Cost(cfg.paid, s1.flights[b.id].tier, b.tokensIn, b.tokensOut) <= c);
  }

  /** The first call of the day. */
  lemma OneCall(today: int, tier: Tier, tokensIn: nat, tokensOut: nat, cfg: Config, k: nat) returns (s: State)
    requires cfg.paid && 0.0 < cfg.budget && k > 0
    ensures
      (var c, steps := Cost(true, tier, tokensIn, tokensOut), [Begin(0, today, tier), Finish(0, tokensIn, tokensOut)];
       && Legal(Init(today), steps, cfg) && s == Exec(Init(today), steps, cfg)
       && WithinLimits(Init(today), steps, cfg, k, c)
       && s == State(c, today, map[], [Record(tier, c, false)]) && Full(s.ledger) == c && FullFlights(s) == {})
  {
    var c, steps := Cost(true, tier, tokensIn, tokensOut), [Begin(0, today, tier), Finish(0, tokensIn, tokensOut)];
    hide Cost, WithinLimits, Legal, Exec;
    var s1 := Next(Init(today), steps[0], cfg);
    s := Next(s1, steps[1], cfg);
    TwoSteps(Init(today), steps[0], steps[1], cfg, k, c);
    assert s1.flights == map[0 := Flight(tier, false)] && s.flights == map[];
    assert FullFlights(Init(today)) == {} && FullFlights(s1) == {0} && FullFlights(s) == {};
    TotalAppend([], Record(tier, c, false));
    assert [] + [Record(tier, c, false)] == [Record(tier, c, false)];
  }

  // ----- what is not bounded -----

  /** `n` calls, one after the other. */
  function InTurn(n: nat, today: int, tokensIn: nat, tokensOut: nat): (steps: seq<Step>)
  {
    if n == 0 then []
    else [Begin(0, today, Haiku), Finish(0, tokensIn, tokensOut)] + InTurn(n - 1, today, tokensIn, tokensOut)
  }

  /** One call, from its check to its charge, with nothing else in flight. */
  lemma {:induction false} SoloCall(s: State, tokensIn: nat, tokensOut: nat, cfg: Config)
    requires s.flights == map[] && cfg.paid
    ensures
      (var c, steps := Cost(true, Haiku, tokensIn, tokensOut),
          [Begin(0, s.resetDay, Haiku), Finish(0, tokensIn, tokensOut)];
       && Legal(s, steps, cfg) && WithinLimits(s, steps, cfg, 1, c)
       && var r := Exec(s, steps, cfg);
          r.flights == map[] && r.resetDay == s.resetDay && Total(r.ledger) == Total(s.ledger) + c)
  {
    var c, a, b := Cost(true, Haiku, tokensIn, tokensOut), Begin(0, s.resetDay, Haiku), Finish(0, tokensIn, tokensOut);
    hide Cost, WithinLimits, Legal, Exec, Total;
    var s1 := Next(s, a, cfg);
    var s2 := Next(s1, b, cfg);
    TwoSteps(s, a, b, cfg, 1, c);
    assert s2.flights == map[];
    assert FullFlights(s) == {} && FullFlights(s2) == {};
    FlightsStep(s, a, cfg);
    TotalAppend(s.ledger, s2.ledger[|s.ledger|]);
  }

  lemma {:induction false} InTurnCosts(s: State, n: nat, tokensIn: nat, tokensOut: nat, cfg: Config)
    requires s.flights == map[] && cfg.paid
    ensures
      (var c, steps := Cost(true, Haiku, tokensIn, tokensOut), InTurn(n, s.resetDay, tokensIn, tokensOut);
       && Legal(s, steps, cfg) && WithinLimits(s, steps, cfg, 1, c)
       && Total(Exec(s, steps, cfg).ledger) == Total(s.ledger) + Charges(n, c))
    decreases n
  {
    var c, day := Cost(true, Haiku, tokensIn, tokensOut), s.resetDay;
    hide Cost, Next, Total;
    assert FullFlights(s) == {};
    if n > 0 {
      var one, rest := [Begin(0, day, Haiku), Finish(0, tokensIn, tokensOut)], InTurn(n - 1, day, tokensIn, tokensOut);
      SoloCall(s, tokensIn, tokensOut, cfg);
      hide FullFlights, WithinLimits, Legal, Exec;
      InTurnCosts(Exec(s, one, cfg), n - 1, tokensIn, tokensOut, cfg);
      LegalAppend(s, one, rest, cfg);
      WithinAppend(s, one, rest, cfg, 1, c);
    }
  }

  /** MAIN: spend that counts downgraded calls too has no bound: on the paid backend, with
      any budget and never two calls at a time, it passes every amount. */
  lemma TotalUnbounded(today: int, cfg: Config, amount: real) returns (steps: seq<Step>)
    requires cfg.paid
    ensures Legal(Init(today), steps, cfg) && WithinLimits(Init(today), steps, cfg, 1, Cost(true, Haiku, 1, 0))
    ensures Exec(Init(today), steps, cfg).spent > amount
  {
    var c := Cost(true, Haiku, 1, 0);
    var n: nat := if amount < 0.0 then 1 else (amount * 1000000.0).Floor + 1;
    steps := InTurn(n, today, 1, 0);
    InTurnCosts(Init(today), n, 1, 0, cfg);
    ChargesMean(n, c);
    assert n as real * c == n as real / 1000000.0;
    assert Consistent(Init(today), cfg);
    SpendIsSumOfRecords(Init(today), steps, cfg);
  }

  // ----- the ledger, read off the steps -----

  /** The day of the latest `Begin`, or the first day. */
  function DayOf(steps: seq<Step>, first: int): (day: int)
  {
    if steps == [] then first
    else
      match steps[|steps| - 1]
      case Begin(_, today, _) => today
      case _ => DayOf(steps[..|steps| - 1], first)
  }

  /** The place of the first `Begin` of that day; 0 when it is still the first day. */
  function Since(steps: seq<Step>, first: int): (i: nat)
    ensures i <= |steps|
  {
    if steps == [] then 0
    else
      var n := |steps| - 1;
      if steps[n].Begin? && steps[n].today != DayOf(steps[..n], first) then n else Since(steps[..n], first)
  }

  /** What that day's check sees after these steps: what the calls finished since cost. */
  function Spend(steps: seq<Step>, first: int, today: int, cfg: Config): (r: real)
    decreases |steps|, 3
  {
    if today == DayOf(steps, first) then CostsSince(steps, Since(steps, first), first, cfg, false) else 0.0
  }

  /** The costs of the `Finish` steps from place `i` on; `full` leaves out downgraded calls. */
  function CostsSince(steps: seq<Step>, i: nat, first: int, cfg: Config, full: bool): (r: real)
    decreases |steps|, 2
  {
    if |steps| <= i then 0.0
    else
      var n := |steps| - 1;
      CostsSince(steps[..n], i, first, cfg, full)
      + match steps[n]
        case Finish(id, tokensIn, tokensOut) =>
          var f := CallOf(steps[..n], id, first, cfg);
          if full && f.downgraded then 0.0 else Cost(cfg.paid, f.tier, tokensIn, tokensOut)
        case _ => 0.0
  }

  /** The call that is in flight under this id, by its latest `Begin`: the fast tier if that
      day's spend had reached the budget by then. */
  function CallOf(steps: seq<Step>, id: nat, first: int, cfg: Config): (f: Flight)
    decreases |steps|, 1
  {
    if steps == [] then Flight(Haiku, false)
    else
      var n := |steps| - 1;
      if steps[n].Begin? && steps[n].id == id then
        if cfg.paid && Spend(steps[..n], first, steps[n].today, cfg) >= cfg.budget then Flight(Haiku, true)
        else Flight(steps[n].requested, false)
      else CallOf(steps[..n], id, first, cfg)
  }

  /** All `Begin`s from that place on are of one day, and it is the earliest such place: it
      holds a `Begin` of that day, and the `Begin` before it, if any, is of another day. */
  lemma {:induction false} SinceMeans(steps: seq<Step>, first: int)
    ensures var i := Since(steps, first);
            && (forall j :: i <= j < |steps| && steps[j].Begin? ==> steps[j].today == DayOf(steps, first))
            && (i > 0 ==> steps[i].Begin? && DayOf(steps[..i], first) != DayOf(steps, first))
            && (i == 0 && |steps| > 0 && steps[0].Begin? && steps[0].today != first ==>
                DayOf(steps, first) == steps[0].today)
            && (i == 0 && DayOf(steps, first) != first ==>
                steps != [] && steps[0].Begin? && steps[0].today == DayOf(steps, first))
  {
    if steps != [] {
      var n := |steps| - 1;
      SinceMeans(steps[..n], first);
      var i := Since(steps, first);
      if i < n { assert steps[..n][..i] == steps[..i]; }
    }
  }

  lemma {:induction false} LegalPrefix(s: State, steps: seq<Step>, cfg: Config)
    requires Legal(s, steps, cfg) && steps != []
    ensures var n := |steps| - 1;
            && Legal(s, steps[..n], cfg) && Enabled(Exec(s, steps[..n], cfg), steps[n])
            && Exec(s, steps, cfg) == Next(Exec(s, steps[..n], cfg), steps[n], cfg)
    decreases |steps|
  {
    hide Next, Enabled;
    var n := |steps| - 1;
    if n > 0 {
      LegalPrefix(Next(s, steps[0], cfg), steps[1..], cfg);
      assert steps[1..][..n - 1] == steps[..n][1..];
    }
  }

  /** The router's state says what the steps say. */
  ghost predicate Agrees(s: State, steps: seq<Step>, first: int, cfg: Config) {
    && s.resetDay == DayOf(steps, first)
    && s.spent == CostsSince(steps, Since(steps, first), first, cfg, false)
    && Full(s.ledger) == CostsSince(steps, Since(steps, first), first, cfg, true)
    && forall id :: id in s.flights ==> s.flights[id] == CallOf(steps, id, first, cfg)
  }

  lemma {:induction false} OneMoreStep(pre: seq<Step>, a: Step, i: nat, first: int, cfg: Config, full: bool)
    requires i <= |pre|
    ensures CostsSince(pre + [a], i, first, cfg, full)
         == CostsSince(pre, i, first, cfg, full)
            + match a
              case Finish(id, tin, tout) =>
                var f := CallOf(pre, id, first, cfg);
                if full && f.downgraded then 0.0 else Cost(cfg.paid, f.tier, tin, tout)
              case _ => 0.0
  {
    hide Cost;
    assert (pre + [a])[..|pre|] == pre;
  }

  lemma {:induction false} CostsOfNone(steps: seq<Step>, first: int, cfg: Config, full: bool)
    ensures CostsSince(steps, |steps|, first, cfg, full) == 0.0
  {
  }

  lemma {:induction false} OneMoreOfDay(pre: seq<Step>, a: Step, first: int, cfg: Config)
    ensures DayOf(pre + [a], first) == if a.Begin? then a.today else DayOf(pre, first)
    ensures Since(pre + [a], first) == if a.Begin? && a.today != DayOf(pre, first) then |pre| else Since(pre, first)
    ensures forall id :: CallOf(pre + [a], id, first, cfg)
                      == if a.Begin? && a.id == id then
                           if cfg.paid && Spend(pre, first, a.today, cfg) >= cfg.budget then Flight(Haiku, true)
                           else Flight(a.requested, false)
                         else CallOf(pre, id, first, cfg)
  {
    assert (pre + [a])[..|pre|] == pre;
  }

  lemma StepAgrees(s: State, pre: seq<Step>, a: Step, first: int, cfg: Config)
    requires Enabled(s, a) && Agrees(s, pre, first, cfg)
    ensures Agrees(Next(s, a, cfg), pre + [a], first, cfg)
  {
    hide Cost, CostsSince, CallOf, DayOf, Since, Full, Spend, Total;
    if a.Begin? { SpendMeans(pre, first, a.today, cfg); }
    var i := Since(pre + [a], first);
    OneMoreOfDay(pre, a, first, cfg);
    OneMoreStep(pre, a, i, first, cfg, false);
    OneMoreStep(pre, a, i, first, cfg, true);
    CostsOfNone(pre, first, cfg, false);
    CostsOfNone(pre, first, cfg, true);
    match a
    case Begin(id, today, requested) => NothingCosts();
    case Finish(id, tin, tout) =>
      var f := s.flights[id];
      TotalAppend(s.ledger, Record(f.tier, Cost(cfg.paid, f.tier, tin, tout), f.downgraded));
    case Fail(id) =>
  }

  lemma {:induction false} SpendMeans(steps: seq<Step>, first: int, today: int, cfg: Config)
    ensures Spend(steps, first, today, cfg)
         == if today == DayOf(steps, first) then CostsSince(steps, Since(steps, first), first, cfg, false) else 0.0
  {
  }

  lemma NothingCosts()
    ensures Full([]) == 0.0
  {
  }

  /** MAIN: on every interleaving from a new router: the spend is what the calls cost that
      finished since the first check of the day of the latest check, and every call in
      flight is what the spend of its day made it. */
  lemma {:induction false} LedgerReadOffSteps(first: int, steps: seq<Step>, cfg: Config)
    requires Legal(Init(first), steps, cfg)
    ensures Agrees(Exec(Init(first), steps, cfg), steps, first, cfg)
    decreases |steps|
  {
    if steps != [] {
      hide Agrees, Next, Enabled;
      var n := |steps| - 1;
      LegalPrefix(Init(first), steps, cfg);
      LedgerReadOffSteps(first, steps[..n], cfg);
      StepAgrees(Exec(Init(first), steps[..n], cfg), steps[..n], steps[n], first, cfg);
      assert steps[..n] + [steps[n]] == steps;
    }
  }

  /** MAIN: a call is downgraded exactly when what the calls finished on its day have cost,
      since the first check of that day, has reached the budget. */
  lemma {:induction false} DowngradedIff(first: int, steps: seq<Step>, id: nat, today: int, requested: Tier,
                                         cfg: Config)
    requires Legal(Init(first), steps, cfg) && Enabled(Exec(Init(first), steps, cfg), Begin(id, today, requested))
    ensures var spend := if today == DayOf(steps, first) then CostsSince(steps, Since(steps, first), first, cfg,
        false) else 0.0;
            Next(Exec(Init(first), steps, cfg), Begin(id, today, requested), cfg).flights[id]
            == if cfg.paid && spend >= cfg.budget then Flight(Haiku, true) else Flight(requested, false)
  {
    LedgerReadOffSteps(first, steps, cfg);
  }

  /** MAIN: and so the bound holds day by day: from the first check of a day on, the calls
      that were not downgraded cost at most the budget and `k` times `c`. */
  lemma {:induction false} OverrunBoundedPerDay(first: int, steps: seq<Step>, cfg: Config, k: nat, c: real)
    requires Legal(Init(first), steps, cfg) && WithinLimits(Init(first), steps, cfg, k, c) && c >= 0.0
    ensures CostsSince(steps, Since(steps, first), first, cfg, true)
         <= (if cfg.budget < 0.0 then 0.0 else cfg.budget) + k as real * c
  {
    hide WithinLimits, CostsSince;
    LedgerReadOffSteps(first, steps, cfg);
    InitHasReserve(first, cfg, k, c);
    OverrunBounded(Init(first), steps, cfg, k, c);
  }

  /** A call in flight may fail at any time, and then costs nothing. */
  lemma FailureIsFree(s: State, id: nat, cfg: Config)
    requires id in s.flights
    ensures Enabled(s, Fail(id))
    ensures var s' := Next(s, Fail(id), cfg);
        s'.spent == s.spent && s'.ledger == s.ledger && s'.flights == s.flights - {id}
  {
  }

  /** The price list, in dollars for a million tokens. */
  lemma PriceList(tokensIn: nat, tokensOut: nat)
    ensures 1000000.0 * Cost(true, Haiku, tokensIn, tokensOut) == tokensIn as real + 5.0 * tokensOut as real
    ensures 1000000.0 * Cost(true, Sonnet, tokensIn, tokensOut) == 3.0 * tokensIn as real + 15.0 * tokensOut as real
    ensures Cost(false, Haiku, tokensIn, tokensOut) == 0.0 == Cost(false, Sonnet, tokensIn, tokensOut)
  {
  }

  // ----- a downgraded call stays downgraded -----

  /** MAIN: on the paid backend a call whose check sees the spend at or over budget runs
      on the fast tier and is recorded as downgraded, whatever happens before it returns;
      any other call runs as requested. */
  lemma {:induction false} VerdictSurvives(s: State, id: nat, today: int, requested: Tier, steps: seq<Step>,
                                           cfg: Config)
    requires Enabled(s, Begin(id, today, requested))
    requires var s1 := Next(s, Begin(id, today, requested), cfg); Legal(s1, steps, cfg)
    requires forall i :: 0 <= i < |steps| ==> steps[i] != Fail(id) && (steps[i].Finish? ==> steps[i].id != id)
    ensures
      (var r, over := Exec(Next(s, Begin(id, today, requested), cfg), steps, cfg),
                      cfg.paid && (if today == s.resetDay then s.spent else 0.0) >= cfg.budget;
       id in r.flights && r.flights[id] == if over then Flight(Haiku, true) else Flight(requested, false))
  {
    FlightStays(Next(s, Begin(id, today, requested), cfg), id, steps, cfg);
  }

  lemma {:induction false} FlightStays(s: State, id: nat, steps: seq<Step>, cfg: Config)
    requires id in s.flights && Legal(s, steps, cfg)
    requires forall i :: 0 <= i < |steps| ==> steps[i] != Fail(id) && (steps[i].Finish? ==> steps[i].id != id)
    ensures var r := Exec(s, steps, cfg); id in r.flights && r.flights[id] == s.flights[id]
    decreases |steps|
  {
    if steps != [] {
      assert forall i :: 0 <= i < |steps| - 1 ==> steps[1..][i] == steps[i + 1];
      FlightStays(Next(s, steps[0], cfg), id, steps[1..], cfg);
    }
  }

  // ----- the class -----

  class LLMRouter {
    const dailyBudget: real
    const paid: bool
    var spentToday: real
    var lastResetDay: int
    ghost var flights: map<nat, Flight>
    ghost var ledger: seq<Record>

    ghost function Abs(): State
      reads this
    {
      State(spentToday, lastResetDay, flights, ledger)
    }

    ghost function Cfg(): Config { Config(dailyBudget, paid) }

    constructor (dailyBudget: real, paid: bool, today: int)
      ensures Abs() == Init(today) && this.dailyBudget == dailyBudget && this.paid == paid
    {
      this.dailyBudget, this.paid, spentToday, lastResetDay := dailyBudget, paid, 0.0, today;
      flights, ledger := map[], [];
    }

    /** `call` up to the await of the backend. */
    method BeginCall(ghost id: nat, today: int, requested: Tier) returns (tier: Tier, downgraded: bool)
      requires Enabled(Abs(), Begin(id, today, requested))
      modifies this
      ensures Abs() == Next(old(Abs()), Begin(id, today, requested), Cfg())
      ensures flights[id] == Flight(tier, downgraded)
    {
      if today != lastResetDay {
        spentToday, lastResetDay, ledger := 0.0, today, [];
      }
      if !paid || spentToday < dailyBudget {
        tier, downgraded := requested, false;
      } else {
        tier, downgraded := Haiku, true;
      }
      flights := flights[id := Flight(tier, downgraded)];
    }

    /** `call` from the backend's answer on. */
    method FinishCall(ghost id: nat, tier: Tier, downgraded: bool, tokensIn: nat,
                      tokensOut: nat) returns (record: Record)
      requires Enabled(Abs(), Finish(id, tokensIn, tokensOut)) && flights[id] == Flight(tier, downgraded)
      modifies this
      ensures Abs() == Next(old(Abs()), Finish(id, tokensIn, tokensOut), Cfg())
      ensures ledger == old(ledger) + [record]
    {
      var cost := Cost(paid, tier, tokensIn, tokensOut);
      record := Record(tier, cost, downgraded);
      spentToday := spentToday + cost;
      flights, ledger := flights - {id}, ledger + [record];
    }
  }
}
