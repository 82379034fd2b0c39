/** The optimizer's placement problem (apps/agents/optimizer/solver.py): what it asks
    CP-SAT, and what an answer means for real watts, for redundancy groups and for the
    moves it emits.

    An assignment gives each workload the index of an eligible rack; that is the "exactly
    one rack" constraint.  Workloads with the same id share their variables, hence their
    rack.  Rack ids are distinct. */
module Placement {
  import opened Wrappers

  datatype Workload = Workload(id: string, currentRack: string, power: real, thermal: real, tier: string)
  datatype Rack = Rack(id: string, pduCapacity: real, thermalHeadroom: real, inlet: real)
  datatype Move = Move(workload: string, from: string, to: string, power: real, thermal: real)

  type Assignment = seq<nat>

  const INCIDENT_PENALTY := 1000000
  const NON_AFFINITY_TIERS := {"default", "compute", "gpu", "switch"}

  // ----- numbers -----

  /** Python's int(): truncation toward zero. */
  function Trunc(x: real): (n: int)
  {
    if x >= 0.0 then x.Floor else -((-x).Floor)
  }

  /** Python's round(): halves go to the even neighbour. */
  function Round(x: real): (n: int)
    ensures -0.5 <= n as real - x <= 0.5
    ensures n as real - x == 0.5 || n as real - x == -0.5 ==> n % 2 == 0
  {
    var f := x.Floor;
    var d := x - f as real;
    if d < 0.5 then f else if d > 0.5 then f + 1 else if f % 2 == 0 then f else f + 1
  }

  // ----- loads -----

  ghost predicate On(a: Assignment, n: nat, racks: nat) {
    |a| == n && forall i :: 0 <= i < n ==> a[i] < racks
  }

  /** The sum of `xs` over the positions assigned to `r`. */
  function Load(xs: seq<int>, a: Assignment, r: nat): (s: int)
    requires |xs| == |a|
  {
    if xs == [] then 0
    else Load(xs[..|xs| - 1], a[..|a| - 1], r) + if a[|a| - 1] == r then xs[|xs| - 1] else 0
  }

  function RealLoad(xs: seq<real>, a: Assignment, r: nat): (s: real)
    requires |xs| == |a|
  {
    if xs == [] then 0.0
    else RealLoad(xs[..|xs| - 1], a[..|a| - 1], r) + if a[|a| - 1] == r then xs[|xs| - 1] else 0.0
  }

  function Ones(n: nat): (xs: seq<int>)
    ensures |xs| == n && forall i :: 0 <= i < n ==> xs[i] == 1
  {
    seq(n, i => 1)
  }

  function Count(a: Assignment, r: nat): (n: int)
  {
    Load(Ones(|a|), a, r)
  }

  // ----- the model -----

  function Scaled(x: real): (n: int) { Trunc(x * 1000.0) }

  function ScaledPower(ws: seq<Workload>): (xs: seq<int>)
    ensures |xs| == |ws|
  {
    seq(|ws|, i requires 0 <= i < |ws| => Scaled(ws[i].power))
  }

  function ScaledThermal(ws: seq<Workload>): (xs: seq<int>)
    ensures |xs| == |ws|
  {
    seq(|ws|, i requires 0 <= i < |ws| => Scaled(ws[i].thermal))
  }

  /** 1 for the members of a tier. */
  function Members(ws: seq<Workload>, tier: string): (xs: seq<int>)
    ensures |xs| == |ws|
  {
    seq(|ws|, i requires 0 <= i < |ws| => if ws[i].tier == tier then 1 else 0)
  }

  function Total(xs: seq<int>): (s: int)
  {
    if xs == [] then 0 else Total(xs[..|xs| - 1]) + xs[|xs| - 1]
  }

  function PerRackCap(n: nat, racks: nat): (c: int)
    requires racks > 0
  {
    var c := (n + racks - 1) / racks;
    if c > 1 then c else 1
  }

  function Eligible(racks: seq<Rack>): (r: seq<Rack>)
    ensures forall k :: k in r <==> k in racks && k.pduCapacity > 0.0 && k.thermalHeadroom > 0.0
  {
    if racks == [] then []
    else
      var k := racks[0];
      (if k.pduCapacity > 0.0 && k.thermalHeadroom > 0.0 then [k] else []) + Eligible(racks[1..])
  }

  lemma {:induction false} EligibleStep(k: Rack, rest: seq<Rack>, racks: seq<Rack>)
    requires racks == [k] + rest
    ensures Eligible(racks) == (if k.pduCapacity > 0.0 && k.thermalHeadroom > 0.0 then [k] else []) + Eligible(rest)
  {
    assert racks[0] == k && racks[1..] == rest;
  }

  /** Order and repetitions are kept: each rack of the list is looked at in turn. */
  lemma {:induction false} EligibleKeepsOrder(a: seq<Rack>, b: seq<Rack>)
    ensures Eligible(a + b) == Eligible(a) + Eligible(b)
  {
    hide Eligible;
    if a == [] {
      assert a + b == b;
      NoneEligible();
    } else {
      var k, rest := a[0], a[1..];
      EligibleKeepsOrder(rest, b);
      assert a == [k] + rest && a + b == [k] + (rest + b);
      EligibleStep(k, rest, a);
      EligibleStep(k, rest + b, a + b);
    }
  }

  lemma NoneEligible()
    ensures Eligible([]) == []
  {
  }

  ghost predicate SharesRacks(ws: seq<Workload>, a: Assignment)
    requires |a| == |ws|
  {
    forall i, j :: 0 <= i < j < |ws| && ws[i].id == ws[j].id ==> a[i] == a[j]
  }

  /** The constraints handed to CP-SAT. */
  ghost predicate Feasible(ws: seq<Workload>, racks: seq<Rack>, a: Assignment) {
    && On(a, |ws|, |racks|)
    && SharesRacks(ws, a)
    && (forall r :: 0 <= r < |racks| ==> Load(ScaledPower(ws), a, r) <= Scaled(racks[r].pduCapacity))
    && (forall r :: 0 <= r < |racks| ==> Load(ScaledThermal(ws), a, r) <= Scaled(racks[r].thermalHeadroom))
    && (forall tier, r :: tier !in NON_AFFINITY_TIERS && Total(Members(ws, tier)) > 1 && 0 <= r < |racks| ==>
          Load(Members(ws, tier), a, r) <= PerRackCap(Total(Members(ws, tier)), |racks|))
  }

  function BaseCost(w: Workload, r: Rack): (c: int)
  {
    Round(w.thermal * (r.inlet * r.inlet))
  }

  function CostOf(w: Workload, r: Rack, incident: string): (c: int)
  {
    BaseCost(w, r) + if r.id == incident then INCIDENT_PENALTY else 0
  }

  function Cost(ws: seq<Workload>, racks: seq<Rack>, incident: string, a: Assignment): (c: int)
    requires On(a, |ws|, |racks|)
  {
    if ws == [] then 0
    else Cost(ws[..|ws| - 1], racks, incident, a[..|a| - 1]) + CostOf(ws[|ws| - 1], racks[a[|a| - 1]], incident)
  }

  function Base(ws: seq<Workload>, racks: seq<Rack>, a: Assignment): (c: int)
    requires On(a, |ws|, |racks|)
  {
    if ws == [] then 0 else Base(ws[..|ws| - 1], racks, a[..|a| - 1]) + BaseCost(ws[|ws| - 1], racks[a[|a| - 1]])
  }

  function OnIncident(racks: seq<Rack>, incident: string, a: Assignment): (n: nat)
    requires On(a, |a|, |racks|)
  {
    if a == [] then 0
    else OnIncident(racks, incident, a[..|a| - 1]) + if racks[a[|a| - 1]].id == incident then 1 else 0
  }

  ghost predicate Optimal(ws: seq<Workload>, racks: seq<Rack>, incident: string, a: Assignment) {
    Feasible(ws, racks, a)
    && forall b :: Feasible(ws, racks, b) ==> Cost(ws, racks, incident, a) <= Cost(ws, racks, incident, b)
  }

  // ----- what the constraints and the cost say, by counting -----

  /** The members of a redundancy group. */
  ghost function Group(ws: seq<Workload>, tier: string): (members: set<nat>)
  {
    set i: nat | i < |ws| && ws[i].tier == tier
  }

  /** Those of them that are placed on rack `r`. */
  ghost function GroupOn(ws: seq<Workload>, tier: string, a: Assignment, r: nat): (members: set<nat>)
    requires |a| == |ws|
  {
    set i: nat | i < |ws| && ws[i].tier == tier && a[i] == r
  }

  /** What the workloads on rack `r` draw together, by a measure of one workload. */
  function Draw(ws: seq<Workload>, a: Assignment, r: nat, measure: Workload -> int): (s: int)
    requires |a| == |ws|
  {
    if ws == [] then 0 else (if a[0] == r then measure(ws[0]) else 0) + Draw(ws[1..], a[1..], r, measure)
  }

  function WholeMilliwatts(w: Workload): (n: int) { Trunc(w.power * 1000.0) }
  function WholeWatts(w: Workload): (n: int) { Trunc(w.thermal * 1000.0) }

  /** The limits of the problem, spelled out: every workload has a rack, equal ids share
      theirs, no rack is loaded beyond its capacity in whole milliwatts or its headroom in
      whole watts, and no rack holds more of a redundancy group of two or more than the
      group's size over the number of racks, rounded up. */
  ghost predicate Acceptable(ws: seq<Workload>, racks: seq<Rack>, a: Assignment) {
    && |a| == |ws| && (forall i :: 0 <= i < |a| ==> a[i] < |racks|)
    && (forall i, j :: 0 <= i < |ws| && 0 <= j < |ws| && ws[i].id == ws[j].id ==> a[i] == a[j])
    && (forall r :: 0 <= r < |racks| ==>
          Draw(ws, a, r, WholeMilliwatts) <= Trunc(racks[r].pduCapacity * 1000.0))
    && (forall r :: 0 <= r < |racks| ==>
          Draw(ws, a, r, WholeWatts) <= Trunc(racks[r].thermalHeadroom * 1000.0))
    && (forall tier, r ::
          tier !in {"default", "compute", "gpu", "switch"} && |Group(ws, tier)| > 1 && 0 <= r < |racks| ==>
            |GroupOn(ws, tier, a, r)| <= (|Group(ws, tier)| + |racks| - 1) / |racks|)
  }

  /** MAIN: an assignment meets the constraints handed to CP-SAT if and only if it is within
      the limits of the problem. */
  lemma FeasibleMeans(ws: seq<Workload>, racks: seq<Rack>, a: Assignment)
    ensures Feasible(ws, racks, a) <==> Acceptable(ws, racks, a)
  {
    if On(a, |ws|, |racks|) {
      hide Load, Draw, Trunc, Group, GroupOn, ScaledPower, ScaledThermal, Scaled, Members, Total, PerRackCap;
      PowerIsDraw(ws, racks, a);
      HeatIsDraw(ws, racks, a);
      SpreadIsCounted(ws, racks, a);
    }
  }

  lemma {:induction false} PowerIsDraw(ws: seq<Workload>, racks: seq<Rack>, a: Assignment)
    requires |a| == |ws|
    ensures forall r :: 0 <= r < |racks| ==>
              Load(ScaledPower(ws), a, r) == Draw(ws, a, r, WholeMilliwatts)
              && Scaled(racks[r].pduCapacity) == Trunc(racks[r].pduCapacity * 1000.0)
  {
    hide Trunc, Load, Draw;
    forall r | 0 <= r < |racks| ensures Load(ScaledPower(ws), a, r) == Draw(ws, a, r, WholeMilliwatts) {
      LoadIsDraw(ws, a, r, ScaledPower(ws), WholeMilliwatts);
    }
  }

  lemma {:induction false} HeatIsDraw(ws: seq<Workload>, racks: seq<Rack>, a: Assignment)
    requires |a| == |ws|
    ensures forall r :: 0 <= r < |racks| ==>
              Load(ScaledThermal(ws), a, r) == Draw(ws, a, r, WholeWatts)
              && Scaled(racks[r].thermalHeadroom) == Trunc(racks[r].thermalHeadroom * 1000.0)
  {
    hide Trunc, Load, Draw;
    forall r | 0 <= r < |racks| ensures Load(ScaledThermal(ws), a, r) == Draw(ws, a, r, WholeWatts) {
      LoadIsDraw(ws, a, r, ScaledThermal(ws), WholeWatts);
    }
  }

  lemma {:induction false} SpreadIsCounted(ws: seq<Workload>, racks: seq<Rack>, a: Assignment)
    requires |a| == |ws|
    ensures forall tier :: Total(Members(ws, tier)) == |Group(ws, tier)|
    ensures forall tier, r :: 0 <= r < |racks| ==> Load(Members(ws, tier), a, r) == |GroupOn(ws, tier, a, r)|
    ensures forall tier :: |racks| > 0 && |Group(ws, tier)| > 1 ==>
              PerRackCap(Total(Members(ws, tier)), |racks|) == (|Group(ws, tier)| + |racks| - 1) / |racks|
  {
    hide Load, Total, Members, Group, GroupOn, PerRackCap;
    forall tier
      ensures Total(Members(ws, tier)) == |Group(ws, tier)|
      ensures |racks| > 0 && |Group(ws, tier)| > 1 ==>
                PerRackCap(Total(Members(ws, tier)), |racks|) == (|Group(ws, tier)| + |racks| - 1) / |racks|
    {
      GroupIsTotal(ws, tier);
      if |racks| > 0 && |Group(ws, tier)| > 1 { CapIsCeiling(|Group(ws, tier)|, |racks|); }
    }
    forall tier, r | 0 <= r < |racks| ensures Load(Members(ws, tier), a, r) == |GroupOn(ws, tier, a, r)| {
      GroupOnIsLoad(ws, tier, a, r);
    }
  }

  lemma CapIsCeiling(n: nat, racks: nat)
    requires n > 0 && racks > 0
    ensures PerRackCap(n, racks) == (n + racks - 1) / racks
  {
    var q, s := n / racks, n % racks;
    CeilDiv(n, q, s, racks);
    if q == 0 { assert s == n; }
  }

  lemma {:induction false} DrawAppend(ws: seq<Workload>, a: Assignment, r: nat, measure: Workload -> int)
    requires |a| == |ws| > 0
    ensures var n := |ws| - 1;
            Draw(ws, a, r, measure) == Draw(ws[..n], a[..n], r, measure) + if a[n] == r then measure(ws[n]) else 0
  {
    var n := |ws| - 1;
    if n > 0 {
      DrawAppend(ws[1..], a[1..], r, measure);
      assert ws[1..][..n - 1] == ws[..n][1..] && a[1..][..n - 1] == a[..n][1..];
    }
  }

  lemma {:induction false} LoadIsDraw(ws: seq<Workload>, a: Assignment, r: nat, xs: seq<int>, measure: Workload -> int)
    requires |xs| == |a| == |ws| && forall i :: 0 <= i < |ws| ==> xs[i] == measure(ws[i])
    ensures Load(xs, a, r) == Draw(ws, a, r, measure)
  {
    if ws != [] {
      var n := |ws| - 1;
      LoadIsDraw(ws[..n], a[..n], r, xs[..n], measure);
      DrawAppend(ws, a, r, measure);
    }
  }

  lemma {:induction false} GroupIsTotal(ws: seq<Workload>, tier: string)
    ensures Total(Members(ws, tier)) == |Group(ws, tier)|
  {
    if ws == [] {
      assert Group(ws, tier) == {};
    } else {
      var n := |ws| - 1;
      GroupIsTotal(ws[..n], tier);
      assert Members(ws, tier)[..n] == Members(ws[..n], tier);
      assert Group(ws, tier) == Group(ws[..n], tier) + if ws[n].tier == tier then {n} else {};
    }
  }

  lemma MembersStep(ws: seq<Workload>, tier: string)
    requires ws != []
    ensures var n := |ws| - 1;
            Members(ws, tier)[..n] == Members(ws[..n], tier)
                && Members(ws, tier)[n] == if ws[n].tier == tier then 1 else 0
  {
  }

  lemma GroupOnStep(ws: seq<Workload>, tier: string, a: Assignment, r: nat)
    requires |a| == |ws| > 0
    ensures var n := |ws| - 1;
            |GroupOn(ws, tier, a, r)| == |GroupOn(ws[..n], tier, a[..n], r)| + if ws[n].tier == tier
                && a[n] == r then 1 else 0
  {
    var n := |ws| - 1;
    var all, pre := GroupOn(ws, tier, a, r), GroupOn(ws[..n], tier, a[..n], r);
    var last := if ws[n].tier == tier && a[n] == r then {n} else {};
    forall i: nat ensures i in all <==> i in pre || i in last {
      if i < n { assert ws[..n][i] == ws[i] && a[..n][i] == a[i]; }
    }
    Disjoint(all, pre, last);
  }

  lemma Disjoint(all: set<nat>, a: set<nat>, b: set<nat>)
    requires a !! b && forall i: nat :: i in all <==> i in a || i in b
    ensures |all| == |a| + |b|
  {
    assert all == a + b;
  }

  lemma {:induction false} GroupOnIsLoad(ws: seq<Workload>, tier: string, a: Assignment, r: nat)
    requires |a| == |ws|
    ensures Load(Members(ws, tier), a, r) == |GroupOn(ws, tier, a, r)|
  {
    if ws == [] {
      assert GroupOn(ws, tier, a, r) == {};
    } else {
      var n := |ws| - 1;
      GroupOnIsLoad(ws[..n], tier, a[..n], r);
      MembersStep(ws, tier);
      GroupOnStep(ws, tier, a, r);
      hide Members, GroupOn;
    }
  }

  /** The workloads on the incident rack. */
  ghost function Stays(racks: seq<Rack>, incident: string, a: Assignment): (members: set<nat>)
    requires On(a, |a|, |racks|)
  {
    set i: nat | i < |a| && racks[a[i]].id == incident
  }

  lemma {:induction false} StaysAreCounted(racks: seq<Rack>, incident: string, a: Assignment)
    requires On(a, |a|, |racks|)
    ensures OnIncident(racks, incident, a) == |Stays(racks, incident, a)|
  {
    if a == [] {
      assert Stays(racks, incident, a) == {};
    } else {
      var n := |a| - 1;
      StaysAreCounted(racks, incident, a[..n]);
      assert Stays(racks, incident, a)
          == Stays(racks, incident, a[..n]) + if racks[a[n]].id == incident then {n} else {};
    }
  }

  /** Heat load times the square of the inlet temperature, rounded. */
  function StressOf(w: Workload, r: Rack): (c: int)
  {
    Round(w.thermal * (r.inlet * r.inlet))
  }

  /** That over all workloads. */
  function Stress(ws: seq<Workload>, racks: seq<Rack>, a: Assignment): (c: int)
    requires On(a, |ws|, |racks|)
  {
    if ws == [] then 0
    else StressOf(ws[0], racks[a[0]]) + Stress(ws[1..], racks, a[1..])
  }

  lemma {:induction false} StressAppend(ws: seq<Workload>, racks: seq<Rack>, a: Assignment)
    requires On(a, |ws|, |racks|) && ws != []
    ensures var n := |ws| - 1;
            Stress(ws, racks, a) == Stress(ws[..n], racks, a[..n]) + StressOf(ws[n], racks[a[n]])
  {
    hide StressOf;
    var n := |ws| - 1;
    if n > 0 {
      StressAppend(ws[1..], racks, a[1..]);
      assert ws[1..][..n - 1] == ws[..n][1..] && a[1..][..n - 1] == a[..n][1..];
    }
  }

  lemma {:induction false} BaseIsStress(ws: seq<Workload>, racks: seq<Rack>, a: Assignment)
    requires On(a, |ws|, |racks|)
    ensures Base(ws, racks, a) == Stress(ws, racks, a)
  {
    hide Round;
    if ws != [] {
      var n := |ws| - 1;
      BaseIsStress(ws[..n], racks, a[..n]);
      StressAppend(ws, racks, a);
      assert BaseCost(ws[n], racks[a[n]]) == StressOf(ws[n], racks[a[n]]);
    }
  }

  /** MAIN: the objective is the stress and a million for each workload on the incident rack. */
  lemma {:induction false} CostMeans(ws: seq<Workload>, racks: seq<Rack>, incident: string, a: Assignment)
    requires On(a, |ws|, |racks|)
    ensures Cost(ws, racks, incident, a) == Stress(ws, racks, a) + 1_000_000 * |Stays(racks, incident, a)|
  {
    CostSplits(ws, racks, incident, a);
    BaseIsStress(ws, racks, a);
    StaysAreCounted(racks, incident, a);
  }

  // ----- the penalty is lexicographic -----

  lemma {:induction false} CostSplits(ws: seq<Workload>, racks: seq<Rack>, incident: string, a: Assignment)
    requires On(a, |ws|, |racks|)
    ensures Cost(ws, racks, incident, a) == Base(ws, racks, a) + INCIDENT_PENALTY * OnIncident(racks, incident, a)
  {
    if ws != [] { CostSplits(ws[..|ws| - 1], racks, incident, a[..|a| - 1]); }
  }

  function MaxBase(w: Workload, racks: seq<Rack>): (c: int)
    requires racks != []
    ensures forall r :: 0 <= r < |racks| ==> BaseCost(w, racks[r]) <= c
  {
    var last := BaseCost(w, racks[|racks| - 1]);
    if |racks| == 1 then last
    else
      var c := MaxBase(w, racks[..|racks| - 1]);
      assert forall r :: 0 <= r < |racks| - 1 ==> racks[..|racks| - 1][r] == racks[r];
      if c > last then c else last
  }

  function MinBase(w: Workload, racks: seq<Rack>): (c: int)
    requires racks != []
    ensures forall r :: 0 <= r < |racks| ==> c <= BaseCost(w, racks[r])
  {
    var last := BaseCost(w, racks[|racks| - 1]);
    if |racks| == 1 then last
    else
      var c := MinBase(w, racks[..|racks| - 1]);
      assert forall r :: 0 <= r < |racks| - 1 ==> racks[..|racks| - 1][r] == racks[r];
      if c < last then c else last
  }

  /** How much the base cost of two assignments can differ. */
  function Spread(ws: seq<Workload>, racks: seq<Rack>): (c: int)
    requires racks != []
  {
    if ws == [] then 0
    else Spread(ws[..|ws| - 1], racks) + MaxBase(ws[|ws| - 1], racks) - MinBase(ws[|ws| - 1], racks)
  }

  lemma {:induction false} BaseWithinSpread(ws: seq<Workload>, racks: seq<Rack>, a: Assignment, b: Assignment)
    requires racks != [] && On(a, |ws|, |racks|) && On(b, |ws|, |racks|)
    ensures Base(ws, racks, a) - Base(ws, racks, b) <= Spread(ws, racks)
  {
    if ws != [] { BaseWithinSpread(ws[..|ws| - 1], racks, a[..|a| - 1], b[..|b| - 1]); }
  }

  /** MAIN: while base costs cannot differ by as much as the penalty, a cost-optimal
      assignment leaves the fewest workloads on the incident rack that any feasible one
      can, and is the cheapest among those. */
  lemma {:induction false} OptimalIsLexicographic(ws: seq<Workload>, racks: seq<Rack>, incident: string,
                                                  a: Assignment, b: Assignment)
    requires racks != [] && Spread(ws, racks) < INCIDENT_PENALTY
    requires Optimal(ws, racks, incident, a) && Feasible(ws, racks, b)
    ensures OnIncident(racks, incident, a) <= OnIncident(racks, incident, b)
    ensures OnIncident(racks, incident, a) == OnIncident(racks, incident, b) ==>
        Base(ws, racks, a) <= Base(ws, racks, b)
  {
    hide Feasible;
    FeasibleIsOn(ws, racks, a);
    FeasibleIsOn(ws, racks, b);
    CostSplits(ws, racks, incident, a);
    CostSplits(ws, racks, incident, b);
    BaseWithinSpread(ws, racks, b, a);
  }

  lemma FeasibleIsOn(ws: seq<Workload>, racks: seq<Rack>, a: Assignment)
    requires Feasible(ws, racks, a)
    ensures On(a, |ws|, |racks|)
  {
  }

  /** Some other rack is not dearer for `w` than `racks[s]` by the penalty or more. */
  predicate Escapes(w: Workload, racks: seq<Rack>, incident: string, s: nat)
    requires s < |racks|
  {
    exists r :: 0 <= r < |racks| && racks[r].id != incident
        && BaseCost(w, racks[r]) < BaseCost(w, racks[s]) + INCIDENT_PENALTY
  }

  /** No constraint binds. */
  ghost predicate Roomy(ws: seq<Workload>, racks: seq<Rack>) {
    forall a: Assignment :: On(a, |ws|, |racks|) ==> Feasible(ws, racks, a)
  }

  /** MAIN: where no constraint binds, every optimal assignment clears the incident rack
      if and only if each workload has another rack whose base cost is not higher by the
      penalty or more. */
  lemma IncidentClearedIff(ws: seq<Workload>, racks: seq<Rack>, incident: string)
    requires Roomy(ws, racks)
    ensures (forall a :: Optimal(ws, racks, incident, a) ==> On(a, |a|, |racks|) && OnIncident(racks, incident, a) == 0)
       <==> forall i, s :: 0 <= i < |ws| && 0 <= s < |racks| && racks[s].id == incident ==>
           Escapes(ws[i], racks, incident, s)
  {
    hide Feasible, Cost, OnIncident, Escapes;
    if !forall i, s :: 0 <= i < |ws| && 0 <= s < |racks| && racks[s].id == incident ==>
        Escapes(ws[i], racks, incident, s) {
      var i, s :| 0 <= i < |ws| && 0 <= s < |racks| && racks[s].id == incident && !Escapes(ws[i], racks, incident, s);
      var a := StaysOptimal(ws, racks, incident, i, s);
    } else {
      forall a | Optimal(ws, racks, incident, a) ensures On(a, |a|, |racks|) && OnIncident(racks, incident, a) == 0 {
        FeasibleIsOn(ws, racks, a);
        SomeOnIncident(racks, incident, a);
        if i :| 0 <= i < |a| && racks[a[i]].id == incident {
          LeavesCheaper(ws, racks, incident, a, i);
        }
      }
    }
  }

  /** A workload with nowhere to escape to may as well be on the incident rack. */
  lemma StaysOptimal(ws: seq<Workload>, racks: seq<Rack>, incident: string, i: nat, s: nat) returns (a: Assignment)
    requires Roomy(ws, racks) && i < |ws| && s < |racks| && racks[s].id == incident
        && !Escapes(ws[i], racks, incident, s)
    ensures Optimal(ws, racks, incident, a) && On(a, |a|, |racks|) && OnIncident(racks, incident, a) > 0
  {
    hide Feasible, Cost, OnIncident;
    var best := Search(ws, racks, incident, [], 0);
    var any: Assignment := seq(|ws|, k => s);
    assert On(any, |ws|, |racks|) && Completes(any, [], 0);
    a := best.value;
    FeasibleIsOn(ws, racks, a);
    assert Optimal(ws, racks, incident, a) by { assert forall b: Assignment :: Completes(b, [], 0); }
    if racks[a[i]].id != incident {
      CostReplaced(ws, racks, incident, a, i, s);
      a := a[i := s];
      assert On(a, |ws|, |racks|);
    }
    SomeOnIncident(racks, incident, a);
    assert racks[a[i]].id == incident;
  }

  /** Moving a workload that can escape off the incident rack lowers the cost. */
  lemma LeavesCheaper(ws: seq<Workload>, racks: seq<Rack>, incident: string, a: Assignment, i: nat)
    requires Roomy(ws, racks) && On(a, |ws|, |racks|) && i < |ws| && racks[a[i]].id == incident
        && Escapes(ws[i], racks, incident, a[i])
    ensures !Optimal(ws, racks, incident, a)
  {
    hide Feasible, Cost;
    var r :| 0 <= r < |racks| && racks[r].id != incident
        && BaseCost(ws[i], racks[r]) < BaseCost(ws[i], racks[a[i]]) + INCIDENT_PENALTY;
    CostReplaced(ws, racks, incident, a, i, r);
    assert On(a[i := r], |ws|, |racks|);
  }

  lemma {:induction false} CostReplaced(ws: seq<Workload>, racks: seq<Rack>, incident: string, a: Assignment, i: nat,
                                        r: nat)
    requires On(a, |ws|, |racks|) && i < |ws| && r < |racks|
    ensures Cost(ws, racks, incident, a[i := r])
         == Cost(ws, racks, incident, a) - CostOf(ws[i], racks[a[i]], incident) + CostOf(ws[i], racks[r], incident)
  {
    hide CostOf;
    var n := |ws| - 1;
    if i < n {
      CostReplaced(ws[..n], racks, incident, a[..n], i, r);
      assert a[i := r][..n] == a[..n][i := r];
    } else {
      assert a[i := r][..n] == a[..n];
    }
  }

  lemma {:induction false} SomeOnIncident(racks: seq<Rack>, incident: string, a: Assignment)
    requires On(a, |a|, |racks|)
    ensures OnIncident(racks, incident, a) > 0 <==> exists i :: 0 <= i < |a| && racks[a[i]].id == incident
  {
    if a != [] {
      var n := |a| - 1;
      SomeOnIncident(racks, incident, a[..n]);
      assert forall i :: 0 <= i < n ==> a[..n][i] == a[i];
    }
  }

  /** A megawatt of heat, an incident rack with 20 degrees at its inlet and another rack
      with 40: the optimum stays on the incident rack although the other one has room. */
  lemma HotWorkloadStays() returns (a: Assignment)
    ensures
      (var ws := [Workload("w", "r1", 0.0, 1000.0, "default")];
       var racks := [Rack("r1", 1.0, 2000.0, 20.0), Rack("r2", 1.0, 2000.0, 40.0)];
       && Optimal(ws, racks, "r1", a) && OnIncident(racks, "r1", a) > 0
       && Feasible(ws, racks, [1]) && OnIncident(racks, "r1", [1]) == 0)
  {
    var ws := [Workload("w", "r1", 0.0, 1000.0, "default")];
    var racks := [Rack("r1", 1.0, 2000.0, 20.0), Rack("r2", 1.0, 2000.0, 40.0)];
    assert Roomy(ws, racks) by {
      forall a: Assignment | On(a, 1, 2) ensures Feasible(ws, racks, a) { OneFits(ws[0], racks, a); }
    }
    assert BaseCost(ws[0], racks[0]) == 400_000 && BaseCost(ws[0], racks[1]) == 1_600_000;
    assert !Escapes(ws[0], racks, "r1", 0) by {
      assert forall r :: 0 <= r < |racks| && racks[r].id != "r1" ==> r == 1;
    }
    a := StaysOptimal(ws, racks, "r1", 0, 0);
    assert On([1], 1, 2);
    SomeOnIncident(racks, "r1", [1]);
  }

  /** A lone workload with no power draw fits wherever its heat does. */
  lemma OneFits(w: Workload, racks: seq<Rack>, a: Assignment)
    requires On(a, 1, |racks|) && w.power == 0.0 && w.tier in NON_AFFINITY_TIERS
    requires forall r :: 0 <= r < |racks| ==>
        racks[r].pduCapacity >= 0.0 && 0 <= Scaled(w.thermal) <= Scaled(racks[r].thermalHeadroom)
    ensures Feasible([w], racks, a)
  {
    forall xs: seq<int>, r | |xs| == 1 ensures Load(xs, a, r) == if a[0] == r then xs[0] else 0 {
      assert Load(xs[..0], a[..0], r) == 0;
    }
    forall tier | tier !in NON_AFFINITY_TIERS ensures Total(Members([w], tier)) <= 1 {
      assert |Members([w], tier)| == 1;
    }
  }

  // ----- real limits -----

  lemma TruncBounds(x: real)
    ensures Trunc(x) as real > x - 1.0
    ensures x >= 0.0 ==> Trunc(x) as real <= x
    ensures x <= 0.0 ==> x <= Trunc(x) as real <= 0.0
    ensures Trunc(x) as real < x + 1.0
  {
  }

  lemma {:induction false} TruncatedLoad(xs: seq<real>, ns: seq<int>, a: Assignment, r: nat)
    requires |xs| == |ns| == |a| && forall i :: 0 <= i < |xs| ==> ns[i] == Scaled(xs[i])
    ensures Count(a, r) >= 0
    ensures Count(a, r) == 0 ==> RealLoad(xs, a, r) == 0.0
    ensures Count(a, r) >= 1 ==> RealLoad(xs, a, r) * 1000.0 < Load(ns, a, r) as real + Count(a, r) as real
  {
    if xs != [] {
      var n := |xs| - 1;
      TruncatedLoad(xs[..n], ns[..n], a[..n], r);
      assert Ones(n + 1)[..n] == Ones(n);
      assert Count(a, r) == Count(a[..n], r) + if a[n] == r then 1 else 0;
      TruncBounds(xs[n] * 1000.0);
      if Count(a[..n], r) == 0 { NoneCountedNoLoad(ns[..n], a[..n], r); }
    }
  }

  lemma {:induction false} NoneCountedNoLoad(ns: seq<int>, a: Assignment, r: nat)
    requires |ns| == |a|
    ensures Count(a, r) >= 0
    ensures Count(a, r) == 0 ==> Load(ns, a, r) == 0
  {
    if ns != [] {
      var n := |ns| - 1;
      NoneCountedNoLoad(ns[..n], a[..n], r);
      assert Ones(n + 1)[..n] == Ones(n);
    }
  }

  function Powers(ws: seq<Workload>): (xs: seq<real>)
    ensures |xs| == |ws|
  {
    seq(|ws|, i requires 0 <= i < |ws| => ws[i].power)
  }

  function Thermals(ws: seq<Workload>): (xs: seq<real>)
    ensures |xs| == |ws|
  {
    seq(|ws|, i requires 0 <= i < |ws| => ws[i].thermal)
  }

  /** MAIN: on a rack that takes m >= 1 workloads, an accepted assignment draws less than
      its real capacity plus m milliwatts, and heats less than its headroom plus m watts. */
  lemma {:induction false} RealLimitsRespected(ws: seq<Workload>, racks: seq<Rack>, a: Assignment, r: nat)
    requires Feasible(ws, racks, a) && r < |racks| && Count(a, r) >= 1
    requires racks[r].pduCapacity > 0.0 && racks[r].thermalHeadroom > 0.0
    ensures RealLoad(Powers(ws), a, r) * 1000.0 < racks[r].pduCapacity * 1000.0 + Count(a, r) as real
    ensures RealLoad(Thermals(ws), a, r) * 1000.0 < racks[r].thermalHeadroom * 1000.0 + Count(a, r) as real
  {
    TruncatedLoad(Powers(ws), ScaledPower(ws), a, r);
    TruncatedLoad(Thermals(ws), ScaledThermal(ws), a, r);
    TruncBounds(racks[r].pduCapacity * 1000.0);
    TruncBounds(racks[r].thermalHeadroom * 1000.0);
  }

  // ----- totals over racks -----

  function OverRacks(xs: seq<int>, a: Assignment, racks: nat): (s: int)
    requires |xs| == |a|
  {
    if racks == 0 then 0 else OverRacks(xs, a, racks - 1) + Load(xs, a, racks - 1)
  }

  function RealOverRacks(xs: seq<real>, a: Assignment, racks: nat): (s: real)
    requires |xs| == |a|
  {
    if racks == 0 then 0.0 else RealOverRacks(xs, a, racks - 1) + RealLoad(xs, a, racks - 1)
  }

  function RealTotal(xs: seq<real>): (s: real)
  {
    if xs == [] then 0.0 else RealTotal(xs[..|xs| - 1]) + xs[|xs| - 1]
  }

  lemma {:induction false} OverRacksStep(xs: seq<int>, a: Assignment, racks: nat)
    requires |xs| == |a| > 0
    ensures OverRacks(xs, a, racks)
         == OverRacks(xs[..|xs| - 1], a[..|a| - 1], racks) + if a[|a| - 1] < racks then xs[|xs| - 1] else 0
  {
    if racks > 0 { OverRacksStep(xs, a, racks - 1); }
  }

  lemma {:induction false} LoadsAddUp(xs: seq<int>, a: Assignment, racks: nat)
    requires |xs| == |a| && On(a, |a|, racks)
    ensures OverRacks(xs, a, racks) == Total(xs)
  {
    if xs == [] {
      NothingOverRacks(a, racks);
    } else {
      OverRacksStep(xs, a, racks);
      LoadsAddUp(xs[..|xs| - 1], a[..|a| - 1], racks);
    }
  }

  lemma {:induction false} NothingOverRacks(a: Assignment, racks: nat)
    requires |a| == 0
    ensures OverRacks([], a, racks) == 0 && RealOverRacks([], a, racks) == 0.0
  {
    if racks > 0 { NothingOverRacks(a, racks - 1); }
  }

  lemma {:induction false} RealOverRacksStep(xs: seq<real>, a: Assignment, racks: nat)
    requires |xs| == |a| > 0
    ensures RealOverRacks(xs, a, racks)
         == RealOverRacks(xs[..|xs| - 1], a[..|a| - 1], racks) + if a[|a| - 1] < racks then xs[|xs| - 1] else 0.0
  {
    if racks > 0 { RealOverRacksStep(xs, a, racks - 1); }
  }

  /** No load appears or disappears: the racks carry what the workloads draw. */
  lemma {:induction false} RealLoadsAddUp(xs: seq<real>, a: Assignment, racks: nat)
    requires |xs| == |a| && On(a, |a|, racks)
    ensures RealOverRacks(xs, a, racks) == RealTotal(xs)
  {
    if xs == [] {
      NothingOverRacks(a, racks);
    } else {
      RealOverRacksStep(xs, a, racks);
      RealLoadsAddUp(xs[..|xs| - 1], a[..|a| - 1], racks);
    }
  }

  // ----- the anti-affinity cap -----

  lemma {:induction false} CappedTotal(xs: seq<int>, a: Assignment, racks: nat, c: int)
    requires |xs| == |a| && forall r :: 0 <= r < racks ==> Load(xs, a, r) <= c
    ensures OverRacks(xs, a, racks) <= racks * c
  {
    if racks > 0 {
      CappedTotal(xs, a, racks - 1, c);
      assert racks * c == (racks - 1) * c + c;
    }
  }

  /** Members placed round the racks in turn. */
  function RoundRobin(n: nat, racks: nat): (a: Assignment)
    requires racks > 0
    ensures On(a, n, racks)
  {
    if n == 0 then []
    else
      var a := RoundRobin(n - 1, racks);
      a + [if n == 1 || a[n - 2] + 1 == racks then 0 else a[n - 2] + 1]
  }

  lemma CountStep(a: Assignment, x: nat, r: nat)
    ensures Count(a + [x], r) == Count(a, r) + if x == r then 1 else 0
  {
    assert (a + [x])[..|a|] == a && Ones(|a| + 1)[..|a|] == Ones(|a|);
  }

  lemma NextRound(q: nat, racks: nat)
    ensures (q + 1) * racks == q * racks + racks
  {
  }

  /** After q full rounds and s more, the first s racks have one more than the others. */
  lemma {:induction false} RoundRobinCounts(n: nat, racks: nat) returns (q: nat, s: nat)
    requires racks > 0
    ensures n == q * racks + s && s < racks
    ensures n > 0 ==> RoundRobin(n, racks)[n - 1] == if s == 0 then racks - 1 else s - 1
    ensures forall r :: 0 <= r < racks ==> Count(RoundRobin(n, racks), r) == q + if r < s then 1 else 0
  {
    if n == 0 {
      q, s := 0, 0;
    } else {
      var q0, s0 := RoundRobinCounts(n - 1, racks);
      var a0 := RoundRobin(n - 1, racks);
      assert RoundRobin(n, racks) == a0 + [s0];
      hide RoundRobin, Count;
      forall r ensures Count(a0 + [s0], r) == Count(a0, r) + if s0 == r then 1 else 0 { CountStep(a0, s0, r); }
      if s0 + 1 == racks {
        q, s := q0 + 1, 0;
        NextRound(q0, racks);
      } else {
        q, s := q0, s0 + 1;
      }
    }
  }

  lemma CeilDiv(n: nat, q: nat, s: nat, racks: nat)
    requires racks > 0 && n == q * racks + s && s < racks
    ensures (n + racks - 1) / racks == q + if s == 0 then 0 else 1
  {
    if s == 0 { DivIs(n + racks - 1, q, racks - 1, racks); } else { DivIs(n + racks - 1, q + 1, s - 1, racks); }
  }

  lemma DivIs(x: nat, q: nat, s: nat, d: nat)
    requires s < d && x == q * d + s
    ensures x / d == q
  {
    var q', s' := x / d, x % d;
    assert x == q' * d + s';
    if q' > q { Multiples(d, q, q'); }
    if q' < q { Multiples(d, q', q); }
  }

  lemma {:induction false} Multiples(d: nat, small: int, large: int)
    requires small < large
    ensures large * d >= small * d + d && d * large >= d * small + d
    decreases large - small
  {
    if small + 1 < large { Multiples(d, small, large - 1); }
    assert large * d == (large - 1) * d + d;
  }

  /** MAIN: the cap is the least uniform one: some spread of the n members over the racks
      keeps every rack at or below `c` exactly when `c` is at least the cap. */
  lemma CapIsLeast(n: nat, racks: nat, c: int)
    requires n > 0 && racks > 0
    ensures (exists a :: On(a, n, racks) && forall r :: 0 <= r < racks ==> Count(a, r) <= c)
        <==> c >= PerRackCap(n, racks)
    ensures n <= racks * PerRackCap(n, racks)
  {
    var q, s := RoundRobinCounts(n, racks);
    CeilDiv(n, q, s, racks);
    var cap := PerRackCap(n, racks);
    assert q == 0 ==> s == n;
    if c >= cap {
      assert forall r :: 0 <= r < racks ==> Count(RoundRobin(n, racks), r) <= c;
    }
    if a :| On(a, n, racks) && forall r :: 0 <= r < racks ==> Count(a, r) <= c {
      assert forall r :: 0 <= r < racks ==> Load(Ones(n), a, r) == Count(a, r);
      CappedTotal(Ones(n), a, racks, c);
      LoadsAddUp(Ones(n), a, racks);
      TotalOfOnes(n);
      CapBelow(n, q, s, racks, c);
    }
    CoversAll(n, q, s, racks, cap);
  }

  lemma CapBelow(n: nat, q: nat, s: nat, racks: nat, c: int)
    requires n > 0 && racks > 0 && n == q * racks + s && s < racks && n <= racks * c
    ensures c >= q && c >= 1 && (s > 0 ==> c >= q + 1)
  {
    if c < 1 { Multiples(racks, c, 1); }
    if c < q { Multiples(racks, c, q); }
  }

  lemma CoversAll(n: nat, q: nat, s: nat, racks: nat, cap: int)
    requires racks > 0 && n == q * racks + s && s < racks && cap >= q + (if s == 0 then 0 else 1)
    ensures n <= racks * cap
  {
    if s == 0 {
      assert racks * cap >= racks * q;
    } else {
      assert racks * cap >= racks * (q + 1) == q * racks + racks;
    }
  }

  lemma {:induction false} TotalOfOnes(n: nat)
    ensures Total(Ones(n)) == n
  {
    if n > 0 {
      assert Ones(n)[..n - 1] == Ones(n - 1);
      TotalOfOnes(n - 1);
    }
  }

  // ----- moves -----

  function Moves(ws: seq<Workload>, racks: seq<Rack>, a: Assignment): (ms: seq<Move>)
    requires On(a, |ws|, |racks|)
  {
    if ws == [] then []
    else
      var w, to := ws[|ws| - 1], racks[a[|a| - 1]].id;
      Moves(ws[..|ws| - 1], racks, a[..|a| - 1])
      + if to != w.currentRack then [Move(w.id, w.currentRack, to, w.power, w.thermal)] else []
  }

  /** Carrying out moves one by one on a placement (workload id to rack id). */
  function Replay(p: map<string, string>, ms: seq<Move>): (r: map<string, string>)
  {
    if ms == [] then p
    else Replay(p, ms[..|ms| - 1])[ms[|ms| - 1].workload := ms[|ms| - 1].to]
  }

  /** Every move starts where its workload is at that moment. */
  predicate Applies(p: map<string, string>, ms: seq<Move>) {
    ms == []
    || (Applies(p, ms[..|ms| - 1])
        && var m := ms[|ms| - 1]; var at := Replay(p, ms[..|ms| - 1]); m.workload in at && at[m.workload] == m.from)
  }

  /** `r` is `p` with the workloads at their assigned racks and nothing else changed. */
  ghost predicate Placed(r: map<string, string>, ws: seq<Workload>, racks: seq<Rack>, a: Assignment, p: map<string,
                         string>)
    requires On(a, |ws|, |racks|)
  {
    && r.Keys == p.Keys
    && (forall i :: 0 <= i < |ws| ==> ws[i].id in r && r[ws[i].id] == racks[a[i]].id)
    && (forall k :: k in p && (forall i :: 0 <= i < |ws| ==> ws[i].id != k) ==> r[k] == p[k])
  }

  ghost predicate IsCurrent(p: map<string, string>, ws: seq<Workload>) {
    forall i :: 0 <= i < |ws| ==> ws[i].id in p && p[ws[i].id] == ws[i].currentRack
  }

  /** The workload's rack changes. */
  predicate Changes(ws: seq<Workload>, racks: seq<Rack>, a: Assignment, i: nat)
    requires On(a, |ws|, |racks|) && i < |ws|
  {
    racks[a[i]].id != ws[i].currentRack
  }

  /** No two workloads that change rack have the same id. */
  ghost predicate ChangesApart(ws: seq<Workload>, racks: seq<Rack>, a: Assignment)
    requires On(a, |ws|, |racks|)
  {
    forall i, j :: 0 <= i < j < |ws| && Changes(ws, racks, a, i) && Changes(ws, racks, a, j) ==> ws[i].id != ws[j].id
  }

  lemma ChangesApartStep(ws: seq<Workload>, racks: seq<Rack>, a: Assignment)
    requires On(a, |ws|, |racks|) && ws != []
    ensures var n := |ws| - 1;
            ChangesApart(ws, racks, a) <==>
              && ChangesApart(ws[..n], racks, a[..n])
              && (Changes(ws, racks, a, n) ==> forall i :: 0 <= i < n && Changes(ws, racks, a, i) ==>
                  ws[i].id != ws[n].id)
  {
    var n := |ws| - 1;
    assert forall i: nat :: i < n ==>
        ws[..n][i] == ws[i] && (Changes(ws[..n], racks, a[..n], i) <==> Changes(ws, racks, a, i));
  }

  /** Where the last workload is once the others are placed. */
  lemma LastIsAt(r: map<string, string>, ws: seq<Workload>, racks: seq<Rack>, a: Assignment, p: map<string, string>)
    requires On(a, |ws|, |racks|) && ws != [] && SharesRacks(ws, a) && IsCurrent(p, ws)
    requires Placed(r, ws[..|ws| - 1], racks, a[..|a| - 1], p)
    ensures var w, to := ws[|ws| - 1], racks[a[|a| - 1]].id;
            && w.id in r
            && r[w.id] == if exists i :: 0 <= i < |ws| - 1 && ws[i].id == w.id then to else w.currentRack
  {
    var n := |ws| - 1;
    var w, pre := ws[n], ws[..n];
    assert w.id in p.Keys;
    if i :| 0 <= i < n && ws[i].id == w.id {
      assert pre[i] == ws[i] && a[..n][i] == a[i] == a[n];
      assert r[pre[i].id] == racks[a[..n][i]].id;
    } else {
      assert forall i :: 0 <= i < n ==> pre[i].id != w.id;
      assert r[w.id] == p[w.id];
    }
  }

  lemma PlacedMore(r: map<string, string>, ws: seq<Workload>, racks: seq<Rack>, a: Assignment, p: map<string, string>)
    requires On(a, |ws|, |racks|) && ws != [] && SharesRacks(ws, a) && IsCurrent(p, ws)
    requires Placed(r, ws[..|ws| - 1], racks, a[..|a| - 1], p)
    ensures Placed(r[ws[|ws| - 1].id := racks[a[|a| - 1]].id], ws, racks, a, p)
  {
    var n := |ws| - 1;
    var w, pre := ws[n], ws[..n];
    var r' := r[w.id := racks[a[n]].id];
    assert w.id in p.Keys && r'.Keys == p.Keys;
    forall i | 0 <= i < |ws| ensures ws[i].id in r' && r'[ws[i].id] == racks[a[i]].id {
      if i < n {
        assert pre[i] == ws[i] && a[..n][i] == a[i];
        assert pre[i].id in r && r[pre[i].id] == racks[a[..n][i]].id;
      }
    }
    forall k | k in p && (forall i :: 0 <= i < |ws| ==> ws[i].id != k) ensures r'[k] == p[k] {
      assert k != ws[n].id;
      assert forall i :: 0 <= i < n ==> pre[i] == ws[i];
      assert r[k] == p[k];
    }
  }

  lemma {:induction false} ReplayStep(p: map<string, string>, ms: seq<Move>, m: Move)
    ensures Replay(p, ms + [m]) == Replay(p, ms)[m.workload := m.to]
    ensures Applies(p, ms + [m])
       <==> Applies(p, ms) && m.workload in Replay(p, ms) && Replay(p, ms)[m.workload] == m.from
  {
    assert (ms + [m])[..|ms|] == ms;
  }

  lemma WithoutLast(ws: seq<Workload>, racks: seq<Rack>, a: Assignment, p: map<string, string>)
    requires On(a, |ws|, |racks|) && SharesRacks(ws, a) && IsCurrent(p, ws) && ws != []
    ensures var n := |ws| - 1;
            On(a[..n], n, |racks|) && a[n] < |racks| && SharesRacks(ws[..n], a[..n]) && IsCurrent(p, ws[..n])
  {
    var n := |ws| - 1;
    assert forall i :: 0 <= i < n ==> ws[..n][i] == ws[i] && a[..n][i] == a[i];
  }

  lemma {:induction false} PlacedNone(ws: seq<Workload>, racks: seq<Rack>, a: Assignment, p: map<string, string>)
    requires On(a, |ws|, |racks|) && ws == []
    ensures Moves(ws, racks, a) == [] && Placed(Replay(p, []), ws, racks, a, p)
    ensures Applies(p, []) && ChangesApart(ws, racks, a)
  {
  }

  lemma {:induction false} ReplayPlaces(ws: seq<Workload>, racks: seq<Rack>, a: Assignment, p: map<string, string>)
    requires On(a, |ws|, |racks|) && SharesRacks(ws, a) && IsCurrent(p, ws)
    ensures Placed(Replay(p, Moves(ws, racks, a)), ws, racks, a, p)
  {
    hide Placed, IsCurrent, SharesRacks, Moves, Replay;
    if ws == [] {
      PlacedNone(ws, racks, a, p);
    } else {
      var n := |ws| - 1;
      WithoutLast(ws, racks, a, p);
      var w, to, ms := ws[n], racks[a[n]].id, Moves(ws[..n], racks, a[..n]);
      ReplayPlaces(ws[..n], racks, a[..n], p);
      var r := Replay(p, ms);
      PlacedMore(r, ws, racks, a, p);
      LastIsAt(r, ws, racks, a, p);
      MovesStep(ws, racks, a);
      ReplayStep(p, ms, MoveOf(w, to));
      assert to == w.currentRack ==> r[w.id := to] == r;
    }
  }

  /** MAIN: replaying the moves on the current placement gives the chosen assignment and
      touches nothing else, and every move starts where its workload is if and only if no
      id occurs twice among the workloads that change rack. */
  lemma {:induction false} ReplayGivesAssignment(ws: seq<Workload>, racks: seq<Rack>, a: Assignment, p: map<string,
                                                 string>)
    requires On(a, |ws|, |racks|) && SharesRacks(ws, a) && IsCurrent(p, ws)
    ensures Placed(Replay(p, Moves(ws, racks, a)), ws, racks, a, p)
    ensures Applies(p, Moves(ws, racks, a)) <==> ChangesApart(ws, racks, a)
  {
    hide Placed, IsCurrent, SharesRacks, ChangesApart, Moves, Replay, Applies;
    ReplayPlaces(ws, racks, a, p);
    if ws == [] {
      PlacedNone(ws, racks, a, p);
    } else {
      var n := |ws| - 1;
      WithoutLast(ws, racks, a, p);
      var w, to, ms := ws[n], racks[a[n]].id, Moves(ws[..n], racks, a[..n]);
      ReplayGivesAssignment(ws[..n], racks, a[..n], p);
      LastIsAt(Replay(p, ms), ws, racks, a, p);
      ChangesApartStep(ws, racks, a);
      SameIdChangesToo(ws, racks, a, p);
      MovesStep(ws, racks, a);
      ReplayStep(p, ms, MoveOf(w, to));
    }
  }

  /** Workloads with the same id have the same current and the same new rack. */
  lemma SameIdChangesToo(ws: seq<Workload>, racks: seq<Rack>, a: Assignment, p: map<string, string>)
    requires On(a, |ws|, |racks|) && SharesRacks(ws, a) && IsCurrent(p, ws) && ws != []
    ensures var n := |ws| - 1;
            forall i :: 0 <= i < n && ws[i].id == ws[n].id ==> (Changes(ws, racks, a, i) <==> Changes(ws, racks, a, n))
  {
  }

  lemma {:induction false} MovesStep(ws: seq<Workload>, racks: seq<Rack>, a: Assignment)
    requires On(a, |ws|, |racks|) && ws != []
    ensures var w, to, ms := ws[|ws| - 1], racks[a[|a| - 1]].id, Moves(ws[..|ws| - 1], racks, a[..|a| - 1]);
      Moves(ws, racks, a) == if to != w.currentRack then ms
          + [Move(w.id, w.currentRack, to, w.power, w.thermal)] else ms
  {
  }

  function MoveOf(w: Workload, to: string): (m: Move) { Move(w.id, w.currentRack, to, w.power, w.thermal) }

  /** The move is that of a workload whose rack changes. */
  ghost predicate IsChange(ws: seq<Workload>, racks: seq<Rack>, a: Assignment, m: Move)
    requires On(a, |ws|, |racks|)
  {
    exists i :: 0 <= i < |ws| && racks[a[i]].id != ws[i].currentRack && m == MoveOf(ws[i], racks[a[i]].id)
  }

  /** A workload moves exactly when its rack changes. */
  lemma {:induction false} MovesAreChanges(ws: seq<Workload>, racks: seq<Rack>, a: Assignment)
    requires On(a, |ws|, |racks|)
    ensures forall m :: m in Moves(ws, racks, a) <==> IsChange(ws, racks, a, m)
  {
    if ws != [] {
      var n := |ws| - 1;
      var ms := Moves(ws[..n], racks, a[..n]);
      MovesAreChanges(ws[..n], racks, a[..n]);
      MovesStep(ws, racks, a);
      hide Moves;
      forall m ensures m in Moves(ws, racks, a) <==> IsChange(ws, racks, a, m) {
        ChangeStep(ws, racks, a, m);
      }
    }
  }

  lemma ChangeStep(ws: seq<Workload>, racks: seq<Rack>, a: Assignment, m: Move)
    requires On(a, |ws|, |racks|) && ws != []
    ensures var n := |ws| - 1; IsChange(ws, racks, a, m) <==>
              IsChange(ws[..n], racks, a[..n], m)
                  || (racks[a[n]].id != ws[n].currentRack && m == MoveOf(ws[n], racks[a[n]].id))
  {
    var n := |ws| - 1;
    if i :|
        0 <= i < n && racks[a[..n][i]].id != ws[..n][i].currentRack && m == MoveOf(ws[..n][i], racks[a[..n][i]].id) {
      assert racks[a[i]].id != ws[i].currentRack && m == MoveOf(ws[i], racks[a[i]].id);
    }
    if i :| 0 <= i < n && racks[a[i]].id != ws[i].currentRack && m == MoveOf(ws[i], racks[a[i]].id) {
      assert racks[a[..n][i]].id != ws[..n][i].currentRack && m == MoveOf(ws[..n][i], racks[a[..n][i]].id);
    }
  }

  /** Each workload moves at most once, if no two workloads that change rack have the same
      id, and only then. */
  lemma {:induction false} MovesAtMostOnceIff(ws: seq<Workload>, racks: seq<Rack>, a: Assignment)
    requires On(a, |ws|, |racks|)
    ensures MovesDistinct(Moves(ws, racks, a)) <==> ChangesApart(ws, racks, a)
  {
    if ws != [] {
      var n := |ws| - 1;
      var ms := Moves(ws[..n], racks, a[..n]);
      MovesAtMostOnceIff(ws[..n], racks, a[..n]);
      ChangesApartStep(ws, racks, a);
      MovesStep(ws, racks, a);
      MovedIds(ws, racks, a, ws[n].id);
      MovesDistinctStep(ms, MoveOf(ws[n], racks[a[n]].id));
    }
  }

  ghost predicate MovesDistinct(ms: seq<Move>) {
    forall i, j :: 0 <= i < j < |ms| ==> ms[i].workload != ms[j].workload
  }

  lemma MovesDistinctStep(ms: seq<Move>, m: Move)
    ensures MovesDistinct(ms + [m]) <==> MovesDistinct(ms) && forall x :: x in ms ==> x.workload != m.workload
  {
    var ms' := ms + [m];
    assert forall i :: 0 <= i < |ms| ==> ms'[i] == ms[i];
    if MovesDistinct(ms') {
      forall x | x in ms ensures x.workload != m.workload {
        var i :| 0 <= i < |ms| && ms[i] == x;
        assert ms'[i].workload != ms'[|ms|].workload;
      }
      assert MovesDistinct(ms) by {
        forall i, j | 0 <= i < j < |ms| ensures ms[i].workload != ms[j].workload {
          assert ms'[i].workload != ms'[j].workload;
        }
      }
    }
  }

  /** The ids among the moves of all workloads but the last. */
  lemma {:induction false} MovedIds(ws: seq<Workload>, racks: seq<Rack>, a: Assignment, id: string)
    requires On(a, |ws|, |racks|) && ws != []
    ensures var n := |ws| - 1;
            (exists m :: m in Moves(ws[..n], racks, a[..n]) && m.workload == id)
            <==> exists i :: 0 <= i < n && Changes(ws, racks, a, i) && ws[i].id == id
  {
    var n := |ws| - 1;
    var ms := Moves(ws[..n], racks, a[..n]);
    MovesAreChanges(ws[..n], racks, a[..n]);
    hide Moves;
    if m :| m in ms && m.workload == id {
      var i :| 0 <= i < n && racks[a[..n][i]].id != ws[..n][i].currentRack
          && m == MoveOf(ws[..n][i], racks[a[..n][i]].id);
      assert Changes(ws, racks, a, i);
    }
    if i :| 0 <= i < n && Changes(ws, racks, a, i) && ws[i].id == id {
      var m := MoveOf(ws[..n][i], racks[a[..n][i]].id);
      assert IsChange(ws[..n], racks, a[..n], m);
    }
  }

  /** Listing a workload twice has it moved twice. */
  lemma RepeatedIdMovesTwice(w: Workload, rack: Rack)
    requires rack.id != w.currentRack
    ensures SharesRacks([w, w], [0, 0]) && On([0, 0], 2, 1) && !MovesDistinct(Moves([w, w], [rack], [0, 0]))
  {
    var a: Assignment := [0, 0];
    assert On(a, 2, 1);
    MovesAtMostOnceIff([w, w], [rack], a);
    assert Changes([w, w], [rack], a, 0) && Changes([w, w], [rack], a, 1);
  }

  datatype Impact = Impact(power: real, thermal: real, migrations: nat)

  /** `estimate_impact`. */
  function EstimateImpact(ms: seq<Move>): (r: Impact)
  {
    if ms == [] then Impact(0.0, 0.0, 0)
    else
      var r, m := EstimateImpact(ms[..|ms| - 1]), ms[|ms| - 1];
      Impact(r.power + m.power, r.thermal + m.thermal, r.migrations + 1)
  }

  /** What the workloads that change rack draw, read off the assignment. */
  function Changed(ws: seq<Workload>, racks: seq<Rack>, a: Assignment): (r: Impact)
    requires On(a, |ws|, |racks|)
  {
    if ws == [] then Impact(0.0, 0.0, 0)
    else
      var r, w := Changed(ws[..|ws| - 1], racks, a[..|a| - 1]), ws[|ws| - 1];
      if racks[a[|a| - 1]].id == w.currentRack then r
      else Impact(r.power + w.power, r.thermal + w.thermal, r.migrations + 1)
  }

  lemma {:induction false} ImpactIsChange(ws: seq<Workload>, racks: seq<Rack>, a: Assignment)
    requires On(a, |ws|, |racks|)
    ensures EstimateImpact(Moves(ws, racks, a)) == Changed(ws, racks, a)
  {
    if ws != [] {
      var n := |ws| - 1;
      ImpactIsChange(ws[..n], racks, a[..n]);
      var ms' := Moves(ws, racks, a);
      var ms := Moves(ws[..n], racks, a[..n]);
      if racks[a[n]].id != ws[n].currentRack { assert ms'[..|ms'| - 1] == ms; } else { assert ms' == ms; }
    }
  }

  // ----- solve -----

  datatype Status =
    | OPTIMAL | FEASIBLE | INFEASIBLE | MODEL_INVALID | UNKNOWN
    | UNAVAILABLE | EMPTY | NO_ELIGIBLE_TARGETS

  /** What CP-SAT returns; None when the library is missing. */
  datatype Answer = Answer(status: Status, assignment: Assignment)

  /** CP-SAT's contract for the model built from these workloads and eligible racks. */
  ghost predicate Honest(ans: Answer, ws: seq<Workload>, racks: seq<Rack>, incident: string) {
    match ans.status
    case OPTIMAL => Optimal(ws, racks, incident, ans.assignment)
    case FEASIBLE => Feasible(ws, racks, ans.assignment)
    case INFEASIBLE => forall b :: !Feasible(ws, racks, b)
    case UNKNOWN => true
    case MODEL_INVALID => true
    case _ => false
  }

  datatype Output = Output(feasible: bool, moves: seq<Move>, objective: int, status: Status)

  method Solve(ws: seq<Workload>, racks: seq<Rack>, incident: string, ans: Option<Answer>) returns (out: Output)
    requires ans.Some? ==> Honest(ans.value, ws, Eligible(racks), incident)
    ensures ans == None ==> out == Output(false, [], 0, UNAVAILABLE)
    ensures ans.Some? && (ws == [] || racks == []) ==> out == Output(true, [], 0, EMPTY)
    ensures ans.Some? && ws != [] && racks != [] && Eligible(racks) == [] ==>
        out == Output(false, [], 0, NO_ELIGIBLE_TARGETS)
    ensures ans.Some? && ws != [] && Eligible(racks) != [] ==>
              var st, a := ans.value.status, ans.value.assignment;
              out.status == st && (out.feasible <==> st == OPTIMAL || st == FEASIBLE)
              && (out.feasible ==>
                    Feasible(ws, Eligible(racks), a) && out.moves == Moves(ws, Eligible(racks), a)
                    && out.objective == Cost(ws, Eligible(racks), incident, a))
              && (!out.feasible ==> out.moves == [])
              && (out.feasible ==> Acceptable(ws, Eligible(racks), a))
              && (st == INFEASIBLE ==> forall b :: !Acceptable(ws, Eligible(racks), b))
              && (st == OPTIMAL ==> forall b :: Acceptable(ws, Eligible(racks), b) ==>
                    out.objective <= Stress(ws, Eligible(racks), b) + 1_000_000 * |Stays(Eligible(racks), incident, b)|)
  {
    forall b ensures Feasible(ws, Eligible(racks), b) <==> Acceptable(ws, Eligible(racks), b) {
      FeasibleMeans(ws, Eligible(racks), b);
    }
    forall b | On(b, |ws|, |Eligible(racks)|) { CostMeans(ws, Eligible(racks), incident, b); }
    hide Acceptable, Cost, Stress, Stays, Eligible;
    if ans == None { return Output(false, [], 0, UNAVAILABLE); }
    if ws == [] || racks == [] {
      return Output(true, [], 0, EMPTY);
    }
    var eligible := Eligible(racks);
    if eligible == [] { return Output(false, [], 0, NO_ELIGIBLE_TARGETS); }
    var st, a := ans.value.status, ans.value.assignment;
    if st != OPTIMAL && st != FEASIBLE { return Output(false, [], 0, st); }
    var moves := ExtractMoves(ws, eligible, a);
    out := Output(true, moves, Cost(ws, eligible, incident, a), st);
  }

  /** The loop over workloads and racks that reads the variables back. */
  method ExtractMoves(ws: seq<Workload>, racks: seq<Rack>, a: Assignment) returns (moves: seq<Move>)
    requires On(a, |ws|, |racks|)
    ensures moves == Moves(ws, racks, a)
  {
    moves := [];
    for i := 0 to |ws|
      invariant moves == Moves(ws[..i], racks, a[..i])
    {
      var w := ws[i];
      assert ws[..i + 1][..i] == ws[..i] && a[..i + 1][..i] == a[..i];
      ghost var step := if racks[a[i]].id == w.currentRack then []
                        else [Move(w.id, w.currentRack, racks[a[i]].id, w.power, w.thermal)];
      for r := 0 to |racks|
        invariant moves == Moves(ws[..i], racks, a[..i]) + if a[i] < r then step else []
      {
        if a[i] == r && racks[r].id != w.currentRack {
          moves := moves + [Move(w.id, w.currentRack, racks[r].id, w.power, w.thermal)];
        }
      }
    }
    assert ws[..|ws|] == ws && a[..|a|] == a;
  }

  // ----- the contract can be met -----

  /** `best` is the cheapest feasible assignment that starts with `prefix` and then a
      rack >= r, if there is any. */
  ghost predicate IsBest(best: Option<Assignment>, ws: seq<Workload>, racks: seq<Rack>, incident: string,
                         prefix: Assignment, r: nat) {
    && (best.Some? ==> Feasible(ws, racks, best.value) && Completes(best.value, prefix, r))
    && forall b :: Feasible(ws, racks, b) && Completes(b, prefix, r) ==>
         best.Some? && Cost(ws, racks, incident, best.value) <= Cost(ws, racks, incident, b)
  }

  lemma {:induction false} Search(ws: seq<Workload>, racks: seq<Rack>, incident: string, prefix: Assignment, r: nat)
    returns (best: Option<Assignment>)
    requires |prefix| <= |ws| && r <= |racks|
    ensures IsBest(best, ws, racks, incident, prefix, r)
    decreases |ws| - |prefix|, |racks| - r
  {
    hide Cost, Load;
    if |prefix| == |ws| {
      best := if Feasible(ws, racks, prefix) then Some(prefix) else None;
      assert forall b :: Feasible(ws, racks, b) && Completes(b, prefix, r) ==> b == prefix;
    } else if r == |racks| {
      best := None;
    } else {
      var here := Search(ws, racks, incident, prefix + [r], 0);
      var later := Search(ws, racks, incident, prefix, r + 1);
      best := if here.None? then later
              else if later.None? then here
              else if Cost(ws, racks, incident, here.value) <= Cost(ws, racks, incident,
                  later.value) then here else later;
      forall b: Assignment ensures |b| == |ws| ==>
          (Completes(b, prefix, r) <==> Completes(b, prefix + [r], 0) || Completes(b, prefix, r + 1)) {
        if |b| == |ws| && Completes(b, prefix, r) && b[|prefix|] == r { assert b[..|prefix| + 1] == prefix + [r]; }
        if |b| == |ws| && Completes(b, prefix + [r], 0) {
          assert b[..|prefix|] == b[..|prefix| + 1][..|prefix|] == prefix;
          assert b[|prefix|] == (prefix + [r])[|prefix|];
        }
      }
    }
  }

  predicate Completes(b: Assignment, prefix: Assignment, r: nat) {
    |prefix| <= |b| && b[..|prefix|] == prefix && (|prefix| < |b| ==> b[|prefix|] >= r)
  }

  /** MAIN: for every problem an honest decided answer exists: exhaustive search finds an
      optimal assignment or shows that there is none. */
  lemma AnswerExists(ws: seq<Workload>, racks: seq<Rack>, incident: string) returns (ans: Answer)
    ensures Honest(ans, ws, racks, incident) && ans.status in {OPTIMAL, INFEASIBLE}
  {
    hide Load, Cost;
    var best := Search(ws, racks, incident, [], 0);
    assert forall b: Assignment :: Completes(b, [], 0);
    ans := if best.Some? then Answer(OPTIMAL, best.value) else Answer(INFEASIBLE, []);
  }
}
