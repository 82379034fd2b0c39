/** The policy engine that gates every executor action
    (apps/control_plane/policy_engine.py). */
module Policy {
  import opened Wrappers

  datatype Decision = Approved | NeedsHuman | Denied

  datatype Recommendation = Recommendation(
    id: string, site: string, kind: string, targets: seq<string>, requiresHuman: bool)

  /** What is left of a custom rule once it is matched against the rule grammar: its
      verdict, and what evaluating its condition gives (None: it raised). */
  datatype Custom = Malformed | If(condition: Recommendation -> Option<bool>, verdict: Decision)

  datatype Rule =
    | BlastRadius(cap: int)
    | BlackoutWindow(kinds: set<string>, startHour: int, endHour: int, offset: int)
    | ChangeFreeze(enabled: bool)
    | CustomRule(custom: Custom)
    | UnknownKind

  /** `sites` is empty when the policy applies everywhere. */
  datatype Policy = Policy(id: string, rule: Rule, sites: seq<string>)

  datatype Reason = ByPolicy(id: string) | SelfFlagged

  // ----- one policy -----

  predicate InWindow(startHour: int, endHour: int, hour: int) {
    if startHour > endHour then startHour <= hour < 24 || 0 <= hour < endHour else startHour <= hour < endHour
  }

  function EvalOne(p: Policy, rec: Recommendation, utcHour: int): (d: Decision)
  {
    match p.rule
    case BlastRadius(cap) => if |rec.targets| > cap then NeedsHuman else Approved
    case BlackoutWindow(kinds, s, e, offset) =>
      if kinds != {} && rec.kind !in kinds then Approved
      else if InWindow(s, e, (utcHour + offset) % 24) then Denied else Approved
    case ChangeFreeze(enabled) => if enabled then Denied else Approved
    case CustomRule(Malformed) => Approved
    case CustomRule(If(condition, verdict)) => if condition(rec) == Some(true) then verdict else Approved
    case UnknownKind => Approved
  }

  predicate InScope(p: Policy, rec: Recommendation) {
    p.sites == [] || rec.site in p.sites
  }

  /** The policy is in scope and gives verdict `d`. */
  predicate Gives(p: Policy, rec: Recommendation, utcHour: int, d: Decision) {
    InScope(p, rec) && EvalOne(p, rec, utcHour) == d
  }

  /** MAIN: for hours of the day, with or without a wrap over midnight and for every
      offset, the test is membership in the cyclic interval from start to end. */
  lemma BlackoutIsCyclic(startHour: int, endHour: int, utcHour: int, offset: int)
    requires 0 <= startHour < 24 && 0 <= endHour < 24
    ensures InWindow(startHour, endHour, (utcHour + offset) % 24)
       <==> (utcHour + offset - startHour) % 24 < (endHour - startHour) % 24
  {
    var h := (utcHour + offset) % 24;
    ModShift(utcHour + offset, startHour);
    if h >= startHour { SmallMod(h - startHour, 0); } else { SmallMod(h - startHour, 1); }
    if endHour >= startHour { SmallMod(endHour - startHour, 0); } else { SmallMod(endHour - startHour, 1); }
  }

  /** The same test for any configured hours, also such as 24. */
  lemma BlackoutOfAnyHours(startHour: int, endHour: int, hour: int)
    requires 0 <= hour < 24
    ensures startHour <= endHour ==> (InWindow(startHour, endHour, hour) <==> startHour <= hour && hour < endHour)
    ensures startHour > endHour ==> (InWindow(startHour, endHour, hour) <==> !(endHour <= hour && hour < startHour))
  {
  }

  lemma ModShift(a: int, b: int)
    ensures (a - b) % 24 == (a % 24 - b) % 24
  {
    var q, r := a / 24, a % 24;
    assert a - b == 24 * q + (r - b);
    var q', r' := (r - b) / 24, (r - b) % 24;
    assert a - b == 24 * (q + q') + r';
  }

  lemma SmallMod(x: int, k: int)
    requires 0 <= x + 24 * k < 24
    ensures x % 24 == x + 24 * k
  {
  }

  // ----- all policies -----

  predicate AnyGives(ps: seq<Policy>, rec: Recommendation, utcHour: int, d: Decision) {
    exists i :: 0 <= i < |ps| && Gives(ps[i], rec, utcHour, d)
  }

  /** The id of the first policy in scope with verdict `d`. */
  function FirstGiving(ps: seq<Policy>, rec: Recommendation, utcHour: int, d: Decision): (r: Option<string>)
    ensures r.None? <==> !AnyGives(ps, rec, utcHour, d)
    ensures r.Some? ==> exists i :: 0 <= i < |ps| && Gives(ps[i], rec, utcHour, d) && ps[i].id == r.value
                          && forall j :: 0 <= j < i ==> !Gives(ps[j], rec, utcHour, d)
  {
    if ps == [] then None
    else if Gives(ps[0], rec, utcHour, d) then Some(ps[0].id)
    else
      var r := FirstGiving(ps[1..], rec, utcHour, d);
      assert AnyGives(ps, rec, utcHour, d) <==> AnyGives(ps[1..], rec, utcHour, d) by {
        assert forall i :: 0 <= i < |ps| - 1 ==> ps[1..][i] == ps[i + 1];
        if i :| 0 <= i < |ps| && Gives(ps[i], rec, utcHour, d) { assert ps[i] == ps[1..][i - 1]; }
      }
      assert r.Some? ==> exists i :: 0 <= i < |ps| && Gives(ps[i], rec, utcHour, d) && ps[i].id == r.value
                           && forall j :: 0 <= j < i ==> !Gives(ps[j], rec, utcHour, d) by {
        if i :| 0 <= i < |ps| - 1 && Gives(ps[1..][i], rec, utcHour, d) && r == Some(ps[1..][i].id)
                && forall j :: 0 <= j < i ==> !Gives(ps[1..][j], rec, utcHour, d) {
          assert ps[i + 1] == ps[1..][i];
          assert forall j :: 0 < j < i + 1 ==> ps[j] == ps[1..][j - 1];
        }
      }
      r
  }

  lemma {:induction false} FirstGivingStep(ps: seq<Policy>, rec: Recommendation, utcHour: int, d: Decision)
    requires ps != []
    ensures FirstGiving(ps, rec, utcHour, d)
         == if Gives(ps[0], rec, utcHour, d) then Some(ps[0].id) else FirstGiving(ps[1..], rec, utcHour, d)
  {
  }

  function ScopeIds(ps: seq<Policy>, rec: Recommendation): (r: seq<string>)
  {
    if ps == [] then []
    else (if InScope(ps[0], rec) then [ps[0].id] else []) + ScopeIds(ps[1..], rec)
  }

  lemma {:induction false} ScopeIdsStep(ps: seq<Policy>, rec: Recommendation)
    requires ps != []
    ensures ScopeIds(ps, rec) == (if InScope(ps[0], rec) then [ps[0].id] else []) + ScopeIds(ps[1..], rec)
  {
  }

  lemma NothingInScope(rec: Recommendation, utcHour: int)
    ensures ScopeIds([], rec) == [] && forall d :: FirstGiving([], rec, utcHour, d) == None
  {
  }

  /** The decision as the maximum, in the order Approved < NeedsHuman < Denied, of the
      verdicts in scope and the recommendation's own flag. */
  function Verdict(ps: seq<Policy>, rec: Recommendation, utcHour: int): (d: Decision)
  {
    if ps == [] then (if rec.requiresHuman then NeedsHuman else Approved)
    else
      var rest := Verdict(ps[1..], rec, utcHour);
      if InScope(ps[0], rec) then Max(EvalOne(ps[0], rec, utcHour), rest) else rest
  }

  function Severity(d: Decision): (n: nat)
  {
    match d case Approved => 0 case NeedsHuman => 1 case Denied => 2
  }

  function Max(a: Decision, b: Decision): (r: Decision)
    ensures Severity(r) >= Severity(a) && Severity(r) >= Severity(b) && (r == a || r == b)
  {
    if Severity(a) >= Severity(b) then a else b
  }

  /** The maximum, said without recursion: who can object. */
  lemma {:induction false} VerdictMeans(ps: seq<Policy>, rec: Recommendation, utcHour: int)
    ensures Verdict(ps, rec, utcHour) == Denied <==> AnyGives(ps, rec, utcHour, Denied)
    ensures Verdict(ps, rec, utcHour) == Approved
       <==> !rec.requiresHuman && !AnyGives(ps, rec, utcHour, Denied) && !AnyGives(ps, rec, utcHour, NeedsHuman)
  {
    if ps != [] {
      var rest := ps[1..];
      VerdictMeans(rest, rec, utcHour);
      forall d ensures AnyGives(ps, rec, utcHour, d)
          <==> Gives(ps[0], rec, utcHour, d) || AnyGives(rest, rec, utcHour, d) {
        if i :| 0 <= i < |ps| && Gives(ps[i], rec, utcHour, d) {
          if i > 0 { assert rest[i - 1] == ps[i]; }
        }
        if i :| 0 <= i < |rest| && Gives(rest[i], rec, utcHour, d) { assert ps[i + 1] == rest[i]; }
      }
    }
  }

  /** MAIN: adding policies never makes the decision more permissive. */
  lemma {:induction false} MorePoliciesNeverMorePermissive(ps: seq<Policy>, qs: seq<Policy>, rec: Recommendation,
                                                           utcHour: int)
    requires forall i :: 0 <= i < |ps| ==> ps[i] in qs
    ensures Severity(Verdict(ps, rec, utcHour)) <= Severity(Verdict(qs, rec, utcHour))
  {
    VerdictMeans(ps, rec, utcHour);
    VerdictMeans(qs, rec, utcHour);
    forall d | AnyGives(ps, rec, utcHour, d) ensures AnyGives(qs, rec, utcHour, d) {
      var i :| 0 <= i < |ps| && Gives(ps[i], rec, utcHour, d);
      assert ps[i] in qs;
      var j :| 0 <= j < |qs| && qs[j] == ps[i];
    }
  }

  /** Neither the order nor the repetition of policies matters to the decision. */
  lemma {:induction false} OrderIrrelevant(ps: seq<Policy>, qs: seq<Policy>, rec: Recommendation, utcHour: int)
    requires (forall i :: 0 <= i < |ps| ==> ps[i] in qs) && forall i :: 0 <= i < |qs| ==> qs[i] in ps
    ensures Verdict(ps, rec, utcHour) == Verdict(qs, rec, utcHour)
  {
    MorePoliciesNeverMorePermissive(ps, qs, rec, utcHour);
    MorePoliciesNeverMorePermissive(qs, ps, rec, utcHour);
  }

  // ----- the verdict, rule by rule -----

  /** MAIN: a recommendation is approved exactly when it does not flag itself and every
      policy for its site lets it pass: its targets are within the blast radius, there is
      no change freeze, the local hour is outside the blackout of its kind, and no custom
      rule that holds of it says otherwise. */
  lemma {:induction false} ApprovedIff(ps: seq<Policy>, rec: Recommendation, utcHour: int)
    ensures Verdict(ps, rec, utcHour) == Approved <==>
              !rec.requiresHuman
              && forall p :: p in ps && (p.sites == [] || rec.site in p.sites) ==>
                   match p.rule
                   case BlastRadius(cap) => |rec.targets| <= cap
                   case BlackoutWindow(kinds, s, e, offset) =>
                     (kinds != {} && rec.kind !in kinds) || !InWindow(s, e, (utcHour + offset) % 24)
                   case ChangeFreeze(enabled) => !enabled
                   case CustomRule(Malformed) => true
                   case CustomRule(If(condition, verdict)) => condition(rec) == Some(true) ==> verdict == Approved
                   case UnknownKind => true
  {
    VerdictMeans(ps, rec, utcHour);
    hide Verdict, InWindow;
    forall d: Decision ensures AnyGives(ps, rec, utcHour, d) <==> exists p :: p in ps && Gives(p, rec, utcHour, d) {
      if i :| 0 <= i < |ps| && Gives(ps[i], rec, utcHour, d) { assert ps[i] in ps; }
      if p :| p in ps && Gives(p, rec, utcHour, d) { var i :| 0 <= i < |ps| && ps[i] == p; }
    }
  }

  /** MAIN: it is denied exactly when some policy for its site denies it: a change freeze, a
      blackout of its kind at the local hour, or a custom rule that holds and says so. */
  lemma {:induction false} DeniedIff(ps: seq<Policy>, rec: Recommendation, utcHour: int)
    ensures Verdict(ps, rec, utcHour) == Denied <==>
              exists p :: p in ps && (p.sites == [] || rec.site in p.sites)
                && match p.rule
                   case BlastRadius(_) => false
                   case BlackoutWindow(kinds, s, e, offset) =>
                     (kinds == {} || rec.kind in kinds) && InWindow(s, e, (utcHour + offset) % 24)
                   case ChangeFreeze(enabled) => enabled
                   case CustomRule(Malformed) => false
                   case CustomRule(If(condition, verdict)) => condition(rec) == Some(true) && verdict == Denied
                   case UnknownKind => false
  {
    VerdictMeans(ps, rec, utcHour);
    hide Verdict, InWindow;
    if i :| 0 <= i < |ps| && Gives(ps[i], rec, utcHour, Denied) { assert ps[i] in ps; }
    if p :| p in ps && Gives(p, rec, utcHour, Denied) { var i :| 0 <= i < |ps| && ps[i] == p; }
  }

  /** The applied policies: those for the site, in order. */
  lemma {:induction false} AppliedKeepsOrder(a: seq<Policy>, p: Policy, rec: Recommendation)
    ensures ScopeIds(a + [p], rec) == ScopeIds(a, rec) + if p.sites == [] || rec.site in p.sites then [p.id] else []
    ensures ScopeIds([], rec) == []
  {
    if a == [] {
      assert (a + [p])[1..] == [];
    } else {
      AppliedKeepsOrder(a[1..], p, rec);
      assert (a + [p])[1..] == a[1..] + [p];
    }
  }

  // ----- the documented rule -----

  /** "The first verdict other than APPROVED wins", as the documentation has it: the first
      objection of a policy in scope, or the recommendation's own flag when there is none. */
  function FirstObjection(ps: seq<Policy>, rec: Recommendation, utcHour: int): (d: Decision)
  {
    if ps == [] then (if rec.requiresHuman then NeedsHuman else Approved)
    else if InScope(ps[0], rec) && EvalOne(ps[0], rec, utcHour) != Approved then EvalOne(ps[0], rec, utcHour)
    else FirstObjection(ps[1..], rec, utcHour)
  }

  /** The first policy in scope that denies has one before it that asks for a human. */
  ghost predicate HumanBeforeDenial(ps: seq<Policy>, rec: Recommendation, utcHour: int) {
    exists i, j :: 0 <= i < j < |ps| && Gives(ps[i], rec, utcHour, NeedsHuman) && Gives(ps[j], rec, utcHour, Denied)
      && forall k :: 0 <= k < j ==> !Gives(ps[k], rec, utcHour, Denied)
  }

  /** MAIN: the code's decision is the documented one exactly when no policy in scope asks
      for a human before the first one that denies. */
  lemma {:induction false} FirstObjectionWinsIff(ps: seq<Policy>, rec: Recommendation, utcHour: int)
    ensures Verdict(ps, rec, utcHour) == FirstObjection(ps, rec, utcHour) <==> !HumanBeforeDenial(ps, rec, utcHour)
  {
    hide EvalOne;
    VerdictMeans(ps, rec, utcHour);
    if ps != [] {
      var rest := ps[1..];
      if !InScope(ps[0], rec) || EvalOne(ps[0], rec, utcHour) == Approved {
        FirstObjectionWinsIff(rest, rec, utcHour);
        HumanBeforeDenialShifts(ps, rec, utcHour);
      } else if EvalOne(ps[0], rec, utcHour) == Denied {
        assert Gives(ps[0], rec, utcHour, Denied);
      } else {
        assert Gives(ps[0], rec, utcHour, NeedsHuman);
        if AnyGives(ps, rec, utcHour, Denied) {
          var j := FirstDenial(ps, rec, utcHour);
          assert j > 0;
        }
      }
    }
  }

  lemma HumanBeforeDenialShifts(ps: seq<Policy>, rec: Recommendation, utcHour: int)
    requires ps != [] && !Gives(ps[0], rec, utcHour, NeedsHuman) && !Gives(ps[0], rec, utcHour, Denied)
    ensures HumanBeforeDenial(ps, rec, utcHour) <==> HumanBeforeDenial(ps[1..], rec, utcHour)
  {
    hide Gives;
    var rest := ps[1..];
    assert forall k :: 0 <= k < |rest| ==> rest[k] == ps[k + 1];
    if i, j :| 0 <= i < j < |ps| && Gives(ps[i], rec, utcHour, NeedsHuman) && Gives(ps[j], rec, utcHour, Denied)
               && forall k :: 0 <= k < j ==> !Gives(ps[k], rec, utcHour, Denied) {
      assert rest[i - 1] == ps[i] && rest[j - 1] == ps[j];
    }
    if i, j :| 0 <= i < j < |rest| && Gives(rest[i], rec, utcHour, NeedsHuman) && Gives(rest[j], rec, utcHour, Denied)
               && forall k :: 0 <= k < j ==> !Gives(rest[k], rec, utcHour, Denied) {
      assert forall k :: 0 < k < j + 1 ==> ps[k] == rest[k - 1];
      assert Gives(ps[i + 1], rec, utcHour, NeedsHuman) && Gives(ps[j + 1], rec, utcHour, Denied);
    }
  }

  lemma FirstDenial(ps: seq<Policy>, rec: Recommendation, utcHour: int) returns (j: nat)
    requires AnyGives(ps, rec, utcHour, Denied)
    ensures j < |ps| && Gives(ps[j], rec, utcHour, Denied)
    ensures forall k :: 0 <= k < j ==> !Gives(ps[k], rec, utcHour, Denied)
  {
    hide Gives;
    j := 0;
    while !Gives(ps[j], rec, utcHour, Denied)
      invariant j < |ps| && forall k :: 0 <= k < j ==> !Gives(ps[k], rec, utcHour, Denied)
      decreases |ps| - j
    {
      assert exists i :: j < i < |ps| && Gives(ps[i], rec, utcHour, Denied) by {
        var i :| 0 <= i < |ps| && Gives(ps[i], rec, utcHour, Denied);
        assert i > j;
      }
      j := j + 1;
    }
  }

  /** Where they differ: a policy that asks for a human, then a change freeze. */
  lemma {:induction false} HumanThenFreezeIsDenied(rec: Recommendation, utcHour: int)
    requires |rec.targets| > 0
    ensures
      (var ps := [Policy("radius", BlastRadius(0), []), Policy("freeze", ChangeFreeze(true), [])];
       FirstObjection(ps, rec, utcHour) == NeedsHuman && Verdict(ps, rec, utcHour) == Denied)
  {
    var ps := [Policy("radius", BlastRadius(0), []), Policy("freeze", ChangeFreeze(true), [])];
    VerdictMeans(ps, rec, utcHour);
    assert Gives(ps[1], rec, utcHour, Denied);
  }

  // ----- the engine -----

  class PolicyEngine {
    const policies: seq<Policy>

    constructor (policies: seq<Policy>)
      ensures this.policies == policies
    {
      this.policies := policies;
    }

    /** The decision is the maximum verdict; the reason is the first policy that gave it. */
    method Evaluate(rec: Recommendation, utcHour: int) returns (decision: Decision, reason: Option<Reason>,
                    applied: seq<string>)
      ensures decision == Verdict(policies, rec, utcHour)
      ensures decision == Approved <==> reason == None
      ensures decision == Denied ==>
                exists i :: 0 <= i < |policies| && Gives(policies[i], rec, utcHour, Denied)
                  && reason == Some(ByPolicy(policies[i].id))
                  && forall j :: 0 <= j < i ==> !Gives(policies[j], rec, utcHour, Denied)
      ensures decision == NeedsHuman && AnyGives(policies, rec, utcHour, NeedsHuman) ==>
                exists i :: 0 <= i < |policies| && Gives(policies[i], rec, utcHour, NeedsHuman)
                  && reason == Some(ByPolicy(policies[i].id))
                  && forall j :: 0 <= j < i ==> !Gives(policies[j], rec, utcHour, NeedsHuman)
      ensures decision == NeedsHuman && !AnyGives(policies, rec, utcHour, NeedsHuman) ==> reason == Some(SelfFlagged)
      ensures applied == ScopeIds(policies, rec) + if reason == Some(SelfFlagged) then ["self-flag"] else []
    {
      var denyReason, humanReason;
      applied, denyReason, humanReason := Scan(rec, utcHour);
      VerdictMeans(policies, rec, utcHour);
      if denyReason.Some? { return Denied, Some(ByPolicy(denyReason.value)), applied; }
      if rec.requiresHuman && humanReason.None? {
        return NeedsHuman, Some(SelfFlagged), applied + ["self-flag"];
      }
      if humanReason.Some? { return NeedsHuman, Some(ByPolicy(humanReason.value)), applied; }
      return Approved, None, applied;
    }

    /** The loop over policies. */
    method Scan(rec: Recommendation, utcHour: int)
      returns (applied: seq<string>, denyReason: Option<string>, humanReason: Option<string>)
      ensures applied == ScopeIds(policies, rec)
      ensures denyReason == FirstGiving(policies, rec, utcHour, Denied)
      ensures humanReason == FirstGiving(policies, rec, utcHour, NeedsHuman)
    {
      hide AnyGives, FirstGiving, EvalOne, ScopeIds;
      applied, denyReason, humanReason := [], None, None;
      NothingInScope(rec, utcHour);
      for k := 0 to |policies|
        invariant applied + ScopeIds(policies[k..], rec) == ScopeIds(policies, rec)
        invariant FirstGiving(policies, rec, utcHour, Denied)
               == if denyReason.Some? then denyReason else FirstGiving(policies[k..], rec, utcHour, Denied)
        invariant FirstGiving(policies, rec, utcHour, NeedsHuman)
               == if humanReason.Some? then humanReason else FirstGiving(policies[k..], rec, utcHour, NeedsHuman)
      {
        var p := policies[k];
        assert policies[k..][1..] == policies[k + 1..];
        ScopeIdsStep(policies[k..], rec);
        FirstGivingStep(policies[k..], rec, utcHour, Denied);
        FirstGivingStep(policies[k..], rec, utcHour, NeedsHuman);
        if p.sites != [] && rec.site !in p.sites { continue; }
        var d := EvalOne(p, rec, utcHour);
        applied := applied + [p.id];
        if d == Denied && denyReason == None {
          denyReason := Some(p.id);
        } else if d == NeedsHuman && humanReason == None {
          humanReason := Some(p.id);
        }
      }
    }
  }
}
