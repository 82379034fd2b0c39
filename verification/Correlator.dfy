/** The cross-site correlator (apps/control_plane/cross_site_correlator.py).

    The decision to propagate is taken target by target in `record_prediction`, but its
    caller then publishes to every other site.  The two agree only because all targets
    of one (origin, kind) always carry the same cooldown stamp. */
module Correlator {
  import opened Wrappers

  datatype Config = Config(threshold: int, floor: real, window: real, cooldown: real)

  /** A raw prediction; a field is None when it is missing or has the wrong type. */
  datatype Prediction = Prediction(site: Option<string>, kind: Option<string>, probability: Option<real>,
      device: string)

  datatype Hit = Hit(at: real, confidence: real, device: string)

  /** The time of the last propagation by (origin, kind, target). */
  type Stamps = map<(string, string, string), real>

  datatype State = State(hits: map<(string, string), seq<Hit>>, last: Stamps)

  // ----- one prediction -----

  predicate Accepted(e: Prediction, cfg: Config) {
    e.site.Some? && e.kind.Some? && e.probability.Some? && e.probability.value >= cfg.floor
  }

  function PurgeOld(bucket: seq<Hit>, cutoff: real): (r: seq<Hit>)
  {
    if bucket != [] && bucket[0].at < cutoff then PurgeOld(bucket[1..], cutoff) else bucket
  }

  function StampOr0(last: Stamps, key: (string, string, string)): (r: real)
  {
    if key in last then last[key] else 0.0
  }

  /** The targets found ready, one after the other: each is stamped as it is found. */
  function Ready(sites: seq<string>, o: string, k: string, now: real, last: Stamps, cooldown: real): (r: seq<string>)
  {
    if sites == [] then []
    else if sites[0] == o || now - StampOr0(last, (o, k, sites[0])) < cooldown then Ready(sites[1..], o, k, now,
        last, cooldown)
    else [sites[0]] + Ready(sites[1..], o, k, now, last[(o, k, sites[0]) := now], cooldown)
  }

  function Stamped(sites: seq<string>, o: string, k: string, now: real, last: Stamps, cooldown: real): (r: Stamps)
  {
    if sites == [] then last
    else if sites[0] == o || now - StampOr0(last, (o, k, sites[0])) < cooldown then Stamped(sites[1..], o, k, now,
        last, cooldown)
    else Stamped(sites[1..], o, k, now, last[(o, k, sites[0]) := now], cooldown)
  }

  function Bucket(s: State, site: string, kind: string): (r: seq<Hit>)
  {
    if (site, kind) in s.hits then s.hits[(site, kind)] else []
  }

  /** The bucket of an accepted prediction once it has been added. */
  function NewBucket(s: State, e: Prediction, now: real, cfg: Config): (r: seq<Hit>)
    requires Accepted(e, cfg)
  {
    PurgeOld(Bucket(s, e.site.value, e.kind.value) + [Hit(now, e.probability.value, e.device)], now - cfg.window)
  }

  function RecordReady(s: State, e: Prediction, now: real, sites: seq<string>, cfg: Config): (r: seq<string>)
  {
    if !Accepted(e, cfg) || |NewBucket(s, e, now, cfg)| < cfg.threshold then []
    else Ready(sites, e.site.value, e.kind.value, now, s.last, cfg.cooldown)
  }

  function Record(s: State, e: Prediction, now: real, sites: seq<string>, cfg: Config): (r: State)
  {
    if !Accepted(e, cfg) then s
    else
      var bucket := NewBucket(s, e, now, cfg);
      State(s.hits[(e.site.value, e.kind.value) := bucket],
            if |bucket| < cfg.threshold then s.last
            else Stamped(sites, e.site.value, e.kind.value, now, s.last, cfg.cooldown))
  }

  /** Whom `run_correlator` publishes to. */
  function FanOut(sites: seq<string>, origin: string): (r: seq<string>)
    ensures forall t :: t in r <==> t in sites && t != origin
  {
    if sites == [] then [] else (if sites[0] == origin then [] else [sites[0]]) + FanOut(sites[1..], origin)
  }

  // ----- all or none -----

  /** All targets of one (origin, kind) have the same stamp, or all have none. */
  ghost predicate AllOrNone(last: Stamps, sites: seq<string>) {
    forall o, k, t, t' :: t in sites && t' in sites && t != o && t' != o ==>
      && ((o, k, t) in last <==> (o, k, t') in last)
      && StampOr0(last, (o, k, t)) == StampOr0(last, (o, k, t'))
  }

  /** From a common stamp either every target is ready, and all get stamped, or none is. */
  lemma {:induction false} MarkAllOrNone(sites: seq<string>, o: string, k: string, now: real,
                                         last: Stamps, cooldown: real, stamp: real)
    requires forall t :: t in sites && t != o ==>
               StampOr0(last, (o, k, t)) == stamp
                   || ((o, k, t) in last && last[(o, k, t)] == now && now - stamp >= cooldown)
    ensures now - stamp < cooldown ==>
        Ready(sites, o, k, now, last, cooldown) == [] && Stamped(sites, o, k, now, last, cooldown) == last
    ensures now - stamp >= cooldown ==>
              var last' := Stamped(sites, o, k, now, last, cooldown);
              && (forall t :: t in sites && t != o ==> (o, k, t) in last' && last'[(o, k, t)] == now)
              && (forall key :: key in last ==> key in last' && (last'[key] == last[key] || last'[key] == now))
              && (forall key :: key in last' && (key.0 != o || key.1 != k || key.2 == o || key.2 !in sites) ==>
                    key in last && last'[key] == last[key])
  {
    if sites != [] {
      var t := sites[0];
      assert forall u :: u in sites[1..] ==> u in sites;
      if t == o || now - StampOr0(last, (o, k, t)) < cooldown {
        MarkAllOrNone(sites[1..], o, k, now, last, cooldown, stamp);
      } else {
        MarkAllOrNone(sites[1..], o, k, now, last[(o, k, t) := now], cooldown, stamp);
      }
    }
  }

  ghost predicate Distinct(s: seq<string>) {
    forall i, j :: 0 <= i < j < |s| ==> s[i] != s[j]
  }

  lemma DistinctCons(t: string, rest: seq<string>)
    ensures Distinct([t] + rest) <==> Distinct(rest) && t !in rest
  {
    var all := [t] + rest;
    if Distinct(rest) && t !in rest {
      forall i, j | 0 <= i < j < |all| ensures all[i] != all[j] {
        assert all[j] == rest[j - 1];
        if i > 0 { assert all[i] == rest[i - 1]; }
      }
    }
    if Distinct(all) {
      assert forall i :: 0 <= i < |rest| ==> all[i + 1] == rest[i] && all[0] != all[i + 1];
      forall i, j | 0 <= i < j < |rest| ensures rest[i] != rest[j] {
        assert rest[i] == all[i + 1] && rest[j] == all[j + 1];
      }
    }
  }

  /** Ready targets when everything in `done` has just been stamped. */
  lemma {:induction false} ReadyIsFanOutIff(sites: seq<string>, o: string, k: string, now: real,
                                            last: Stamps, cooldown: real, done: seq<string>, stamp: real)
    requires cooldown <= now - stamp && 0.0 < cooldown
    requires forall t :: t in sites && t != o ==> StampOr0(last, (o, k, t)) == if t in done then now else stamp
    ensures |Ready(sites, o, k, now, last, cooldown)| <= |FanOut(sites, o)|
    ensures Ready(sites, o, k, now, last, cooldown) == FanOut(sites, o)
       <==> Distinct(FanOut(sites, o)) && forall t :: t in FanOut(sites, o) ==> t !in done
  {
    if sites != [] {
      var t, rest := sites[0], FanOut(sites[1..], o);
      assert forall u :: u in sites[1..] ==> u in sites;
      if t == o {
        assert FanOut(sites, o) == rest;
        ReadyIsFanOutIff(sites[1..], o, k, now, last, cooldown, done, stamp);
      } else if t in done {
        ReadyIsFanOutIff(sites[1..], o, k, now, last, cooldown, done, stamp);
        assert FanOut(sites, o)[0] == t;
      } else {
        ReadyIsFanOutIff(sites[1..], o, k, now, last[(o, k, t) := now], cooldown, done + [t], stamp);
        var all := FanOut(sites, o);
        assert all[1..] == rest && all[0] == t;
        assert Ready(sites, o, k, now, last, cooldown)[1..] == Ready(sites[1..], o, k, now, last[(o, k, t) := now],
            cooldown);
        DistinctCons(t, rest);
      }
    }
  }

  /** Without a cooldown, a stamp of now does not hold a repeated target back. */
  lemma {:induction false} ReadyWithoutCooldown(sites: seq<string>, o: string, k: string, now: real,
                                                last: Stamps, cooldown: real)
    requires cooldown <= 0.0
    requires forall t :: t in sites && t != o ==> now - StampOr0(last, (o, k, t)) >= cooldown
    ensures Ready(sites, o, k, now, last, cooldown) == FanOut(sites, o)
  {
    if sites != [] {
      var t := sites[0];
      assert forall u :: u in sites[1..] ==> u in sites;
      ReadyWithoutCooldown(sites[1..], o, k, now, if t == o then last else last[(o, k, t) := now], cooldown);
    }
  }

  /** The same for any state whose stamps are all-or-none. */
  lemma {:induction false} PublishesExactlyReadyIff(sites: seq<string>, o: string, k: string, now: real,
                                 last: Stamps, cooldown: real)
    requires AllOrNone(last, sites)
    requires Ready(sites, o, k, now, last, cooldown) != []
    ensures Ready(sites, o, k, now, last, cooldown) == FanOut(sites, o)
        <==> cooldown <= 0.0 || Distinct(FanOut(sites, o))
  {
    var stamp := CommonStamp(last, sites, o, k);
    MarkAllOrNone(sites, o, k, now, last, cooldown, stamp);
    if cooldown <= 0.0 {
      ReadyWithoutCooldown(sites, o, k, now, last, cooldown);
    } else {
      ReadyIsFanOutIff(sites, o, k, now, last, cooldown, [], stamp);
    }
  }

  /** The stamp all targets share; 0 when there is no other site. */
  lemma CommonStamp(last: Stamps, sites: seq<string>, o: string, k: string) returns (stamp: real)
    requires AllOrNone(last, sites)
    ensures forall t :: t in sites && t != o ==> StampOr0(last, (o, k, t)) == stamp
  {
    stamp := 0.0;
    if t :| t in sites && t != o { stamp := StampOr0(last, (o, k, t)); }
  }

  // ----- runs -----

  datatype Arrival = Arrival(event: Prediction, now: real)

  ghost predicate InTimeOrder(trace: seq<Arrival>) {
    forall i, j :: 0 <= i < j < |trace| ==> trace[i].now <= trace[j].now
  }

  function After(trace: seq<Arrival>, sites: seq<string>, cfg: Config): (s: State)
  {
    if trace == [] then State(map[], map[])
    else
      var a := trace[|trace| - 1];
      Record(After(trace[..|trace| - 1], sites, cfg), a.event, a.now, sites, cfg)
  }

  /** Whether the correlator propagates on the last prediction of the trace. */
  predicate Propagates(trace: seq<Arrival>, sites: seq<string>, cfg: Config) {
    trace != []
    && var a := trace[|trace| - 1];
       RecordReady(After(trace[..|trace| - 1], sites, cfg), a.event, a.now, sites, cfg) != []
  }

  predicate OfKey(e: Prediction, o: string, k: string, cfg: Config) {
    Accepted(e, cfg) && e.site.value == o && e.kind.value == k
  }

  // ----- what the decision should be, read off the trace alone -----

  /** The qualifying predictions of one (site, kind), in arrival order. */
  function Qualifying(trace: seq<Arrival>, o: string, k: string, cfg: Config): (r: seq<Hit>)
  {
    if trace == [] then []
    else
      var q, a := Qualifying(trace[..|trace| - 1], o, k, cfg), trace[|trace| - 1];
      if OfKey(a.event, o, k, cfg) then q + [Hit(a.now, a.event.probability.value, a.event.device)] else q
  }

  function Since(hits: seq<Hit>, cutoff: real): (r: seq<Hit>)
  {
    if hits == [] then [] else (if hits[0].at >= cutoff then [hits[0]] else []) + Since(hits[1..], cutoff)
  }

  predicate ShouldPropagate(trace: seq<Arrival>, sites: seq<string>, cfg: Config)
    decreases |trace|, 1
  {
    && trace != []
    && var a := trace[|trace| - 1];
       && Accepted(a.event, cfg)
       && |Since(Qualifying(trace, a.event.site.value, a.event.kind.value, cfg), a.now - cfg.window)| >= cfg.threshold
       && FanOut(sites, a.event.site.value) != []
       && a.now - LastPropagation(trace[..|trace| - 1], a.event.site.value, a.event.kind.value, sites,
           cfg) >= cfg.cooldown
  }

  /** When the trace last propagated this (origin, kind); 0 when it never did. */
  function LastPropagation(trace: seq<Arrival>, o: string, k: string, sites: seq<string>, cfg: Config): (r: real)
    decreases |trace|, 2
  {
    if trace == [] then 0.0
    else if OfKey(trace[|trace| - 1].event, o, k, cfg) && ShouldPropagate(trace, sites, cfg) then trace[|trace| - 1].now
    else LastPropagation(trace[..|trace| - 1], o, k, sites, cfg)
  }

  // ----- the bucket is the window of the trace -----

  lemma {:induction false} SinceAppend(hits: seq<Hit>, h: Hit, cutoff: real)
    ensures Since(hits + [h], cutoff) == Since(hits, cutoff) + (if h.at >= cutoff then [h] else [])
  {
    if hits != [] {
      SinceAppend(hits[1..], h, cutoff);
      assert (hits + [h])[1..] == hits[1..] + [h];
    }
  }

  lemma {:induction false} SinceTwice(hits: seq<Hit>, cutoff: real, later: real)
    requires cutoff <= later
    ensures Since(Since(hits, cutoff), later) == Since(hits, later)
  {
    if hits != [] {
      SinceTwice(hits[1..], cutoff, later);
      var kept := Since(hits, cutoff);
      if hits[0].at >= cutoff {
        assert kept[0] == hits[0] && kept[1..] == Since(hits[1..], cutoff);
      } else {
        assert kept == Since(hits[1..], cutoff);
      }
    }
  }

  ghost predicate Ascending(hits: seq<Hit>) {
    forall i, j :: 0 <= i < j < |hits| ==> hits[i].at <= hits[j].at
  }

  lemma {:induction false} SinceMembers(hits: seq<Hit>, cutoff: real)
    requires Ascending(hits)
    ensures Ascending(Since(hits, cutoff))
    ensures forall h :: h in Since(hits, cutoff) ==> h in hits
  {
    if hits != [] {
      SinceMembers(hits[1..], cutoff);
      var r, tail := Since(hits, cutoff), Since(hits[1..], cutoff);
      if hits[0].at >= cutoff {
        forall i, j | 0 <= i < j < |r| ensures r[i].at <= r[j].at {
          assert r[j] == tail[j - 1] && tail[j - 1] in tail && tail[j - 1] in hits[1..];
          var m :| 0 <= m < |hits| - 1 && hits[1..][m] == r[j];
          assert r[j] == hits[m + 1];
          if i > 0 { assert r[i] == tail[i - 1]; }
        }
      } else {
        assert r == tail;
      }
    }
  }

  lemma {:induction false} PurgeIsSince(hits: seq<Hit>, cutoff: real)
    requires Ascending(hits)
    ensures PurgeOld(hits, cutoff) == Since(hits, cutoff)
  {
    if hits != [] {
      PurgeIsSince(hits[1..], cutoff);
      if hits[0].at >= cutoff {
        assert hits[1..] == [] || hits[1].at >= cutoff;
        assert hits == [hits[0]] + hits[1..];
      }
    }
  }

  /** The hits of the window that ends at the last of them. */
  function Windowed(hits: seq<Hit>, window: real): (r: seq<Hit>)
  {
    if hits == [] then [] else Since(hits, hits[|hits| - 1].at - window)
  }

  lemma {:induction false} QualifyingAscends(trace: seq<Arrival>, o: string, k: string, cfg: Config)
    requires InTimeOrder(trace)
    ensures Ascending(Qualifying(trace, o, k, cfg))
    ensures forall h :: h in Qualifying(trace, o, k, cfg) ==> trace != [] && h.at <= trace[|trace| - 1].now
  {
    if trace != [] { QualifyingAscends(trace[..|trace| - 1], o, k, cfg); }
  }

  /** MAIN: every bucket holds exactly the qualifying predictions of its (site, kind)
      from the window that ends at the last of them, in arrival order. */
  lemma {:induction false} BucketIsWindow(trace: seq<Arrival>, o: string, k: string, sites: seq<string>, cfg: Config)
    requires InTimeOrder(trace)
    ensures Bucket(After(trace, sites, cfg), o, k) == Windowed(Qualifying(trace, o, k, cfg), cfg.window)
  {
    hide Since, Stamped, PurgeOld;
    if trace != [] {
      var pre, a := trace[..|trace| - 1], trace[|trace| - 1];
      BucketIsWindow(pre, o, k, sites, cfg);
      if OfKey(a.event, o, k, cfg) {
        QualifyingAscends(pre, o, k, cfg);
        PurgedIsWindowed(Qualifying(pre, o, k, cfg), Hit(a.now, a.event.probability.value, a.event.device), cfg.window);
      }
    }
  }

  lemma WindowedAscends(q: seq<Hit>, window: real)
    requires Ascending(q)
    ensures Ascending(Windowed(q, window)) && forall g :: g in Windowed(q, window) ==> g in q
  {
    hide Since, Ascending;
    if q != [] { SinceMembers(q, q[|q| - 1].at - window); } else { NothingAscends(); }
  }

  lemma NothingAscends()
    ensures Ascending([])
  {
  }

  lemma AscendingAppend(b: seq<Hit>, q: seq<Hit>, h: Hit)
    requires Ascending(b) && (forall g :: g in b ==> g in q) && forall g :: g in q ==> g.at <= h.at
    ensures Ascending(b + [h])
  {
    assert forall i :: 0 <= i < |b| ==> b[i] in b;
  }

  /** Appending to a windowed bucket and purging it keeps it windowed. */
  lemma {:induction false} PurgedIsWindowed(q: seq<Hit>, h: Hit, window: real)
    requires Ascending(q) && forall g :: g in q ==> g.at <= h.at
    ensures PurgeOld(Windowed(q, window) + [h], h.at - window) == Windowed(q + [h], window)
  {
    hide Since, PurgeOld, Ascending;
    var b, cut := Windowed(q, window), h.at - window;
    WindowedAscends(q, window);
    AscendingAppend(b, q, h);
    if q != [] {
      var at := q[|q| - 1].at;
      assert q[|q| - 1] in q;
      SinceTwice(q, at - window, cut);
    }
    PurgeIsSince(b + [h], cut);
    SinceAppend(b, h, cut);
    SinceAppend(q, h, cut);
  }

  /** The bucket an accepted prediction is judged by is the window that ends now. */
  lemma NewBucketIsWindow(trace: seq<Arrival>, sites: seq<string>, cfg: Config)
    requires InTimeOrder(trace) && trace != [] && Accepted(trace[|trace| - 1].event, cfg)
    ensures
      (var a := trace[|trace| - 1];
       NewBucket(After(trace[..|trace| - 1], sites, cfg), a.event, a.now, cfg)
       == Since(Qualifying(trace, a.event.site.value, a.event.kind.value, cfg), a.now - cfg.window))
  {
    hide Since, Stamped, PurgeOld;
    var pre, a := trace[..|trace| - 1], trace[|trace| - 1];
    var o, k := a.event.site.value, a.event.kind.value;
    BucketIsWindow(pre, o, k, sites, cfg);
    QualifyingAscends(pre, o, k, cfg);
    PurgedIsWindowed(Qualifying(pre, o, k, cfg), Hit(a.now, a.event.probability.value, a.event.device), cfg.window);
  }

  // ----- the decision is the one the trace calls for -----

  /** Stamps record the last propagation of their (origin, kind), for every target alike. */
  ghost predicate StampsAgree(trace: seq<Arrival>, sites: seq<string>, cfg: Config) {
    && AllOrNone(After(trace, sites, cfg).last, sites)
    && forall o, k, t :: t in sites && t != o ==>
         StampOr0(After(trace, sites, cfg).last, (o, k, t)) == LastPropagation(trace, o, k, sites, cfg)
  }

  lemma {:induction false} StampsAlwaysAgree(trace: seq<Arrival>, sites: seq<string>, cfg: Config)
    requires InTimeOrder(trace)
    ensures StampsAgree(trace, sites, cfg)
    decreases |trace|
  {
    if trace != [] {
      var pre, a := trace[..|trace| - 1], trace[|trace| - 1];
      StampsAlwaysAgree(pre, sites, cfg);
      if Accepted(a.event, cfg) { RecordKeepsAgreement(trace, sites, cfg); }
    }
  }

  lemma RecordKeepsAgreement(trace: seq<Arrival>, sites: seq<string>, cfg: Config)
    requires InTimeOrder(trace) && trace != [] && Accepted(trace[|trace| - 1].event, cfg)
    requires StampsAgree(trace[..|trace| - 1], sites, cfg)
    ensures StampsAgree(trace, sites, cfg)
  {
    hide NewBucket, Since, Ready, Stamped, Qualifying;
    var pre, a := trace[..|trace| - 1], trace[|trace| - 1];
    var o, k, s := a.event.site.value, a.event.kind.value, After(pre, sites, cfg);
    NewBucketIsWindow(trace, sites, cfg);
    MarkAllOrNone(sites, o, k, a.now, s.last, cfg.cooldown, LastPropagation(pre, o, k, sites, cfg));
    var s' := After(trace, sites, cfg);
    forall o', k', t | t in sites && t != o'
      ensures StampOr0(s'.last, (o', k', t)) == LastPropagation(trace, o', k', sites, cfg)
    {
    }
  }

  /** MAIN: the correlator propagates exactly when the prediction qualifies, its window
      has reached the threshold, there is another site, and at least one cooldown has
      passed since this (origin, kind) last propagated (since time 0 if it never did). */
  lemma {:induction false} PropagatesIff(trace: seq<Arrival>, sites: seq<string>, cfg: Config)
    requires InTimeOrder(trace)
    ensures Propagates(trace, sites, cfg) <==> ShouldPropagate(trace, sites, cfg)
  {
    if trace != [] && Accepted(trace[|trace| - 1].event, cfg) {
      hide NewBucket, Since, Stamped, Qualifying;
      var pre, a := trace[..|trace| - 1], trace[|trace| - 1];
      var o, k, s := a.event.site.value, a.event.kind.value, After(pre, sites, cfg);
      StampsAlwaysAgree(pre, sites, cfg);
      NewBucketIsWindow(trace, sites, cfg);
      var stamp := LastPropagation(pre, o, k, sites, cfg);
      MarkAllOrNone(sites, o, k, a.now, s.last, cfg.cooldown, stamp);
      ReadyNonEmptyIff(sites, o, k, a.now, s.last, cfg.cooldown, stamp);
    }
  }

  lemma {:induction false} ReadyNonEmptyIff(sites: seq<string>, o: string, k: string, now: real,
                                            last: Stamps, cooldown: real, stamp: real)
    requires forall t :: t in sites && t != o ==> StampOr0(last, (o, k, t)) == stamp
    ensures Ready(sites, o, k, now, last, cooldown) != [] <==> FanOut(sites, o) != [] && now - stamp >= cooldown
  {
    if sites != [] {
      assert forall u :: u in sites[1..] ==> u in sites;
      if sites[0] == o || now - stamp < cooldown { ReadyNonEmptyIff(sites[1..], o, k, now, last, cooldown, stamp); }
    }
  }

  /** MAIN: two propagations of the same (origin, kind), hence two candidates for the
      same (origin, kind, target), are at least one cooldown apart. */
  lemma {:induction false} PropagationsSpaced(trace: seq<Arrival>, i: nat, sites: seq<string>, cfg: Config)
    requires InTimeOrder(trace) && i + 1 < |trace|
    requires Propagates(trace[..i + 1], sites, cfg) && Propagates(trace, sites, cfg)
    requires var a, b := trace[i].event, trace[|trace| - 1].event; a.site == b.site && a.kind == b.kind
    ensures trace[|trace| - 1].now - trace[i].now >= cfg.cooldown
  {
    var pre, e := trace[..|trace| - 1], trace[i].event;
    PropagatesIff(trace, sites, cfg);
    PropagatesIff(trace[..i + 1], sites, cfg);
    assert pre[..i + 1] == trace[..i + 1];
    LastPropagationAfter(pre, i, sites, cfg);
  }

  lemma {:induction false} LastPropagationAfter(trace: seq<Arrival>, i: nat, sites: seq<string>, cfg: Config)
    requires InTimeOrder(trace) && i < |trace| && ShouldPropagate(trace[..i + 1], sites, cfg)
    ensures LastPropagation(trace, trace[i].event.site.value, trace[i].event.kind.value, sites, cfg) >= trace[i].now
    decreases |trace|
  {
    var n := |trace| - 1;
    if i < n {
      assert trace[..n][..i + 1] == trace[..i + 1];
      LastPropagationAfter(trace[..n], i, sites, cfg);
    } else {
      assert trace[..i + 1] == trace;
    }
  }

  // ----- the decision, by counting -----

  /** Place `j` of the trace holds a prediction of this site and kind with at least the
      confidence floor. */
  predicate Counts(trace: seq<Arrival>, j: nat, o: string, k: string, floor: real)
    requires j < |trace|
  {
    var e := trace[j].event;
    e.site == Some(o) && e.kind == Some(k) && e.probability.Some? && e.probability.value >= floor
  }

  /** The places of those that arrived at `since` or later. */
  ghost function Recent(trace: seq<Arrival>, o: string, k: string, floor: real, since: real): (places: set<nat>)
  {
    set j: nat | j < |trace| && Counts(trace, j, o, k, floor) && trace[j].now >= since
  }

  lemma {:induction false} QualifyingAreCounted(trace: seq<Arrival>, o: string, k: string, cfg: Config, since: real)
    ensures |Since(Qualifying(trace, o, k, cfg), since)| == |Recent(trace, o, k, cfg.floor, since)|
  {
    if trace == [] {
      assert Recent(trace, o, k, cfg.floor, since) == {};
    } else {
      var n := |trace| - 1;
      var a := trace[n];
      QualifyingAreCounted(trace[..n], o, k, cfg, since);
      assert forall j: nat :: j < n ==> (Counts(trace[..n], j, o, k, cfg.floor) <==> Counts(trace, j, o, k, cfg.floor));
      assert Recent(trace, o, k, cfg.floor, since)
          == Recent(trace[..n], o, k, cfg.floor, since)
             + if Counts(trace, n, o, k, cfg.floor) && a.now >= since then {n} else {};
      if OfKey(a.event, o, k, cfg) {
        SinceAppend(Qualifying(trace[..n], o, k, cfg), Hit(a.now, a.event.probability.value, a.event.device), since);
      }
    }
  }

  /** The correlator propagated this (origin, kind) on the prediction at place `i`. */
  predicate PropagatedAt(trace: seq<Arrival>, i: nat, o: string, k: string, sites: seq<string>, cfg: Config)
    requires i < |trace|
  {
    trace[i].event.site == Some(o) && trace[i].event.kind == Some(k) && Propagates(trace[..i + 1], sites, cfg)
  }

  lemma PropagatedInPrefix(trace: seq<Arrival>, o: string, k: string, sites: seq<string>, cfg: Config)
    requires trace != []
    ensures forall i: nat :: i < |trace| - 1 ==>
              (PropagatedAt(trace[..|trace| - 1], i, o, k, sites, cfg) <==> PropagatedAt(trace, i, o, k, sites, cfg))
  {
    hide Propagates;
    var pre := trace[..|trace| - 1];
    forall i: nat | i < |trace| - 1
      ensures PropagatedAt(pre, i, o, k, sites, cfg) <==> PropagatedAt(trace, i, o, k, sites, cfg)
    {
      assert pre[..i + 1] == trace[..i + 1];
    }
  }

  lemma {:induction false} LastPropagationStep(trace: seq<Arrival>, o: string, k: string, sites: seq<string>,
                                               cfg: Config)
    requires InTimeOrder(trace) && trace != []
    ensures var n := |trace| - 1;
            LastPropagation(trace, o, k, sites, cfg)
            == if PropagatedAt(trace, n, o, k, sites, cfg) then trace[n].now else LastPropagation(trace[..n], o, k,
                sites, cfg)
  {
    hide Propagates, ShouldPropagate;
    assert trace[..|trace|] == trace;
    PropagatesIff(trace, sites, cfg);
    ShouldPropagateAccepts(trace, sites, cfg);
  }

  /** The last propagation is the latest of them. */
  lemma {:induction false} LastPropagationMeans(trace: seq<Arrival>, o: string, k: string, sites: seq<string>,
                                                cfg: Config)
    requires InTimeOrder(trace)
    ensures (forall i: nat :: i < |trace| ==> !PropagatedAt(trace, i, o, k, sites, cfg)) ==>
              LastPropagation(trace, o, k, sites, cfg) == 0.0
    ensures forall i: nat :: i < |trace| && PropagatedAt(trace, i, o, k, sites, cfg) ==>
              trace[i].now <= LastPropagation(trace, o, k, sites, cfg)
              && exists j: nat :: j < |trace| && PropagatedAt(trace, j, o, k, sites, cfg)
                    && LastPropagation(trace, o, k, sites, cfg) == trace[j].now
    decreases |trace|
  {
    hide PropagatedAt;
    if trace != [] {
      hide LastPropagation;
      var n := |trace| - 1;
      var pre := trace[..n];
      LastPropagationMeans(pre, o, k, sites, cfg);
      PropagatedInPrefix(trace, o, k, sites, cfg);
      LastPropagationStep(trace, o, k, sites, cfg);
      if !PropagatedAt(trace, n, o, k, sites, cfg) {
        forall i: nat | i < n && PropagatedAt(trace, i, o, k, sites, cfg)
          ensures trace[i].now <= LastPropagation(trace, o, k, sites, cfg)
          ensures exists j: nat :: j < |trace| && PropagatedAt(trace, j, o, k, sites, cfg)
                     && LastPropagation(trace, o, k, sites, cfg) == trace[j].now
        {
          assert PropagatedAt(pre, i, o, k, sites, cfg) && pre[i] == trace[i];
          var j: nat :| j < n && PropagatedAt(pre, j, o, k, sites, cfg)
              && LastPropagation(pre, o, k, sites, cfg) == pre[j].now;
          assert PropagatedAt(trace, j, o, k, sites, cfg) && pre[j] == trace[j];
        }
      }
    }
  }

  lemma {:induction false} ShouldPropagateAccepts(trace: seq<Arrival>, sites: seq<string>, cfg: Config)
    ensures ShouldPropagate(trace, sites, cfg) ==> trace != [] && Accepted(trace[|trace| - 1].event, cfg)
  {
  }

  lemma {:induction false} CooldownOverIff(trace: seq<Arrival>, o: string, k: string, now: real, sites: seq<string>,
                                           cfg: Config)
    requires InTimeOrder(trace)
    ensures now - LastPropagation(trace, o, k, sites, cfg) >= cfg.cooldown <==>
              && (forall i: nat :: i < |trace| && PropagatedAt(trace, i, o, k, sites, cfg) ==>
                    now - trace[i].now >= cfg.cooldown)
              && ((forall i: nat :: i < |trace| ==> !PropagatedAt(trace, i, o, k, sites, cfg)) ==> now >= cfg.cooldown)
  {
    hide PropagatedAt, LastPropagation;
    LastPropagationMeans(trace, o, k, sites, cfg);
    if i: nat :| i < |trace| && PropagatedAt(trace, i, o, k, sites, cfg) {
      var j: nat :| j < |trace| && PropagatedAt(trace, j, o, k, sites, cfg)
                    && LastPropagation(trace, o, k, sites, cfg) == trace[j].now;
    }
  }

  /** MAIN: the whole decision in numbers: a prediction is propagated exactly when it names
      site and kind with at least the confidence floor, at least the threshold of such
      predictions of that site and kind arrived within the window that ends now, there is a
      site other than its own, and the cooldown has passed since every earlier propagation
      of that site and kind (since time 0 if there was none). */
  lemma PropagatesIffCounted(trace: seq<Arrival>, sites: seq<string>, cfg: Config)
    requires InTimeOrder(trace) && trace != []
    ensures
      (var n := |trace| - 1;
       var e, now := trace[n].event, trace[n].now;
       Propagates(trace, sites, cfg) <==>
         && e.site.Some? && e.kind.Some? && e.probability.Some? && e.probability.value >= cfg.floor
         && |Recent(trace, e.site.value, e.kind.value, cfg.floor, now - cfg.window)| >= cfg.threshold
         && (exists t :: t in sites && t != e.site.value)
         && (forall i: nat :: i < n && PropagatedAt(trace, i, e.site.value, e.kind.value, sites, cfg) ==>
               now - trace[i].now >= cfg.cooldown)
         && ((forall i: nat :: i < n ==> !PropagatedAt(trace, i, e.site.value, e.kind.value, sites, cfg)) ==>
               now >= cfg.cooldown))
  {
    hide Propagates, Since, Qualifying, Recent, FanOut, PropagatedAt, LastPropagation;
    var n := |trace| - 1;
    var e, now, pre := trace[n].event, trace[n].now, trace[..n];
    PropagatesIff(trace, sites, cfg);
    if Accepted(e, cfg) {
      var o, k := e.site.value, e.kind.value;
      QualifyingAreCounted(trace, o, k, cfg, now - cfg.window);
      CooldownOverIff(pre, o, k, now, sites, cfg);
      PropagatedInPrefix(trace, o, k, sites, cfg);
      OthersExist(sites, o);
      forall i: nat | i < n && PropagatedAt(trace, i, o, k, sites, cfg)
        ensures PropagatedAt(pre, i, o, k, sites, cfg) && pre[i] == trace[i]
      {
      }
      forall i: nat | i < n && PropagatedAt(pre, i, o, k, sites, cfg)
        ensures PropagatedAt(trace, i, o, k, sites, cfg) && pre[i] == trace[i]
      {
      }
    }
  }

  lemma {:induction false} OthersExist(sites: seq<string>, o: string)
    ensures FanOut(sites, o) != [] <==> exists t :: t in sites && t != o
  {
    if t :| t in sites && t != o { assert t in FanOut(sites, o); }
    if FanOut(sites, o) != [] { assert FanOut(sites, o)[0] in FanOut(sites, o); }
  }

  /** MAIN: in every reachable state, when the correlator propagates, it publishes to
      exactly the targets it found ready if and only if no other site is listed twice or
      there is no cooldown. */
  lemma {:induction false} ReachablePublishesReadyIff(trace: seq<Arrival>, e: Prediction, now: real,
                                                      sites: seq<string>, cfg: Config)
    requires InTimeOrder(trace)
    requires RecordReady(After(trace, sites, cfg), e, now, sites, cfg) != []
    ensures RecordReady(After(trace, sites, cfg), e, now, sites, cfg) == FanOut(sites, e.site.value)
       <==> cfg.cooldown <= 0.0 || Distinct(FanOut(sites, e.site.value))
  {
    StampsAlwaysAgree(trace, sites, cfg);
    PublishesExactlyReadyIff(sites, e.site.value, e.kind.value, now, After(trace, sites, cfg).last, cfg.cooldown);
  }

  /** `n` predictions of the same event at the same time. */
  function Burst(e: Prediction, now: real, n: nat): (trace: seq<Arrival>)
  {
    seq(n, i => Arrival(e, now))
  }

  lemma {:induction false} BurstFillsBucket(e: Prediction, now: real, n: nat, sites: seq<string>, cfg: Config)
    requires Accepted(e, cfg) && cfg.window >= 0.0 && n < cfg.threshold
    ensures var s, hit := After(Burst(e, now, n), sites, cfg), Hit(now, e.probability.value, e.device);
            s.last == map[] && Bucket(s, e.site.value, e.kind.value) == seq(n, i => hit)
  {
    if n > 0 {
      var hit := Hit(now, e.probability.value, e.device);
      BurstFillsBucket(e, now, n - 1, sites, cfg);
      assert Burst(e, now, n)[..n - 1] == Burst(e, now, n - 1);
      assert seq(n - 1, i => hit) + [hit] == seq(n, i => hit);
    }
  }

  /** A site that is listed twice gets two candidates for one decision: a burst that
      reaches the threshold finds it ready once and publishes to it twice. */
  lemma {:induction false} RepeatedSiteSentTwice(e: Prediction, now: real, target: string, cfg: Config)
    requires Accepted(e, cfg) && target != e.site.value
    requires cfg.window >= 0.0 && 1 <= cfg.threshold && 0.0 < cfg.cooldown <= now
    ensures
      (var sites, trace := [target, target], Burst(e, now, cfg.threshold - 1);
       && InTimeOrder(trace)
       && RecordReady(After(trace, sites, cfg), e, now, sites, cfg) == [target]
       && FanOut(sites, e.site.value) == [target, target])
  {
    var sites, n := [target, target], cfg.threshold - 1;
    var s, hit := After(Burst(e, now, n), sites, cfg), Hit(now, e.probability.value, e.device);
    BurstFillsBucket(e, now, n, sites, cfg);
    assert NewBucket(s, e, now, cfg) == seq(n, i => hit) + [hit];
    assert |NewBucket(s, e, now, cfg)| == cfg.threshold;
    assert sites[1..] == [target] && [target][1..] == [];
    assert FanOut([target], e.site.value) == [target];
    var o, k := e.site.value, e.kind.value;
    var once: Stamps := map[(o, k, target) := now];
    assert Ready([target], o, k, now, once, cfg.cooldown) == [] by {
      assert StampOr0(once, (o, k, target)) == now;
    }
    assert Ready(sites, o, k, now, map[], cfg.cooldown) == [target] + Ready([target], o, k, now, once, cfg.cooldown);
  }

  // ----- the sample of devices -----

  const SAMPLE_SIZE := 5

  /** Python's order on strings. */
  predicate Before(a: string, b: string) {
    b != [] && (a == [] || a[0] < b[0] || (a[0] == b[0] && Before(a[1..], b[1..])))
  }

  lemma {:induction false} BeforeIsTotal(a: string, b: string)
    ensures Before(a, b) || a == b || Before(b, a)
    ensures !(Before(a, b) && Before(b, a)) && !Before(a, a)
  {
    if a != [] && b != [] && a[0] == b[0] {
      BeforeIsTotal(a[1..], b[1..]);
      assert a == [a[0]] + a[1..] && b == [b[0]] + b[1..];
    }
    if a != [] { BeforeIsTotal(a[1..], a[1..]); }
  }

  lemma {:induction false} BeforeIsTransitive(a: string, b: string, c: string)
    requires Before(a, b) && Before(b, c)
    ensures Before(a, c)
  {
    if a != [] && a[0] == b[0] == c[0] { BeforeIsTransitive(a[1..], b[1..], c[1..]); }
  }

  ghost predicate Sorted(ids: seq<string>) {
    forall i, j :: 0 <= i < j < |ids| ==> Before(ids[i], ids[j])
  }

  function Names(bucket: seq<Hit>): (r: set<string>)
  {
    set h | h in bucket && h.device != "" :: h.device
  }

  /** The first few of the bucket's device ids, in order and without repetition. */
  ghost predicate IsSample(sample: seq<string>, bucket: seq<Hit>) {
    exists all :: Lists(all, Names(bucket)) && sample == FirstFew(all)
  }

  ghost predicate Lists(all: seq<string>, names: set<string>) {
    Sorted(all) && forall d :: d in all <==> d in names
  }

  function FirstFew(all: seq<string>): (r: seq<string>)
  {
    if |all| <= SAMPLE_SIZE then all else all[..SAMPLE_SIZE]
  }

  /** There is only one sample. */
  lemma SampleIsUnique(s: seq<string>, t: seq<string>, bucket: seq<Hit>)
    requires IsSample(s, bucket) && IsSample(t, bucket)
    ensures s == t
  {
    hide Sorted;
    var a :| Lists(a, Names(bucket)) && s == FirstFew(a);
    var b :| Lists(b, Names(bucket)) && t == FirstFew(b);
    SortedIsUnique(a, b);
  }

  lemma {:induction false} SortedIsUnique(a: seq<string>, b: seq<string>)
    requires Sorted(a) && Sorted(b) && forall d :: d in a <==> d in b
    ensures a == b
  {
    hide Before;
    assert (a != [] ==> a[0] in b) && (b != [] ==> b[0] in a);
    if a != [] && b != [] {
      FirstIsBefore(a, b[0]);
      FirstIsBefore(b, a[0]);
      BeforeIsTotal(a[0], b[0]);
      BeforeIsTotal(a[0], a[0]);
      forall d ensures d in a[1..] <==> d in b[1..] {
        RestWithoutFirst(a, d);
        RestWithoutFirst(b, d);
      }
      SortedIsUnique(a[1..], b[1..]);
    }
  }

  lemma {:induction false} FirstIsBefore(a: seq<string>, d: string)
    requires Sorted(a) && d in a
    ensures a[0] == d || Before(a[0], d)
  {
    var j :| 0 <= j < |a| && a[j] == d;
  }

  lemma RestWithoutFirst(a: seq<string>, d: string)
    requires Sorted(a) && a != []
    ensures d in a[1..] <==> d in a && d != a[0]
  {
    BeforeIsTotal(a[0], a[0]);
    if j :| 0 <= j < |a| && a[j] == d {
      if j > 0 { assert a[1..][j - 1] == d; }
    }
  }

  /** The sample, device by device: five at most, each the non-empty device id of a hit, in
      strictly ascending order; and with fewer than five no device is left out, otherwise
      only ones that come after all of them. */
  lemma SampleMeans(sample: seq<string>, bucket: seq<Hit>)
    requires IsSample(sample, bucket)
    ensures |sample| <= 5 && forall i, j :: 0 <= i < j < |sample| ==> Before(sample[i], sample[j])
    ensures forall d :: d in sample ==> d != "" && exists h :: h in bucket && h.device == d
    ensures forall h :: h in bucket && h.device != "" && h.device !in sample ==>
              |sample| == 5 && forall d :: d in sample ==> Before(d, h.device)
  {
    hide Before;
    var all :| Lists(all, Names(bucket)) && sample == FirstFew(all);
    forall d | d in sample ensures d in Names(bucket) { assert d in all; }
    forall h | h in bucket && h.device != "" && h.device !in sample
      ensures |sample| == 5 && forall d :: d in sample ==> Before(d, h.device)
    {
      assert h.device in Names(bucket);
      assert forall i :: 0 <= i < |sample| ==> all[i] in sample;
      var k :| 0 <= k < |all| && all[k] == h.device;
      forall d | d in sample ensures Before(d, h.device) {
        var i :| 0 <= i < |sample| && sample[i] == d;
        assert all[i] == d;
      }
    }
  }

  method SampleDevices(bucket: seq<Hit>) returns (sample: seq<string>)
    ensures IsSample(sample, bucket)
  {
    hide Before;
    var all: seq<string> := [];
    for i := 0 to |bucket|
      invariant Lists(all, Names(bucket[..i]))
    {
      NamesStep(bucket, i);
      if bucket[i].device != "" {
        all := Inserted(all, bucket[i].device);
      }
    }
    assert bucket[..|bucket|] == bucket;
    sample := FirstFew(all);
  }

  lemma NamesStep(bucket: seq<Hit>, i: nat)
    requires i < |bucket|
    ensures Names(bucket[..i + 1]) == Names(bucket[..i]) + if bucket[i].device == "" then {} else {bucket[i].device}
  {
    assert bucket[..i + 1] == bucket[..i] + [bucket[i]];
  }

  method Inserted(ids: seq<string>, id: string) returns (r: seq<string>)
    requires Sorted(ids)
    ensures Sorted(r) && forall d :: d in r <==> d in ids || d == id
  {
    hide Before;
    var k := 0;
    while k < |ids| && Before(ids[k], id)
      invariant k <= |ids| && forall j :: 0 <= j < k ==> Before(ids[j], id)
    {
      k := k + 1;
    }
    if k < |ids| && ids[k] == id { return ids; }
    if k < |ids| {
      BeforeIsTotal(ids[k], id);
      forall j | k < j < |ids| ensures Before(id, ids[j]) { BeforeIsTransitive(id, ids[k], ids[j]); }
    }
    assert ids == ids[..k] + ids[k..];
    r := ids[..k] + [id] + ids[k..];
  }

  // ----- the class -----

  class CrossSiteCorrelator {
    const cfg: Config
    var hits: map<(string, string), seq<Hit>>
    var lastPropagated: Stamps

    ghost function Abs(): State
      reads this
    {
      State(hits, lastPropagated)
    }

    constructor (cfg: Config)
      ensures this.cfg == cfg && Abs() == State(map[], map[])
    {
      this.cfg, hits, lastPropagated := cfg, map[], map[];
    }

    /** Returns what to propagate, if anything, with a sample of its devices; `ready` are
        the targets that were found ready and stamped. */
    method RecordPrediction(e: Prediction, now: real, sites: seq<string>)
      returns (out: Option<(string, string, seq<string>)>, ready: seq<string>)
      modifies this
      ensures Abs() == Record(old(Abs()), e, now, sites, cfg)
      ensures ready == RecordReady(old(Abs()), e, now, sites, cfg)
      ensures out.None? <==> ready == []
      ensures out.Some? ==> out.value.0 == e.site.value && out.value.1 == e.kind.value
                            && IsSample(out.value.2, NewBucket(old(Abs()), e, now, cfg))
    {
      ready := [];
      if e.site.None? || e.kind.None? || e.probability.None? || e.probability.value < cfg.floor { return None, []; }
      var o, k := e.site.value, e.kind.value;
      var bucket := (if (o, k) in hits then hits[(o, k)] else []) + [Hit(now, e.probability.value, e.device)];
      bucket := Purge(bucket, now - cfg.window);
      hits := hits[(o, k) := bucket];
      if |bucket| < cfg.threshold { return None, []; }
      ready := MarkReady(o, k, now, sites);
      if ready == [] { return None, []; }
      var sample := SampleDevices(bucket);
      out := Some((o, k, sample));
    }

    /** The loop over targets. */
    method MarkReady(o: string, k: string, now: real, sites: seq<string>) returns (ready: seq<string>)
      modifies this`lastPropagated
      ensures ready == Ready(sites, o, k, now, old(lastPropagated), cfg.cooldown)
      ensures lastPropagated == Stamped(sites, o, k, now, old(lastPropagated), cfg.cooldown)
    {
      ready := [];
      for i := 0 to |sites|
        invariant Stamped(sites[i..], o, k, now, lastPropagated, cfg.cooldown)
               == Stamped(sites, o, k, now, old(lastPropagated), cfg.cooldown)
        invariant ready + Ready(sites[i..], o, k, now, lastPropagated, cfg.cooldown)
               == Ready(sites, o, k, now, old(lastPropagated), cfg.cooldown)
      {
        var target := sites[i];
        assert sites[i..][1..] == sites[i + 1..];
        if target == o { continue; }
        var last := if (o, k, target) in lastPropagated then lastPropagated[(o, k, target)] else 0.0;
        if now - last < cfg.cooldown { continue; }
        lastPropagated := lastPropagated[(o, k, target) := now];
        ready := ready + [target];
      }
    }

    method HitCount(site: string, kind: string) returns (n: nat)
      ensures n == |Bucket(Abs(), site, kind)|
    {
      n := if (site, kind) in hits then |hits[(site, kind)]| else 0;
    }
  }

  method Purge(hits: seq<Hit>, cutoff: real) returns (bucket: seq<Hit>)
    ensures bucket == PurgeOld(hits, cutoff)
  {
    bucket := hits;
    while bucket != [] && bucket[0].at < cutoff
      invariant PurgeOld(bucket, cutoff) == PurgeOld(hits, cutoff)
      decreases |bucket|
    {
      bucket := bucket[1..];
    }
  }

  /** The publish loop of `run_correlator`. */
  method Publish(sites: seq<string>, origin: string) returns (sent: seq<string>)
    ensures sent == FanOut(sites, origin) && origin !in sent
  {
    sent := [];
    for i := 0 to |sites|
      invariant sent + FanOut(sites[i..], origin) == FanOut(sites, origin)
    {
      if sites[i] != origin { sent := sent + [sites[i]]; }
    }
  }
}
