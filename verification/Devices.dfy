/** The simulator's device tree (apps/simulator/devices.py, `build_halls`): its ids and
    its containment, which the graph seed plan relies on. */
module Devices {
  import opened Text

  datatype Kind = Server | Gpu | Switch | Pdu | Crac

  /** `parent` is a GPU's server; `powered` are the ids a PDU powers. */
  datatype Device = Device(id: string, kind: Kind, model: string, vendor: string, rackId: string,
                           parent: string, powered: seq<string>)

  datatype Rack = Rack(id: string, hallId: string, position: (nat, nat), devices: seq<Device>)
  datatype Hall = Hall(id: string, siteId: string, cracs: seq<Device>, racks: seq<Rack>)

  /** What the seeded random generator draws for one server: its model, its vendor and the
      models of its GPUs, if it gets any. */
  datatype Draw = Draw(model: string, vendor: string, gpus: seq<string>)
  type Rng = (nat, nat, nat) -> Draw

  const SERVERS_PER_RACK := 10

  // ----- ids -----

  function HallId(site: string, h: nat): (id: string) { site + "-" + ("h" + Decimal(h + 1)) }
  function RackId(site: string, h: nat, r: nat): (id: string) { HallId(site, h) + "-" + ("r" + Decimal2(r + 1)) }
  function ServerId(rackId: string, s: nat): (id: string) { rackId + "-" + ("srv" + Decimal2(s + 1)) }
  function GpuId(serverId: string, g: nat): (id: string) { serverId + "-" + ("gpu" + Decimal(g + 1)) }

  /** A place in the tree of one site. */
  datatype Place =
    | AtCrac(h: nat)
    | AtTor(h: nat, r: nat)
    | AtPdu(h: nat, r: nat, first: bool)
    | AtServer(h: nat, r: nat, s: nat)
    | AtGpu(h: nat, r: nat, s: nat, g: nat)

  function IdAt(site: string, p: Place): (id: string)
  {
    match p
    case AtCrac(h) => HallId(site, h) + "-" + "crac1"
    case AtTor(h, r) => RackId(site, h, r) + "-" + "tor"
    case AtPdu(h, r, first) => RackId(site, h, r) + "-" + "pdu" + "-" + if first then "a" else "b"
    case AtServer(h, r, s) => ServerId(RackId(site, h, r), s)
    case AtGpu(h, r, s, g) => GpuId(ServerId(RackId(site, h, r), s), g)
  }

  /** The parts of an id below the site. */
  function Segments(p: Place): (parts: seq<string>)
  {
    match p
    case AtCrac(h) => ["h" + Decimal(h + 1), "crac1"]
    case AtTor(h, r) => ["h" + Decimal(h + 1), "r" + Decimal2(r + 1), "tor"]
    case AtPdu(h, r, first) => ["h" + Decimal(h + 1), "r" + Decimal2(r + 1), "pdu", if first then "a" else "b"]
    case AtServer(h, r, s) => ["h" + Decimal(h + 1), "r" + Decimal2(r + 1), "srv" + Decimal2(s + 1)]
    case AtGpu(h, r, s, g) => ["h" + Decimal(h + 1), "r" + Decimal2(r + 1), "srv" + Decimal2(s + 1), "gpu"
        + Decimal(g + 1)]
  }

  lemma {:induction false} SplitHallId(site: string, h: nat)
    ensures Split(HallId(site, h), '-') == Split(site, '-') + ["h" + Decimal(h + 1)]
  {
    SplitSegment(site, "h" + Decimal(h + 1));
  }

  lemma {:induction false} SplitRackId(site: string, h: nat, r: nat)
    ensures Split(RackId(site, h, r), '-') == Split(site, '-') + ["h" + Decimal(h + 1), "r" + Decimal2(r + 1)]
  {
    SplitHallId(site, h);
    SplitSegment(HallId(site, h), "r" + Decimal2(r + 1));
  }

  lemma {:induction false} SplitId(site: string, p: Place)
    ensures Split(IdAt(site, p), '-') == Split(site, '-') + Segments(p)
  {
    hide Split, Decimal, Decimal2, HallId, RackId;
    match p
    case AtCrac(h) =>
      SplitHallId(site, h);
      SplitSegment(HallId(site, h), "crac1");
    case AtTor(h, r) =>
      SplitRackId(site, h, r);
      SplitSegment(RackId(site, h, r), "tor");
    case AtPdu(h, r, first) =>
      SplitRackId(site, h, r);
      SplitSegment(RackId(site, h, r), "pdu");
      SplitSegment(RackId(site, h, r) + "-" + "pdu", if first then "a" else "b");
    case AtServer(h, r, s) =>
      SplitRackId(site, h, r);
      SplitSegment(RackId(site, h, r), "srv" + Decimal2(s + 1));
    case AtGpu(h, r, s, g) =>
      SplitRackId(site, h, r);
      SplitSegment(RackId(site, h, r), "srv" + Decimal2(s + 1));
      SplitSegment(ServerId(RackId(site, h, r), s), "gpu" + Decimal(g + 1));
  }

  lemma SuffixesEqual<T>(a: seq<T>, b: seq<T>, c: seq<T>)
    requires a + b == a + c
    ensures b == c
  {
    assert (a + b)[|a|..] == b && (a + c)[|a|..] == c;
  }

  lemma TaggedEqual(tag: string, a: string, b: string)
    requires tag + a == tag + b
    ensures a == b
  {
    SuffixesEqual(tag, a, b);
  }

  lemma NumberedEqual(tag: string, m: nat, n: nat)
    ensures tag + Decimal(m + 1) == tag + Decimal(n + 1) ==> m == n
    ensures tag + Decimal2(m + 1) == tag + Decimal2(n + 1) ==> m == n
  {
    hide Decimal, Decimal2;
    DecimalRoundTrip(m + 1);
    DecimalRoundTrip(n + 1);
    Decimal2RoundTrip(m + 1);
    Decimal2RoundTrip(n + 1);
    if tag + Decimal(m + 1) == tag + Decimal(n + 1) { TaggedEqual(tag, Decimal(m + 1), Decimal(n + 1)); }
    if tag + Decimal2(m + 1) == tag + Decimal2(n + 1) { TaggedEqual(tag, Decimal2(m + 1), Decimal2(n + 1)); }
  }

  /** MAIN: different places of a site have different ids, whatever the site id. */
  lemma IdsAreDistinct(site: string, p: Place, q: Place)
    requires IdAt(site, p) == IdAt(site, q)
    ensures p == q
  {
    hide Split, Decimal, Decimal2, IdAt;
    SplitId(site, p);
    SplitId(site, q);
    SuffixesEqual(Split(site, '-'), Segments(p), Segments(q));
    var a, b := Segments(p), Segments(q);
    assert a[0] == b[0] && |a| == |b|;
    NumberedEqual("h", p.h, q.h);
    if |a| > 2 {
      assert a[1] == b[1] && a[2] == b[2] && a[2][0] == b[2][0];
      NumberedEqual("r", p.r, q.r);
      if p.AtServer? && q.AtServer? { NumberedEqual("srv", p.s, q.s); }
      if |a| > 3 {
        assert a[3] == b[3] && a[3][0] == b[3][0];
        if p.AtGpu? && q.AtGpu? {
          NumberedEqual("srv", p.s, q.s);
          NumberedEqual("gpu", p.g, q.g);
        }
      }
    }
  }

  // ----- the tree -----

  function CracOf(site: string, h: nat): (d: Device)
  {
    Device(HallId(site, h) + "-" + "crac1", Crac, "Vertiv-Liebert-DSE-080", "Vertiv", "", "", [])
  }

  function TorOf(rackId: string): (d: Device)
  {
    Device(rackId + "-" + "tor", Switch, "Arista-7050X3", "Arista", rackId, "", [])
  }

  function PduOf(rackId: string, letter: string, powered: seq<string>): (d: Device)
  {
    Device(rackId + "-" + "pdu" + "-" + letter, Pdu, "APC-AP8959", "APC", rackId, "", powered)
  }

  function ServerOf(rackId: string, s: nat, draw: Draw): (d: Device)
  {
    Device(ServerId(rackId, s), Server, draw.model, draw.vendor, rackId, "", [])
  }

  function GpuOf(rackId: string, s: nat, g: nat, model: string): (d: Device)
  {
    Device(GpuId(ServerId(rackId, s), g), Gpu, model, "NVIDIA", rackId, ServerId(rackId, s), [])
  }

  function GpusOf(rackId: string, s: nat, models: seq<string>): (ds: seq<Device>)
  {
    if models == [] then []
    else GpusOf(rackId, s, models[..|models| - 1]) + [GpuOf(rackId, s, |models| - 1, models[|models| - 1])]
  }

  /** The first `n` servers of a rack, each followed by its GPUs. */
  function ServersOf(rackId: string, h: nat, r: nat, n: nat, rng: Rng): (ds: seq<Device>)
  {
    if n == 0 then []
    else ServersOf(rackId, h, r, n - 1, rng)
         + [ServerOf(rackId, n - 1, rng(h, r, n - 1))] + GpusOf(rackId, n - 1, rng(h, r, n - 1).gpus)
  }

  function ServerIds(rackId: string, n: nat): (ids: seq<string>)
  {
    if n == 0 then [] else ServerIds(rackId, n - 1) + [ServerId(rackId, n - 1)]
  }

  function RackOf(site: string, h: nat, r: nat, rng: Rng): (k: Rack)
  {
    var id := RackId(site, h, r);
    Rack(id, HallId(site, h), (r / 5, r % 5),
         [TorOf(id), PduOf(id, "a", ServerIds(id, SERVERS_PER_RACK)), PduOf(id, "b", [])]
         + ServersOf(id, h, r, SERVERS_PER_RACK, rng))
  }

  function RacksOf(site: string, h: nat, n: nat, rng: Rng): (ks: seq<Rack>)
  {
    if n == 0 then [] else RacksOf(site, h, n - 1, rng) + [RackOf(site, h, n - 1, rng)]
  }

  function HallOf(site: string, h: nat, racksPerHall: nat, rng: Rng): (x: Hall)
  {
    Hall(HallId(site, h), site, [CracOf(site, h)], RacksOf(site, h, racksPerHall, rng))
  }

  function HallsOf(site: string, n: nat, racksPerHall: nat, rng: Rng): (hs: seq<Hall>)
  {
    if n == 0 then []
    else HallsOf(site, n - 1, racksPerHall, rng) + [HallOf(site, n - 1, racksPerHall, rng)]
  }

  /** `build_halls`: the tree for a site. */
  method BuildHalls(site: string, hallCount: nat, racksPerHall: nat, rng: Rng) returns (halls: seq<Hall>)
    ensures halls == HallsOf(site, hallCount, racksPerHall, rng)
  {
    halls := [];
    for h := 0 to hallCount
      invariant halls == HallsOf(site, h, racksPerHall, rng)
    {
      var racks: seq<Rack> := [];
      for r := 0 to racksPerHall
        invariant racks == RacksOf(site, h, r, rng)
      {
        var rack := BuildRack(site, h, r, rng);
        racks := racks + [rack];
      }
      halls := halls + [Hall(HallId(site, h), site, [CracOf(site, h)], racks)];
    }
  }

  /** The loop over the servers of a rack; the first PDU collects their ids. */
  method BuildRack(site: string, h: nat, r: nat, rng: Rng) returns (rack: Rack)
    ensures rack == RackOf(site, h, r, rng)
  {
    hide GpusOf, ServerOf, ServerId, RackId, HallId, TorOf, PduOf;
    var id := RackId(site, h, r);
    var powered: seq<string> := [];
    var servers: seq<Device> := [];
    for s := 0 to SERVERS_PER_RACK
      invariant powered == ServerIds(id, s) && servers == ServersOf(id, h, r, s, rng)
    {
      var draw := rng(h, r, s);
      var gpus := BuildGpus(id, s, draw.gpus);
      servers := servers + [ServerOf(id, s, draw)] + gpus;
      powered := powered + [ServerId(id, s)];
    }
    rack := Rack(id, HallId(site, h), (r / 5, r % 5), [TorOf(id), PduOf(id, "a", powered), PduOf(id, "b", [])]
        + servers);
  }

  method BuildGpus(rackId: string, s: nat, models: seq<string>) returns (gpus: seq<Device>)
    ensures gpus == GpusOf(rackId, s, models)
  {
    hide GpuOf;
    gpus := [];
    for g := 0 to |models|
      invariant gpus == GpusOf(rackId, s, models[..g])
    {
      assert models[..g + 1][..g] == models[..g];
      gpus := gpus + [GpuOf(rackId, s, g, models[g])];
    }
    assert models[..|models|] == models;
  }

  // ----- what the seed plan needs of it -----

  ghost predicate Holds(devices: seq<Device>, id: string) {
    exists d :: d in devices && d.id == id
  }

  /** The ids a rack's devices refer to are ids of devices of the same rack. */
  ghost predicate Closed(devices: seq<Device>, among: seq<Device>) {
    forall d :: d in devices ==>
      && (d.kind == Pdu ==> forall id :: id in d.powered ==> Holds(among, id))
      && (d.kind == Gpu && d.parent != "" ==> Holds(among, d.parent))
  }

  ghost predicate WellFormed(halls: seq<Hall>, site: string) {
    forall h :: h in halls ==> h.siteId == site && forall k :: k in h.racks ==> Closed(k.devices, k.devices)
  }

  lemma {:induction false} ServersHeld(rackId: string, h: nat, r: nat, n: nat, rng: Rng)
    ensures forall id :: id in ServerIds(rackId, n) ==> Holds(ServersOf(rackId, h, r, n, rng), id)
    ensures Closed(ServersOf(rackId, h, r, n, rng), ServersOf(rackId, h, r, n, rng))
  {
    hide Closed, Holds, GpusOf, ServerId, ServersOf, ServerIds, ServerOf;
    if n == 0 {
      NoServers(rackId, h, r, rng);
    } else {
      var draw := rng(h, r, n - 1);
      var pre, server := ServersOf(rackId, h, r, n - 1, rng), ServerOf(rackId, n - 1, draw);
      var gpus := GpusOf(rackId, n - 1, draw.gpus);
      ServersHeld(rackId, h, r, n - 1, rng);
      ServersStep(rackId, h, r, n, rng);
      GpusRefer(rackId, n - 1, draw.gpus);
      ClosedExtended(pre, server, gpus);
      forall id | id in ServerIds(rackId, n) ensures Holds(pre + [server] + gpus, id) {
        assert id in ServerIds(rackId, n - 1) || id == server.id;
      }
    }
  }

  lemma {:induction false} NoServers(rackId: string, h: nat, r: nat, rng: Rng)
    ensures ServerIds(rackId, 0) == [] && ServersOf(rackId, h, r, 0, rng) == [] && Closed([], [])
  {
  }

  lemma ServersStep(rackId: string, h: nat, r: nat, n: nat, rng: Rng)
    requires n > 0
    ensures var draw := rng(h, r, n - 1);
            ServersOf(rackId, h, r, n, rng)
            == ServersOf(rackId, h, r, n - 1, rng) + [ServerOf(rackId, n - 1, draw)] + GpusOf(rackId, n - 1, draw.gpus)
    ensures ServerIds(rackId, n) == ServerIds(rackId, n - 1) + [ServerId(rackId, n - 1)]
    ensures var server := ServerOf(rackId, n - 1, rng(h, r, n - 1));
        server.kind == Server && server.id == ServerId(rackId, n - 1)
  {
    hide GpusOf, ServerId;
  }

  lemma ClosedExtended(pre: seq<Device>, server: Device, gpus: seq<Device>)
    requires Closed(pre, pre) && server.kind == Server
    requires forall d :: d in gpus ==> d.kind == Gpu && d.parent == server.id
    ensures var all := pre + [server] + gpus;
            Closed(all, all) && Holds(all, server.id) && forall id :: Holds(pre, id) ==> Holds(all, id)
  {
    var all := pre + [server] + gpus;
    assert server in all;
    forall id | Holds(pre, id) ensures Holds(all, id) {
      var d :| d in pre && d.id == id;
      assert d in all;
    }
    forall d | d in all
      ensures d.kind == Pdu ==> forall id :: id in d.powered ==> Holds(all, id)
      ensures d.kind == Gpu && d.parent != "" ==> Holds(all, d.parent)
    {
      assert d in pre || d == server || d in gpus;
    }
  }

  lemma {:induction false} GpusRefer(rackId: string, s: nat, models: seq<string>)
    ensures forall d :: d in GpusOf(rackId, s, models) ==> d.kind == Gpu && d.parent == ServerId(rackId, s)
  {
    if models != [] { GpusRefer(rackId, s, models[..|models| - 1]); }
  }

  lemma RackIsClosed(site: string, h: nat, r: nat, rng: Rng)
    ensures var ds := RackOf(site, h, r, rng).devices; Closed(ds, ds)
  {
    hide ServersOf, ServerIds, RackId, HallId, Closed, Holds;
    var id := RackId(site, h, r);
    ServersHeld(id, h, r, SERVERS_PER_RACK, rng);
    ClosedWithPdus(TorOf(id), PduOf(id, "a", ServerIds(id, SERVERS_PER_RACK)), PduOf(id, "b", []),
                   ServersOf(id, h, r, SERVERS_PER_RACK, rng));
  }

  lemma ClosedWithPdus(tor: Device, a: Device, b: Device, servers: seq<Device>)
    requires Closed(servers, servers) && tor.kind == Switch && a.kind == Pdu && b.kind == Pdu && b.powered == []
    requires forall id :: id in a.powered ==> Holds(servers, id)
    ensures var all := [tor, a, b] + servers; Closed(all, all)
  {
    var all := [tor, a, b] + servers;
    forall x | Holds(servers, x) ensures Holds(all, x) {
      var d :| d in servers && d.id == x;
      assert d in all;
    }
    forall d | d in all
      ensures d.kind == Pdu ==> forall id :: id in d.powered ==> Holds(all, id)
      ensures d.kind == Gpu && d.parent != "" ==> Holds(all, d.parent)
    {
      assert d in [tor, a, b] || d in servers;
    }
  }

  lemma {:induction false} RacksAre(site: string, h: nat, n: nat, rng: Rng, k: Rack)
    ensures k in RacksOf(site, h, n, rng) <==> exists r :: 0 <= r < n && k == RackOf(site, h, r, rng)
  {
    hide RackOf;
    if n > 0 { RacksAre(site, h, n - 1, rng, k); }
  }

  lemma {:induction false} HallsAre(site: string, n: nat, racksPerHall: nat, rng: Rng, x: Hall)
    ensures x in HallsOf(site, n, racksPerHall, rng)
        <==> exists h :: 0 <= h < n && x == HallOf(site, h, racksPerHall, rng)
  {
    hide HallOf;
    if n > 0 { HallsAre(site, n - 1, racksPerHall, rng, x); }
  }

  /** MAIN: whatever the generator draws, in the tree built for a site every powered id
      and every GPU parent is a device of the same rack. */
  lemma {:induction false} BuiltHallsAreWellFormed(site: string, n: nat, racksPerHall: nat, rng: Rng)
    ensures WellFormed(HallsOf(site, n, racksPerHall, rng), site)
  {
    hide HallId, CracOf, RacksOf, RackOf, HallsOf, Closed;
    forall x | x in HallsOf(site, n, racksPerHall, rng)
      ensures x.siteId == site && forall k :: k in x.racks ==> Closed(k.devices, k.devices)
    {
      HallsAre(site, n, racksPerHall, rng, x);
      var h :| 0 <= h < n && x == HallOf(site, h, racksPerHall, rng);
      forall k | k in x.racks ensures Closed(k.devices, k.devices) {
        RacksAre(site, h, racksPerHall, rng, k);
        var r :| 0 <= r < racksPerHall && k == RackOf(site, h, r, rng);
        RackIsClosed(site, h, r, rng);
      }
    }
  }

  /** The tree is in order: hall by hall, rack by rack, GPU by GPU. */
  lemma {:induction false} HallsInOrder(site: string, n: nat, racksPerHall: nat, rng: Rng)
    ensures |HallsOf(site, n, racksPerHall, rng)| == n
    ensures forall h :: 0 <= h < n ==> HallsOf(site, n, racksPerHall, rng)[h] == HallOf(site, h, racksPerHall, rng)
  {
    hide HallOf;
    if n > 0 { HallsInOrder(site, n - 1, racksPerHall, rng); }
  }

  lemma {:induction false} RacksInOrder(site: string, h: nat, n: nat, rng: Rng)
    ensures |RacksOf(site, h, n, rng)| == n
    ensures forall r :: 0 <= r < n ==> RacksOf(site, h, n, rng)[r] == RackOf(site, h, r, rng)
  {
    hide RackOf;
    if n > 0 { RacksInOrder(site, h, n - 1, rng); }
  }

  lemma {:induction false} GpusInOrder(rackId: string, s: nat, models: seq<string>)
    ensures |GpusOf(rackId, s, models)| == |models|
    ensures forall g :: 0 <= g < |models| ==> GpusOf(rackId, s, models)[g] == GpuOf(rackId, s, g, models[g])
  {
    hide GpuOf;
    if models != [] { GpusInOrder(rackId, s, models[..|models| - 1]); }
  }

  // ----- the devices of the tree -----

  ghost predicate InTree(halls: seq<Hall>, d: Device) {
    exists x :: x in halls && InHall(x, d)
  }

  ghost predicate InHall(x: Hall, d: Device) {
    d in x.cracs || exists k :: k in x.racks && d in k.devices
  }

  /** The place exists in the tree that is built with these draws. */
  predicate Exists(p: Place, n: nat, racksPerHall: nat, rng: Rng) {
    && p.h < n
    && (!p.AtCrac? ==> p.r < racksPerHall)
    && (p.AtServer? || p.AtGpu? ==> p.s < SERVERS_PER_RACK)
    && (p.AtGpu? ==> p.g < |rng(p.h, p.r, p.s).gpus|)
  }

  function DeviceAt(site: string, p: Place, rng: Rng): (d: Device)
    requires p.AtGpu? ==> p.g < |rng(p.h, p.r, p.s).gpus|
  {
    match p
    case AtCrac(h) => CracOf(site, h)
    case AtTor(h, r) => TorOf(RackId(site, h, r))
    case AtPdu(h, r, first) =>
      if first then PduOf(RackId(site, h, r), "a", ServerIds(RackId(site, h, r), SERVERS_PER_RACK))
      else PduOf(RackId(site, h, r), "b", [])
    case AtServer(h, r, s) => ServerOf(RackId(site, h, r), s, rng(h, r, s))
    case AtGpu(h, r, s, g) => GpuOf(RackId(site, h, r), s, g, rng(h, r, s).gpus[g])
  }

  lemma DeviceAtHasIdAt(site: string, p: Place, rng: Rng)
    requires p.AtGpu? ==> p.g < |rng(p.h, p.r, p.s).gpus|
    ensures DeviceAt(site, p, rng).id == IdAt(site, p)
  {
    hide RackId, ServerId, GpuId, HallId, ServerIds;
  }

  lemma {:induction false} GpusAre(rackId: string, s: nat, models: seq<string>, d: Device)
    ensures d in GpusOf(rackId, s, models) <==> exists g :: 0 <= g < |models| && d == GpuOf(rackId, s, g, models[g])
  {
    hide GpuOf;
    if models != [] { GpusAre(rackId, s, models[..|models| - 1], d); }
  }

  lemma {:induction false} ServersAre(rackId: string, h: nat, r: nat, n: nat, rng: Rng, d: Device)
    ensures d in ServersOf(rackId, h, r, n, rng) <==>
              exists s :: 0 <= s < n && (d == ServerOf(rackId, s, rng(h, r, s))
                  || d in GpusOf(rackId, s, rng(h, r, s).gpus))
  {
    hide ServerOf, GpusOf;
    if n > 0 { ServersAre(rackId, h, r, n - 1, rng, d); }
  }

  /** The place is in this rack of the tree. */
  predicate InRack(p: Place, h: nat, r: nat, rng: Rng) {
    && p.h == h && !p.AtCrac? && p.r == r
    && (p.AtServer? || p.AtGpu? ==> p.s < SERVERS_PER_RACK)
    && (p.AtGpu? ==> p.g < |rng(p.h, p.r, p.s).gpus|)
  }

  lemma RackDevicesAre(site: string, h: nat, r: nat, rng: Rng, d: Device)
    ensures d in RackOf(site, h, r, rng).devices <==> exists p :: InRack(p, h, r, rng) && d == DeviceAt(site, p, rng)
  {
    hide RackId, HallId, CracOf, TorOf, PduOf, ServerOf, GpuOf, ServerIds, ServersOf, GpusOf;
    var id := RackId(site, h, r);
    ServersAre(id, h, r, SERVERS_PER_RACK, rng, d);
    forall s: nat { GpusAre(id, s, rng(h, r, s).gpus, d); }
    if d in RackOf(site, h, r, rng).devices {
      var p := PlaceInRack(site, h, r, rng, d);
    }
    if p :| InRack(p, h, r, rng) && d == DeviceAt(site, p, rng) {
      if p.AtGpu? { assert d in GpusOf(id, p.s, rng(h, r, p.s).gpus); }
    }
  }

  lemma PlaceInRack(site: string, h: nat, r: nat, rng: Rng, d: Device) returns (p: Place)
    requires d in RackOf(site, h, r, rng).devices
    ensures InRack(p, h, r, rng) && d == DeviceAt(site, p, rng)
  {
    hide RackId, HallId, CracOf, TorOf, PduOf, ServerOf, GpuOf, ServerIds, ServersOf, GpusOf;
    var id := RackId(site, h, r);
    if d == TorOf(id) {
      p := AtTor(h, r);
    } else if d == PduOf(id, "a", ServerIds(id, SERVERS_PER_RACK)) {
      p := AtPdu(h, r, true);
    } else if d == PduOf(id, "b", []) {
      p := AtPdu(h, r, false);
    } else {
      ServersAre(id, h, r, SERVERS_PER_RACK, rng, d);
      var s :| 0 <= s < SERVERS_PER_RACK
          && (d == ServerOf(id, s, rng(h, r, s)) || d in GpusOf(id, s, rng(h, r, s).gpus));
      if d == ServerOf(id, s, rng(h, r, s)) {
        p := AtServer(h, r, s);
      } else {
        GpusAre(id, s, rng(h, r, s).gpus, d);
        var g :| 0 <= g < |rng(h, r, s).gpus| && d == GpuOf(id, s, g, rng(h, r, s).gpus[g]);
        p := AtGpu(h, r, s, g);
      }
    }
  }

  /** MAIN: the devices of the built tree are exactly those of its places. */
  lemma {:induction false} TreeDevicesAre(site: string, n: nat, racksPerHall: nat, rng: Rng, d: Device)
    ensures InTree(HallsOf(site, n, racksPerHall, rng), d)
       <==> exists p :: Exists(p, n, racksPerHall, rng) && d == DeviceAt(site, p, rng)
  {
    hide HallsOf, RacksOf, RackOf, DeviceAt, CracOf, HallId, RackId;
    var halls := HallsOf(site, n, racksPerHall, rng);
    if x :| x in halls && InHall(x, d) {
      HallsAre(site, n, racksPerHall, rng, x);
      var h :| 0 <= h < n && x == HallOf(site, h, racksPerHall, rng);
      if d in x.cracs {
        CracIsAt(site, h, rng);
        assert d == DeviceAt(site, AtCrac(h), rng);
      } else {
        var k :| k in x.racks && d in k.devices;
        RacksAre(site, h, racksPerHall, rng, k);
        var r :| 0 <= r < racksPerHall && k == RackOf(site, h, r, rng);
        RackDevicesAre(site, h, r, rng, d);
      }
    }
    if p :| Exists(p, n, racksPerHall, rng) && d == DeviceAt(site, p, rng) {
      var x := HallOf(site, p.h, racksPerHall, rng);
      HallsAre(site, n, racksPerHall, rng, x);
      if p.AtCrac? {
        CracIsAt(site, p.h, rng);
        assert InHall(x, d);
      } else {
        var k := RackOf(site, p.h, p.r, rng);
        RacksAre(site, p.h, racksPerHall, rng, k);
        assert InRack(p, p.h, p.r, rng);
        RackDevicesAre(site, p.h, p.r, rng, d);
        assert k in x.racks && d in k.devices;
      }
    }
  }

  lemma CracIsAt(site: string, h: nat, rng: Rng)
    ensures DeviceAt(site, AtCrac(h), rng) == CracOf(site, h)
  {
  }

  lemma {:induction false} ServerIdsAre(rackId: string, n: nat, id: string)
    ensures id in ServerIds(rackId, n) <==> exists s :: 0 <= s < n && id == ServerId(rackId, s)
  {
    hide ServerId;
    if n > 0 { ServerIdsAre(rackId, n - 1, id); }
  }

  /** What stands at each place, in full. */
  lemma DeviceAtMeans(site: string, p: Place, rng: Rng)
    requires p.AtGpu? ==> p.g < |rng(p.h, p.r, p.s).gpus|
    ensures var d := DeviceAt(site, p, rng);
            && d.id == IdAt(site, p)
            && (!p.AtCrac? ==> d.rackId == RackId(site, p.h, p.r))
            && match p
               case AtCrac(_) => d.kind == Crac && d.model == "Vertiv-Liebert-DSE-080" && d.vendor == "Vertiv"
                   && d.rackId == ""
               case AtTor(_, _) => d.kind == Switch && d.model == "Arista-7050X3" && d.vendor == "Arista"
               case AtPdu(h, r, first) =>
                 d.kind == Pdu && d.model == "APC-AP8959" && d.vendor == "APC"
                 && forall id :: id in d.powered
                     <==> first && exists s :: 0 <= s < 10 && id == IdAt(site, AtServer(h, r, s))
               case AtServer(h, r, s) => d.kind == Server && d.model == rng(h, r, s).model
                   && d.vendor == rng(h, r, s).vendor
               case AtGpu(h, r, s, g) =>
                 d.kind == Gpu && d.model == rng(h, r, s).gpus[g] && d.vendor == "NVIDIA"
                     && d.parent == IdAt(site, AtServer(h, r, s))
  {
    DeviceAtHasIdAt(site, p, rng);
    if p.AtPdu? {
      var rackId := RackId(site, p.h, p.r);
      forall id ensures id in ServerIds(rackId, 10)
          <==> exists s :: 0 <= s < 10 && id == IdAt(site, AtServer(p.h, p.r, s)) {
        ServerIdsAre(rackId, 10, id);
        assert forall s: nat :: IdAt(site, AtServer(p.h, p.r, s)) == ServerId(rackId, s);
      }
    }
    hide RackId, HallId, ServerId, GpuId, ServerIds;
  }

  lemma RackIdsAreDistinct(site: string, h: nat, r: nat, h': nat, r': nat)
    requires RackId(site, h, r) == RackId(site, h', r')
    ensures h == h' && r == r'
  {
    hide Split, Decimal, Decimal2, RackId;
    SplitRackId(site, h, r);
    SplitRackId(site, h', r');
    var a, b := ["h" + Decimal(h + 1), "r" + Decimal2(r + 1)], ["h" + Decimal(h' + 1), "r" + Decimal2(r' + 1)];
    SuffixesEqual(Split(site, '-'), a, b);
    assert a[0] == b[0] && a[1] == b[1];
    NumberedEqual("h", h, h');
    NumberedEqual("r", r, r');
  }

  /** No two devices of a tree have the same id. */
  ghost predicate OneDevicePerId(halls: seq<Hall>) {
    forall d, e :: InTree(halls, d) && InTree(halls, e) && d.id == e.id ==> d == e
  }

  /** MAIN: every tree that is built has one device for each id. */
  lemma {:induction false} BuiltDevicesAreDistinct(site: string, n: nat, racksPerHall: nat, rng: Rng)
    ensures OneDevicePerId(HallsOf(site, n, racksPerHall, rng))
  {
    hide HallsOf, InTree, DeviceAt, IdAt;
    var halls := HallsOf(site, n, racksPerHall, rng);
    forall d, e | InTree(halls, d) && InTree(halls, e) && d.id == e.id ensures d == e {
      TreeDevicesAre(site, n, racksPerHall, rng, d);
      TreeDevicesAre(site, n, racksPerHall, rng, e);
      var p :| Exists(p, n, racksPerHall, rng) && d == DeviceAt(site, p, rng);
      var q :| Exists(q, n, racksPerHall, rng) && e == DeviceAt(site, q, rng);
      DeviceAtHasIdAt(site, p, rng);
      DeviceAtHasIdAt(site, q, rng);
      IdsAreDistinct(site, p, q);
    }
  }
}
