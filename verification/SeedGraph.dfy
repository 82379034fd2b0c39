/** The knowledge-graph seed plan (scripts/seed_graph.py): an ordered list of MERGE and
    MATCH statements compiled from the hall/rack/device tree.  A MATCH whose node does
    not exist silently does nothing, so the order carries the meaning. */
module SeedGraph {
  import opened Devices

  datatype Label = SiteLabel | HallLabel | RackLabel | DeviceLabel
  datatype Relation = LOCATED_IN | MOUNTED_IN | COOLS | COOLED_BY | POWERED_BY | DEPENDS_ON

  /** Ids are unique per label (the schema's constraints), so kind and id name a node. */
  datatype Node = Node(kind: Label, id: string)
  datatype Edge = Edge(source: Node, relation: Relation, target: Node)

  datatype Value = Str(s: string) | Num(r: real) | Pair(row: nat, col: nat)
  type Props = map<string, Value>

  datatype Graph = Graph(nodes: map<Node, Props>, edges: set<Edge>)

  /** The three shapes of statement in the plan. */
  datatype Statement =
    | Merge(node: Node, props: Props)
    | MergeLinked(node: Node, props: Props, relation: Relation, target: Node)
    | Link(source: Node, relation: Relation, target: Node)

  // ----- the interpreter -----

  function Merged(g: Graph, n: Node, props: Props): (r: Graph)
  {
    g.(nodes := g.nodes[n := (if n in g.nodes then g.nodes[n] else map[]) + props])
  }

  function Exec(g: Graph, s: Statement): (r: Graph)
  {
    match s
    case Merge(n, props) => Merged(g, n, props)
    case MergeLinked(n, props, relation, target) =>
      var g1 := Merged(g, n, props);
      if target in g1.nodes then g1.(edges := g1.edges + {Edge(n, relation, target)}) else g1
    case Link(a, relation, b) =>
      if a in g.nodes && b in g.nodes then g.(edges := g.edges + {Edge(a, relation, b)}) else g
  }

  function Run(g: Graph, plan: seq<Statement>): (r: Graph)
  {
    if plan == [] then g else Exec(Run(g, plan[..|plan| - 1]), plan[|plan| - 1])
  }

  // ----- what a plan mentions -----

  function Creates(s: Statement): (ns: set<Node>)
  {
    match s case Merge(n, _) => {n} case MergeLinked(n, _, _, _) => {n} case Link(_, _, _) => {}
  }

  /** The nodes the statement must find by MATCH. */
  function Needs(s: Statement): (ns: set<Node>)
  {
    match s case Merge(_, _) => {} case MergeLinked(_, _, _, t) => {t} case Link(a, _, b) => {a, b}
  }

  function EdgeOf(s: Statement): (es: set<Edge>)
  {
    match s
    case Merge(_, _) => {}
    case MergeLinked(n, _, relation, t) => {Edge(n, relation, t)}
    case Link(a, relation, b) => {Edge(a, relation, b)}
  }

  function WritesOf(s: Statement, n: Node): (p: Props)
  {
    if s.Link? || s.node != n then map[] else s.props
  }

  function Created(plan: seq<Statement>): (ns: set<Node>)
  {
    if plan == [] then {} else Created(plan[..|plan| - 1]) + Creates(plan[|plan| - 1])
  }

  function Mentioned(plan: seq<Statement>): (es: set<Edge>)
  {
    if plan == [] then {} else Mentioned(plan[..|plan| - 1]) + EdgeOf(plan[|plan| - 1])
  }

  /** The properties the plan leaves on a node, later statements winning. */
  function Writes(plan: seq<Statement>, n: Node): (p: Props)
  {
    if plan == [] then map[] else Writes(plan[..|plan| - 1], n) + WritesOf(plan[|plan| - 1], n)
  }

  /** Every MATCHed node is in `known` or was created by an earlier statement. */
  predicate Grounded(known: set<Node>, plan: seq<Statement>)
  {
    plan == []
    || (Grounded(known, plan[..|plan| - 1]) && Needs(plan[|plan| - 1]) <= known + Created(plan[..|plan| - 1]))
  }

  // ----- what a grounded plan does -----

  function PropsOf(g: Graph, n: Node): (p: Props)
  {
    if n in g.nodes then g.nodes[n] else map[]
  }

  /** A statement whose MATCHed nodes exist takes effect. */
  lemma ExecTakesEffect(g: Graph, s: Statement)
    requires Needs(s) <= g.nodes.Keys + Creates(s)
    ensures Exec(g, s).nodes.Keys == g.nodes.Keys + Creates(s)
    ensures Exec(g, s).edges == g.edges + EdgeOf(s)
    ensures forall n :: PropsOf(Exec(g, s), n) == PropsOf(g, n) + WritesOf(s, n)
  {
    forall n ensures PropsOf(Exec(g, s), n) == PropsOf(g, n) + WritesOf(s, n) {
      if s.Link? || s.node != n { assert PropsOf(g, n) + map[] == PropsOf(g, n); }
    }
  }

  /** A grounded plan, on any graph: every statement takes effect. */
  lemma {:induction false} RunOfGrounded(g: Graph, plan: seq<Statement>)
    requires Grounded(g.nodes.Keys, plan)
    ensures Run(g, plan).nodes.Keys == g.nodes.Keys + Created(plan)
    ensures Run(g, plan).edges == g.edges + Mentioned(plan)
    ensures forall n :: PropsOf(Run(g, plan), n) == PropsOf(g, n) + Writes(plan, n)
  {
    if plan == [] {
      forall n ensures PropsOf(g, n) + map[] == PropsOf(g, n) {}
    } else {
      var pre, s := plan[..|plan| - 1], plan[|plan| - 1];
      RunOfGrounded(g, pre);
      hide Run, Writes, Created, Mentioned, Exec, PropsOf, WritesOf, EdgeOf, Creates, Needs;
      ExecTakesEffect(Run(g, pre), s);
      RunStep(g, plan);
      forall n { MapSumsAssociate(PropsOf(g, n), Writes(pre, n), WritesOf(s, n)); }
    }
  }

  lemma MapSumsAssociate(a: Props, b: Props, c: Props)
    ensures a + b + c == a + (b + c)
  {
  }

  lemma WrittenTwice(p: Props, w: Props)
    ensures (p + w) + w == p + w
  {
  }

  lemma RunStep(g: Graph, plan: seq<Statement>)
    requires plan != []
    ensures var pre, s := plan[..|plan| - 1], plan[|plan| - 1];
            && Run(g, plan) == Exec(Run(g, pre), s)
            && Created(plan) == Created(pre) + Creates(s) && Mentioned(plan) == Mentioned(pre) + EdgeOf(s)
            && forall n :: Writes(plan, n) == Writes(pre, n) + WritesOf(s, n)
  {
  }

  lemma {:induction false} GroundedOnMore(known: set<Node>, more: set<Node>, plan: seq<Statement>)
    requires Grounded(known, plan) && known <= more
    ensures Grounded(more, plan)
  {
    if plan != [] { GroundedOnMore(known, more, plan[..|plan| - 1]); }
  }

  /** MAIN: running a grounded plan a second time changes nothing: no node, no edge and
      no property. */
  lemma {:induction false} GroundedPlanIsIdempotent(g: Graph, plan: seq<Statement>)
    requires Grounded({}, plan)
    ensures Run(Run(g, plan), plan) == Run(g, plan)
  {
    var once := Run(g, plan);
    GroundedOnMore({}, g.nodes.Keys, plan);
    GroundedOnMore({}, once.nodes.Keys, plan);
    RunOfGrounded(g, plan);
    RunOfGrounded(once, plan);
    hide Run, Writes, Grounded, Created, Mentioned;
    var twice := Run(once, plan);
    forall n | n in twice.nodes ensures twice.nodes[n] == once.nodes[n] {
      WrittenTwice(PropsOf(g, n), Writes(plan, n));
      assert twice.nodes[n] == PropsOf(twice, n) && once.nodes[n] == PropsOf(once, n);
    }
    assert twice.nodes == once.nodes;
  }

  // ----- concatenation -----

  lemma {:induction false} PlanAppend(known: set<Node>, p: seq<Statement>, q: seq<Statement>)
    ensures Created(p + q) == Created(p) + Created(q)
    ensures Mentioned(p + q) == Mentioned(p) + Mentioned(q)
    ensures Grounded(known, p + q) <==> Grounded(known, p) && Grounded(known + Created(p), q)
  {
    if q == [] {
      assert p + q == p;
    } else {
      var pre, s, pq := q[..|q| - 1], q[|q| - 1], p + q;
      PlanAppend(known, p, pre);
      assert pq[..|pq| - 1] == p + pre && pq[|pq| - 1] == s;
      assert known + Created(p) + Created(pre) == known + (Created(p) + Created(pre));
    }
  }

  lemma {:induction false} PlanSingle(s: Statement, known: set<Node>)
    ensures Created([s]) == Creates(s) && Mentioned([s]) == EdgeOf(s)
    ensures Grounded(known, [s]) <==> Needs(s) <= known
  {
    assert [s][..0] == [];
  }

  /** The statements of a loop, one stretch for each element. */
  function Each<T>(xs: seq<T>, f: T -> seq<Statement>): (plan: seq<Statement>)
  {
    if xs == [] then [] else Each(xs[..|xs| - 1], f) + f(xs[|xs| - 1])
  }

  lemma {:induction false} EachMentions<T>(xs: seq<T>, f: T -> seq<Statement>)
    ensures forall e :: e in Mentioned(Each(xs, f)) <==> exists x :: x in xs && e in Mentioned(f(x))
    ensures forall n :: n in Created(Each(xs, f)) <==> exists x :: x in xs && n in Created(f(x))
  {
    if xs != [] {
      var pre, x := xs[..|xs| - 1], xs[|xs| - 1];
      EachMentions(pre, f);
      PlanAppend({}, Each(pre, f), f(x));
      hide Created, Mentioned, Grounded;
      assert xs == pre + [x];
      assert forall y :: y in xs <==> y in pre || y == x;
    }
  }

  lemma {:induction false} EachGrounded<T>(known: set<Node>, xs: seq<T>, f: T -> seq<Statement>)
    requires forall x :: x in xs ==> Grounded(known, f(x))
    ensures Grounded(known, Each(xs, f))
  {
    if xs != [] {
      var pre, x := xs[..|xs| - 1], xs[|xs| - 1];
      EachGrounded(known, pre, f);
      GroundedOnMore(known, known + Created(Each(pre, f)), f(x));
      PlanAppend(known, Each(pre, f), f(x));
    }
  }

  // ----- the statement builders -----

  function HallNode(h: Hall): (n: Node) { Node(HallLabel, h.id) }
  function RackNode(k: Rack): (n: Node) { Node(RackLabel, k.id) }
  function DeviceNode(id: string): (n: Node) { Node(DeviceLabel, id) }
  function SiteNode(id: string): (n: Node) { Node(SiteLabel, id) }

  function SiteProps(region: string, timezone: string): (p: Props)
  {
    map["region" := Str(region), "timezone" := Str(timezone)]
  }

  function HallProps(capacity: real): (p: Props) { map["capacity_kw" := Num(capacity)] }

  function RackProps(k: Rack): (p: Props) { map["position" := Pair(k.position.0, k.position.1)] }

  function DeviceProps(typeName: string, d: Device): (p: Props)
  {
    map["type" := Str(typeName), "model" := Str(d.model), "vendor" := Str(d.vendor)]
  }

  function SiteStatement(site: string, region: string, timezone: string): (s: Statement)
  {
    Merge(SiteNode(site), SiteProps(region, timezone))
  }

  function HallStatement(h: Hall, capacity: real): (s: Statement)
  {
    MergeLinked(HallNode(h), HallProps(capacity), LOCATED_IN, SiteNode(h.siteId))
  }

  function CracStatement(h: Hall): Device -> seq<Statement>
  {
    (c: Device) => [MergeLinked(DeviceNode(c.id), DeviceProps("crac", c), COOLS, HallNode(h))]
  }

  function RackStatement(h: Hall, k: Rack): (s: Statement)
  {
    MergeLinked(RackNode(k), RackProps(k), LOCATED_IN, HallNode(h))
  }

  function TypeName(kind: Kind): (s: string)
  {
    match kind case Server => "server" case Gpu => "gpu" case Switch => "switch" case Pdu => "pdu" case Crac => "crac"
  }

  function DeviceStatement(k: Rack): Device -> seq<Statement>
  {
    (d: Device) => [MergeLinked(DeviceNode(d.id), DeviceProps(TypeName(d.kind), d), MOUNTED_IN, RackNode(k))]
  }

  function CooledBy(k: Rack): Device -> seq<Statement>
  {
    (c: Device) => [Link(RackNode(k), COOLED_BY, DeviceNode(c.id))]
  }

  function PoweredBy(p: Device): string -> seq<Statement>
  {
    (id: string) => [Link(DeviceNode(id), POWERED_BY, DeviceNode(p.id))]
  }

  function PoweredByPdu(): Device -> seq<Statement>
  {
    (p: Device) => Each(p.powered, PoweredBy(p))
  }

  function DependsOn(switch: Device): Device -> seq<Statement>
  {
    (srv: Device) => [Link(DeviceNode(srv.id), DEPENDS_ON, DeviceNode(switch.id))]
  }

  function DependOnSwitch(servers: seq<Device>): Device -> seq<Statement>
  {
    (switch: Device) => Each(servers, DependsOn(switch))
  }

  function DependOnParent(): Device -> seq<Statement>
  {
    (g: Device) => if g.parent == "" then [] else [Link(DeviceNode(g.id), DEPENDS_ON, DeviceNode(g.parent))]
  }

  function OfKind(ds: seq<Device>, kind: Kind): (r: seq<Device>)
    ensures forall d :: d in r <==> d in ds && d.kind == kind
  {
    if ds == [] then []
    else
      var r := OfKind(ds[..|ds| - 1], kind);
      assert forall d :: d in ds <==> d in ds[..|ds| - 1] || d == ds[|ds| - 1];
      if ds[|ds| - 1].kind == kind then r + [ds[|ds| - 1]] else r
  }

  // ----- the plan -----

  /** The statements of a rack that make its edges to other devices. */
  function RackEdges(h: Hall, k: Rack): (plan: seq<Statement>)
  {
    Each(h.cracs, CooledBy(k))
    + Each(OfKind(k.devices, Pdu), PoweredByPdu())
    + Each(OfKind(k.devices, Switch), DependOnSwitch(OfKind(k.devices, Server)))
    + Each(OfKind(k.devices, Gpu), DependOnParent())
  }

  function RackPlan(h: Hall): Rack -> seq<Statement>
  {
    (k: Rack) => [RackStatement(h, k)] + Each(k.devices, DeviceStatement(k)) + RackEdges(h, k)
  }

  function HallPlan(capacity: real): Hall -> seq<Statement>
  {
    (h: Hall) => [HallStatement(h, capacity)] + Each(h.cracs, CracStatement(h)) + Each(h.racks, RackPlan(h))
  }

  function Plan(site: string, region: string, timezone: string, capacity: real,
                halls: seq<Hall>): (plan: seq<Statement>)
  {
    [SiteStatement(site, region, timezone)] + Each(halls, HallPlan(capacity))
  }

  // ----- the meaning of the tree -----

  ghost predicate RackDescribes(h: Hall, k: Rack, e: Edge) {
    || e == Edge(RackNode(k), LOCATED_IN, HallNode(h))
    || (exists d :: d in k.devices && e == Edge(DeviceNode(d.id), MOUNTED_IN, RackNode(k)))
    || WiringDescribes(h, k, e)
  }

  ghost predicate HallDescribes(h: Hall, e: Edge) {
    || e == Edge(HallNode(h), LOCATED_IN, SiteNode(h.siteId))
    || (exists c :: c in h.cracs && e == Edge(DeviceNode(c.id), COOLS, HallNode(h)))
    || (exists k :: k in h.racks && RackDescribes(h, k, e))
  }

  /** The edge is one the halls describe. */
  ghost predicate Describes(halls: seq<Hall>, e: Edge) {
    exists h :: h in halls && HallDescribes(h, e)
  }

  /** The node stands for something in the halls. */
  ghost predicate Contains(site: string, halls: seq<Hall>, n: Node) {
    || n == SiteNode(site)
    || exists h :: h in halls && HallContains(h, n)
  }

  ghost predicate HallContains(h: Hall, n: Node) {
    || n == HallNode(h)
    || (exists c :: c in h.cracs && n == DeviceNode(c.id))
    || (exists k :: k in h.racks && RackContains(k, n))
  }

  ghost predicate RackContains(k: Rack, n: Node) {
    n == RackNode(k) || exists d :: d in k.devices && n == DeviceNode(d.id)
  }

  // ----- the plan mentions exactly that -----

  lemma CooledMentions(h: Hall, k: Rack)
    ensures forall e :: e in Mentioned(Each(h.cracs, CooledBy(k)))
              <==> exists c :: c in h.cracs && e == Edge(RackNode(k), COOLED_BY, DeviceNode(c.id))
    ensures Created(Each(h.cracs, CooledBy(k))) == {}
  {
    EachMentions(h.cracs, CooledBy(k));
    forall c: Device ensures Mentioned(CooledBy(k)(c)) == {Edge(RackNode(k), COOLED_BY, DeviceNode(c.id))}
        && Created(CooledBy(k)(c)) == {} {
      PlanSingle(CooledBy(k)(c)[0], {});
    }
  }

  lemma PoweredMentions(p: Device)
    ensures forall e :: e in Mentioned(PoweredByPdu()(p))
              <==> exists id :: id in p.powered && e == Edge(DeviceNode(id), POWERED_BY, DeviceNode(p.id))
    ensures Created(PoweredByPdu()(p)) == {}
  {
    EachMentions(p.powered, PoweredBy(p));
    forall id: string ensures Mentioned(PoweredBy(p)(id)) == {Edge(DeviceNode(id), POWERED_BY, DeviceNode(p.id))}
        && Created(PoweredBy(p)(id)) == {} {
      PlanSingle(PoweredBy(p)(id)[0], {});
    }
  }

  lemma SwitchMentions(servers: seq<Device>, w: Device)
    ensures forall e :: e in Mentioned(DependOnSwitch(servers)(w))
              <==> exists s :: s in servers && e == Edge(DeviceNode(s.id), DEPENDS_ON, DeviceNode(w.id))
    ensures Created(DependOnSwitch(servers)(w)) == {}
  {
    EachMentions(servers, DependsOn(w));
    forall s: Device ensures Mentioned(DependsOn(w)(s)) == {Edge(DeviceNode(s.id), DEPENDS_ON, DeviceNode(w.id))}
        && Created(DependsOn(w)(s)) == {} {
      PlanSingle(DependsOn(w)(s)[0], {});
    }
  }

  lemma ParentMentions(g: Device)
    ensures Mentioned(DependOnParent()(g)) == if g.parent == "" then {} else {Edge(DeviceNode(g.id), DEPENDS_ON,
        DeviceNode(g.parent))}
    ensures Created(DependOnParent()(g)) == {}
  {
    if g.parent != "" { PlanSingle(DependOnParent()(g)[0], {}); }
  }

  lemma DevicesMention(k: Rack)
    ensures forall e :: e in Mentioned(Each(k.devices, DeviceStatement(k)))
              <==> exists d :: d in k.devices && e == Edge(DeviceNode(d.id), MOUNTED_IN, RackNode(k))
    ensures forall n ::
        n in Created(Each(k.devices, DeviceStatement(k))) <==> exists d :: d in k.devices && n == DeviceNode(d.id)
  {
    EachMentions(k.devices, DeviceStatement(k));
    forall d: Device
      ensures Mentioned(DeviceStatement(k)(d)) == {Edge(DeviceNode(d.id), MOUNTED_IN, RackNode(k))}
      ensures Created(DeviceStatement(k)(d)) == {DeviceNode(d.id)}
    {
      PlanSingle(DeviceStatement(k)(d)[0], {});
    }
  }

  lemma CracsMention(h: Hall)
    ensures forall e :: e in Mentioned(Each(h.cracs, CracStatement(h)))
              <==> exists c :: c in h.cracs && e == Edge(DeviceNode(c.id), COOLS, HallNode(h))
    ensures forall n ::
        n in Created(Each(h.cracs, CracStatement(h))) <==> exists c :: c in h.cracs && n == DeviceNode(c.id)
  {
    EachMentions(h.cracs, CracStatement(h));
    forall c: Device
      ensures Mentioned(CracStatement(h)(c)) == {Edge(DeviceNode(c.id), COOLS, HallNode(h))}
      ensures Created(CracStatement(h)(c)) == {DeviceNode(c.id)}
    {
      PlanSingle(CracStatement(h)(c)[0], {});
    }
  }

  lemma PdusMention(k: Rack)
    ensures forall e :: e in Mentioned(Each(OfKind(k.devices, Pdu), PoweredByPdu()))
              <==> exists p, id :: p in k.devices && p.kind == Pdu && id in p.powered
                     && e == Edge(DeviceNode(id), POWERED_BY, DeviceNode(p.id))
    ensures Created(Each(OfKind(k.devices, Pdu), PoweredByPdu())) == {}
  {
    hide Mentioned, Created, Each, PoweredByPdu, OfKind;
    EachMentions(OfKind(k.devices, Pdu), PoweredByPdu());
    forall p { PoweredMentions(p); }
  }

  lemma SwitchesMention(k: Rack)
    ensures var plan := Each(OfKind(k.devices, Switch), DependOnSwitch(OfKind(k.devices, Server)));
            && Created(plan) == {}
            && forall e :: e in Mentioned(plan)
                 <==> exists s, w :: s in k.devices && s.kind == Server && w in k.devices && w.kind == Switch
                        && e == Edge(DeviceNode(s.id), DEPENDS_ON, DeviceNode(w.id))
  {
    hide Mentioned, Created, Each, DependOnSwitch, OfKind;
    var servers := OfKind(k.devices, Server);
    EachMentions(OfKind(k.devices, Switch), DependOnSwitch(servers));
    forall w { SwitchMentions(servers, w); }
  }

  lemma GpusMention(k: Rack)
    ensures forall e :: e in Mentioned(Each(OfKind(k.devices, Gpu), DependOnParent()))
              <==> exists g :: g in k.devices && g.kind == Gpu && g.parent != ""
                     && e == Edge(DeviceNode(g.id), DEPENDS_ON, DeviceNode(g.parent))
    ensures Created(Each(OfKind(k.devices, Gpu), DependOnParent())) == {}
  {
    hide Mentioned, Created, Each, DependOnParent, OfKind;
    EachMentions(OfKind(k.devices, Gpu), DependOnParent());
    forall g { ParentMentions(g); }
  }

  /** The edges between the rack, its CRACs and its devices. */
  ghost predicate WiringDescribes(h: Hall, k: Rack, e: Edge) {
    || (exists c :: c in h.cracs && e == Edge(RackNode(k), COOLED_BY, DeviceNode(c.id)))
    || (exists p, id ::
        p in k.devices && p.kind == Pdu && id in p.powered && e == Edge(DeviceNode(id), POWERED_BY, DeviceNode(p.id)))
    || (exists s, w :: s in k.devices && s.kind == Server && w in k.devices && w.kind == Switch
                       && e == Edge(DeviceNode(s.id), DEPENDS_ON, DeviceNode(w.id)))
    || (exists g ::
        g in k.devices && g.kind == Gpu && g.parent != ""
            && e == Edge(DeviceNode(g.id), DEPENDS_ON, DeviceNode(g.parent)))
  }

  lemma RackEdgesMention(h: Hall, k: Rack)
    ensures forall e :: e in Mentioned(RackEdges(h, k)) <==> WiringDescribes(h, k, e)
    ensures Created(RackEdges(h, k)) == {}
  {
    hide Mentioned, Created, Each, Grounded, OfKind, CooledBy, PoweredByPdu, DependOnSwitch, DependOnParent;
    var a, b := Each(h.cracs, CooledBy(k)), Each(OfKind(k.devices, Pdu), PoweredByPdu());
    var c, d := Each(OfKind(k.devices, Switch), DependOnSwitch(OfKind(k.devices, Server))),
        Each(OfKind(k.devices, Gpu), DependOnParent());
    CooledMentions(h, k);
    PdusMention(k);
    SwitchesMention(k);
    GpusMention(k);
    PlanAppend({}, a, b);
    PlanAppend({}, a + b, c);
    PlanAppend({}, a + b + c, d);
  }

  /** A rack's stretch of the plan mentions what the rack describes. */
  lemma RackMentions(h: Hall, k: Rack)
    ensures forall e :: e in Mentioned(RackPlan(h)(k)) <==> RackDescribes(h, k, e)
    ensures Created(RackPlan(h)(k)) == {RackNode(k)} + Created(Each(k.devices, DeviceStatement(k)))
  {
    hide Mentioned, Created, Each, Grounded, DeviceStatement, RackEdges, WiringDescribes;
    var first, devices := [RackStatement(h, k)], Each(k.devices, DeviceStatement(k));
    RackEdgesMention(h, k);
    DevicesMention(k);
    PlanSingle(RackStatement(h, k), {});
    PlanAppend({}, first, devices);
    PlanAppend({}, first + devices, RackEdges(h, k));
  }

  lemma HallMentions(h: Hall, capacity: real)
    ensures forall e :: e in Mentioned(HallPlan(capacity)(h)) <==> HallDescribes(h, e)
    ensures Created(HallPlan(capacity)(h)) == {HallNode(h)} + Created(Each(h.cracs, CracStatement(h)))
        + Created(Each(h.racks, RackPlan(h)))
  {
    hide Mentioned, Created, Each, Grounded, RackPlan, CracStatement, RackDescribes;
    var a, b, c := [HallStatement(h, capacity)], Each(h.cracs, CracStatement(h)), Each(h.racks, RackPlan(h));
    CracsMention(h);
    EachMentions(h.racks, RackPlan(h));
    forall k { RackMentions(h, k); }
    PlanSingle(HallStatement(h, capacity), {});
    PlanAppend({}, a, b);
    PlanAppend({}, a + b, c);
  }

  /** The plan mentions exactly the edges the halls describe. */
  lemma PlanMentions(site: string, region: string, timezone: string, capacity: real, halls: seq<Hall>)
    ensures forall e :: e in Mentioned(Plan(site, region, timezone, capacity, halls)) <==> Describes(halls, e)
  {
    hide Mentioned, Created, Each, Grounded, HallPlan, HallDescribes;
    PlanSingle(SiteStatement(site, region, timezone), {});
    PlanAppend({}, [SiteStatement(site, region, timezone)], Each(halls, HallPlan(capacity)));
    EachMentions(halls, HallPlan(capacity));
    forall h { HallMentions(h, capacity); }
  }

  /** It creates exactly the nodes the halls contain. */
  lemma PlanCreates(site: string, region: string, timezone: string, capacity: real, halls: seq<Hall>)
    ensures forall n :: n in Created(Plan(site, region, timezone, capacity, halls)) <==> Contains(site, halls, n)
  {
    hide Mentioned, Created, Each, Grounded, HallPlan, RackPlan, DeviceStatement, CracStatement;
    PlanSingle(SiteStatement(site, region, timezone), {});
    PlanAppend({}, [SiteStatement(site, region, timezone)], Each(halls, HallPlan(capacity)));
    EachMentions(halls, HallPlan(capacity));
    forall h: Hall, n ensures n in Created(HallPlan(capacity)(h)) <==> HallContains(h, n) {
      HallMentions(h, capacity);
      HallCreates(h);
    }
  }

  lemma HallCreates(h: Hall)
    ensures forall n ::
        n in Created(Each(h.cracs, CracStatement(h))) <==> exists c :: c in h.cracs && n == DeviceNode(c.id)
    ensures forall n :: n in Created(Each(h.racks, RackPlan(h)))
              <==> exists k :: k in h.racks && RackContains(k, n)
  {
    hide Mentioned, Created, Each, RackPlan, DeviceStatement, CracStatement;
    CracsMention(h);
    EachMentions(h.racks, RackPlan(h));
    forall k: Rack, n ensures n in Created(RackPlan(h)(k)) <==> RackContains(k, n) {
      RackMentions(h, k);
      DevicesMention(k);
    }
  }

  // ----- the order is right -----

  lemma {:induction false} RackGrounded(h: Hall, k: Rack, known: set<Node>)
    requires Closed(k.devices, k.devices) && HallNode(h) in known
    requires forall c :: c in h.cracs ==> DeviceNode(c.id) in known
    ensures Grounded(known, RackPlan(h)(k))
  {
    var first, devices := [RackStatement(h, k)], Each(k.devices, DeviceStatement(k));
    var known1 := known + {RackNode(k)};
    var known2 := known1 + Created(devices);
    hide Grounded, Created, Mentioned, Each, RackEdges, Closed;
    PlanSingle(RackStatement(h, k), known);
    DevicesMention(k);
    DevicesGrounded(k, known1);
    RackEdgesGrounded(h, k, known2);
    PlanAppend(known, first, devices);
    PlanAppend(known, first + devices, RackEdges(h, k));
    assert known + Created(first + devices) == known2;
  }

  lemma {:induction false} DevicesGrounded(k: Rack, known: set<Node>)
    requires RackNode(k) in known
    ensures Grounded(known, Each(k.devices, DeviceStatement(k)))
  {
    forall d | d in k.devices ensures Grounded(known,
        DeviceStatement(k)(d)) { PlanSingle(DeviceStatement(k)(d)[0], known); }
    EachGrounded(known, k.devices, DeviceStatement(k));
  }

  lemma {:induction false} RackEdgesGrounded(h: Hall, k: Rack, known: set<Node>)
    requires Closed(k.devices, k.devices) && RackNode(k) in known
    requires forall c :: c in h.cracs ==> DeviceNode(c.id) in known
    requires forall d :: d in k.devices ==> DeviceNode(d.id) in known
    ensures Grounded(known, RackEdges(h, k))
  {
    var pdus, switches, servers, gpus := OfKind(k.devices, Pdu), OfKind(k.devices, Switch),
        OfKind(k.devices, Server), OfKind(k.devices, Gpu);
    forall c | c in h.cracs ensures Grounded(known, CooledBy(k)(c)) { PlanSingle(CooledBy(k)(c)[0], known); }
    forall p | p in pdus ensures Grounded(known, PoweredByPdu()(p)) {
      forall id | id in p.powered ensures Grounded(known, PoweredBy(p)(id)) {
        assert Holds(k.devices, id);
        PlanSingle(PoweredBy(p)(id)[0], known);
      }
      EachGrounded(known, p.powered, PoweredBy(p));
    }
    forall w | w in switches ensures Grounded(known, DependOnSwitch(servers)(w)) {
      forall s | s in servers ensures Grounded(known, DependsOn(w)(s)) { PlanSingle(DependsOn(w)(s)[0], known); }
      EachGrounded(known, servers, DependsOn(w));
    }
    forall g | g in gpus ensures Grounded(known, DependOnParent()(g)) {
      if g.parent != "" {
        assert Holds(k.devices, g.parent);
        PlanSingle(DependOnParent()(g)[0], known);
      }
    }
    EdgeLoopsGrounded(h, k, known);
  }

  lemma {:induction false} EdgeLoopsGrounded(h: Hall, k: Rack, known: set<Node>)
    requires forall c :: c in h.cracs ==> Grounded(known, CooledBy(k)(c))
    requires forall p :: p in OfKind(k.devices, Pdu) ==> Grounded(known, PoweredByPdu()(p))
    requires forall w :: w in OfKind(k.devices, Switch) ==>
        Grounded(known, DependOnSwitch(OfKind(k.devices, Server))(w))
    requires forall g :: g in OfKind(k.devices, Gpu) ==> Grounded(known, DependOnParent()(g))
    ensures Grounded(known, RackEdges(h, k))
  {
    hide Grounded, Created, Mentioned, Each, OfKind, CooledBy, PoweredByPdu, DependOnSwitch, DependOnParent;
    var a, b := Each(h.cracs, CooledBy(k)), Each(OfKind(k.devices, Pdu), PoweredByPdu());
    var c, d := Each(OfKind(k.devices, Switch), DependOnSwitch(OfKind(k.devices, Server))),
        Each(OfKind(k.devices, Gpu), DependOnParent());
    EachGrounded(known, h.cracs, CooledBy(k));
    EachGrounded(known, OfKind(k.devices, Pdu), PoweredByPdu());
    EachGrounded(known, OfKind(k.devices, Switch), DependOnSwitch(OfKind(k.devices, Server)));
    EachGrounded(known, OfKind(k.devices, Gpu), DependOnParent());
    PlanAppend(known, a, b);
    PlanAppend(known, a + b, c);
    PlanAppend(known, a + b + c, d);
    GroundedOnMore(known, known + Created(a), b);
    GroundedOnMore(known, known + Created(a + b), c);
    GroundedOnMore(known, known + Created(a + b + c), d);
  }

  lemma {:induction false} HallGrounded(h: Hall, capacity: real, known: set<Node>)
    requires SiteNode(h.siteId) in known && forall k :: k in h.racks ==> Closed(k.devices, k.devices)
    ensures Grounded(known, HallPlan(capacity)(h))
  {
    hide Grounded, Created, Mentioned, Each, RackPlan, Closed;
    var first, cracs, racks := [HallStatement(h, capacity)], Each(h.cracs, CracStatement(h)),
        Each(h.racks, RackPlan(h));
    var known1 := known + {HallNode(h)};
    var known2 := known1 + Created(cracs);
    PlanSingle(HallStatement(h, capacity), known);
    CracsMention(h);
    forall c | c in h.cracs ensures Grounded(known1,
        CracStatement(h)(c)) { PlanSingle(CracStatement(h)(c)[0], known1); }
    EachGrounded(known1, h.cracs, CracStatement(h));
    forall k | k in h.racks ensures Grounded(known2, RackPlan(h)(k)) { RackGrounded(h, k, known2); }
    EachGrounded(known2, h.racks, RackPlan(h));
    PlanAppend(known, first, cracs);
    PlanAppend(known, first + cracs, racks);
    assert known + Created(first + cracs) == known2;
  }

  /** MAIN: in the plan of a well-formed tree every MATCHed node was created by an
      earlier statement. */
  lemma PlanIsGrounded(site: string, region: string, timezone: string, capacity: real, halls: seq<Hall>)
    requires WellFormed(halls, site)
    ensures Grounded({}, Plan(site, region, timezone, capacity, halls))
  {
    hide Grounded, Created, Mentioned, Each, HallPlan, Closed;
    PlanSingle(SiteStatement(site, region, timezone), {});
    var known := {SiteNode(site)};
    forall h | h in halls ensures Grounded(known, HallPlan(capacity)(h)) { HallGrounded(h, capacity, known); }
    EachGrounded(known, halls, HallPlan(capacity));
    PlanAppend({}, [SiteStatement(site, region, timezone)], Each(halls, HallPlan(capacity)));
    assert {} + known == known;
  }

  // ----- main results -----

  /** MAIN: the plan means the tree: on any starting graph it adds exactly the edges and
      the nodes that a well-formed tree describes. */
  lemma {:induction false} PlanMeansTree(g: Graph, site: string, region: string, timezone: string, capacity: real,
                                         halls: seq<Hall>)
    requires WellFormed(halls, site)
    ensures
      (var r := Run(g, Plan(site, region, timezone, capacity, halls));
       && (forall e :: e in r.edges <==> e in g.edges || Describes(halls, e))
       && (forall n :: n in r.nodes <==> n in g.nodes || Contains(site, halls, n)))
  {
    hide Grounded, Created, Mentioned, Plan, Run, Describes, Contains, Writes;
    var plan := Plan(site, region, timezone, capacity, halls);
    PlanIsGrounded(site, region, timezone, capacity, halls);
    GroundedOnMore({}, g.nodes.Keys, plan);
    RunOfGrounded(g, plan);
    PlanMentions(site, region, timezone, capacity, halls);
    PlanCreates(site, region, timezone, capacity, halls);
  }

  /** MAIN: seeding a site with the tree `build_halls` makes, whatever its generator
      draws, adds exactly what that tree describes, and seeding it again changes nothing. */
  lemma {:induction false} SeedingIsExactAndIdempotent(g: Graph, site: string, region: string, timezone: string,
                                                       capacity: real,
                                    n: nat, racksPerHall: nat, rng: Rng)
    ensures
      (var halls := HallsOf(site, n, racksPerHall, rng);
       var plan := Plan(site, region, timezone, capacity, halls);
       var r := Run(g, plan);
       && (forall e :: e in r.edges <==> e in g.edges || Describes(halls, e))
       && (forall m :: m in r.nodes <==> m in g.nodes || Contains(site, halls, m))
       && Run(r, plan) == r)
  {
    hide Plan, Run, Describes, Contains, HallsOf, Grounded;
    var halls := HallsOf(site, n, racksPerHall, rng);
    BuiltHallsAreWellFormed(site, n, racksPerHall, rng);
    PlanMeansTree(g, site, region, timezone, capacity, halls);
    PlanIsGrounded(site, region, timezone, capacity, halls);
    GroundedPlanIsIdempotent(g, Plan(site, region, timezone, capacity, halls));
  }

  // ----- what the nodes carry -----

  lemma {:induction false} EachHolds<T>(xs: seq<T>, f: T -> seq<Statement>, s: Statement)
    ensures s in Each(xs, f) <==> exists x :: x in xs && s in f(x)
  {
    if xs != [] {
      var pre, x := xs[..|xs| - 1], xs[|xs| - 1];
      EachHolds(pre, f, s);
      assert forall y :: y in xs <==> y in pre || y == x;
    }
  }

  /** The node stands for something in the tree that has these properties. */
  ghost predicate Carries(site: string, region: string, timezone: string, capacity: real, halls: seq<Hall>, n: Node,
                          w: Props) {
    || (n == SiteNode(site) && w == SiteProps(region, timezone))
    || (exists h :: h in halls && n == HallNode(h) && w == HallProps(capacity))
    || (exists k :: InHalls(halls, k) && n == RackNode(k) && w == RackProps(k))
    || (exists d :: InTree(halls, d) && n == DeviceNode(d.id) && w == DeviceProps(TypeName(d.kind), d))
  }

  ghost predicate InHalls(halls: seq<Hall>, k: Rack) {
    exists h :: h in halls && k in h.racks
  }

  /** The statement only links nodes. */
  predicate IsLink(s: Statement) { s.Link? }

  lemma RackEdgesLink(h: Hall, k: Rack, s: Statement)
    requires s in RackEdges(h, k)
    ensures IsLink(s)
  {
    var pdus, switches, gpus := OfKind(k.devices, Pdu), OfKind(k.devices, Switch), OfKind(k.devices, Gpu);
    var servers := OfKind(k.devices, Server);
    EachHolds(h.cracs, CooledBy(k), s);
    EachHolds(pdus, PoweredByPdu(), s);
    EachHolds(switches, DependOnSwitch(servers), s);
    EachHolds(gpus, DependOnParent(), s);
    hide Each, OfKind;
    if p :| p in pdus && s in PoweredByPdu()(p) { EachHolds(p.powered, PoweredBy(p), s); }
    if w :| w in switches && s in DependOnSwitch(servers)(w) { EachHolds(servers, DependsOn(w), s); }
  }

  ghost predicate RackCarries(k: Rack, n: Node, w: Props) {
    || (n == RackNode(k) && w == RackProps(k))
    || (exists d :: d in k.devices && n == DeviceNode(d.id) && w == DeviceProps(TypeName(d.kind), d))
  }

  lemma RackStatementsCarry(h: Hall, k: Rack, s: Statement)
    requires s in RackPlan(h)(k) && !IsLink(s)
    ensures RackCarries(k, s.node, s.props)
  {
    hide Each, RackEdges, DeviceProps, RackProps;
    if s in RackEdges(h, k) { RackEdgesLink(h, k, s); }
    EachHolds(k.devices, DeviceStatement(k), s);
  }

  /** The hall's own units are CRACs. */
  ghost predicate CracsAreCracs(halls: seq<Hall>) {
    forall h, c :: h in halls && c in h.cracs ==> c.kind == Crac
  }

  ghost predicate HallCarries(capacity: real, h: Hall, n: Node, w: Props) {
    || (n == HallNode(h) && w == HallProps(capacity))
    || (exists c :: c in h.cracs && n == DeviceNode(c.id) && w == DeviceProps("crac", c))
    || (exists k :: k in h.racks && RackCarries(k, n, w))
  }

  lemma HallStatementsCarry(capacity: real, h: Hall, s: Statement)
    requires s in HallPlan(capacity)(h) && !IsLink(s)
    ensures HallCarries(capacity, h, s.node, s.props)
  {
    hide Each, RackPlan, DeviceProps, HallProps, RackCarries;
    EachHolds(h.cracs, CracStatement(h), s);
    EachHolds(h.racks, RackPlan(h), s);
    if k :| k in h.racks && s in RackPlan(h)(k) { RackStatementsCarry(h, k, s); }
  }

  /** What a statement writes belongs to the node it writes to. */
  lemma StatementsCarry(site: string, region: string, timezone: string, capacity: real, halls: seq<Hall>, s: Statement)
    requires CracsAreCracs(halls) && s in Plan(site, region, timezone, capacity, halls) && !IsLink(s)
    ensures Carries(site, region, timezone, capacity, halls, s.node, s.props)
  {
    hide Each, HallPlan, DeviceProps, HallProps, SiteProps, RackProps;
    EachHolds(halls, HallPlan(capacity), s);
    if h :| h in halls && s in HallPlan(capacity)(h) {
      HallStatementsCarry(capacity, h, s);
      if c :| c in h.cracs && s.node == DeviceNode(c.id) && s.props == DeviceProps("crac", c) {
        assert InHall(h, c) && TypeName(c.kind) == "crac";
      } else if k :| k in h.racks && RackCarries(k, s.node, s.props) {
        assert InHalls(halls, k);
        assert forall d :: d in k.devices ==> InHall(h, d);
      }
    }
  }

  /** If all statements for a node agree, that is what they leave on it. */
  lemma {:induction false} WritesAgreed(plan: seq<Statement>, n: Node, w: Props)
    requires forall s :: s in plan && !IsLink(s) && s.node == n ==> s.props == w
    ensures Writes(plan, n) == if n in Created(plan) then w else map[]
  {
    if plan != [] {
      var pre, s := plan[..|plan| - 1], plan[|plan| - 1];
      assert s in plan && forall x :: x in pre ==> x in plan;
      WritesAgreed(pre, n, w);
      assert w + w == w && w + map[] == w && map[] + w == w;
    }
  }

  /** No node stands for two things with different properties. */
  ghost predicate Unambiguous(site: string, region: string, timezone: string, capacity: real, halls: seq<Hall>) {
    forall n, w, w' ::
      Carries(site, region, timezone, capacity, halls, n, w)
          && Carries(site, region, timezone, capacity, halls, n, w') ==>
        w == w'
  }

  /** On any starting graph, every node of an unambiguous tree ends up with exactly its
      own properties written over those it had. */
  lemma {:induction false} NodesCarryTheirOwn(g: Graph, site: string, region: string, timezone: string, capacity: real,
                                              halls: seq<Hall>, n: Node, w: Props)
    requires WellFormed(halls, site) && CracsAreCracs(halls) && Unambiguous(site, region, timezone, capacity, halls)
    requires Carries(site, region, timezone, capacity, halls, n, w)
    ensures PropsOf(Run(g, Plan(site, region, timezone, capacity, halls)), n) == PropsOf(g, n) + w
  {
    var plan := Plan(site, region, timezone, capacity, halls);
    assert n in Created(plan) by {
      PlanCreates(site, region, timezone, capacity, halls);
      CarriersAreContained(site, region, timezone, capacity, halls, n, w);
    }
    hide Grounded, Created, Mentioned, Plan, Run, Writes, Carries, WellFormed, CracsAreCracs, PropsOf;
    forall s | s in plan && !IsLink(s) && s.node == n ensures s.props == w {
      StatementsCarry(site, region, timezone, capacity, halls, s);
    }
    WritesAgreed(plan, n, w);
    PlanIsGrounded(site, region, timezone, capacity, halls);
    GroundedOnMore({}, g.nodes.Keys, plan);
    RunOfGrounded(g, plan);
  }

  lemma CarriersAreContained(site: string, region: string, timezone: string, capacity: real, halls: seq<Hall>,
                             n: Node, w: Props)
    requires Carries(site, region, timezone, capacity, halls, n, w)
    ensures Contains(site, halls, n)
  {
    hide SiteProps, HallProps, RackProps, DeviceProps;
    if k :| InHalls(halls, k) && n == RackNode(k) && w == RackProps(k) {
      var h :| h in halls && k in h.racks;
      assert RackContains(k, n) && HallContains(h, n);
    } else if d :| InTree(halls, d) && n == DeviceNode(d.id) && w == DeviceProps(TypeName(d.kind), d) {
      var h :| h in halls && InHall(h, d);
      if k :| k in h.racks && d in k.devices { assert RackContains(k, n); }
      assert HallContains(h, n);
    } else if h :| h in halls && n == HallNode(h) && w == HallProps(capacity) {
      assert HallContains(h, n);
    }
  }

  lemma {:induction false} BuiltRacksAreDistinct(site: string, n: nat, racksPerHall: nat, rng: Rng, k: Rack, k': Rack)
    requires InHalls(HallsOf(site, n, racksPerHall, rng), k) && InHalls(HallsOf(site, n, racksPerHall, rng), k')
        && k.id == k'.id
    ensures k == k'
  {
    hide HallsOf, RacksOf, RackId, ServersOf, ServerIds;
    var halls := HallsOf(site, n, racksPerHall, rng);
    var x :| x in halls && k in x.racks;
    var y :| y in halls && k' in y.racks;
    HallsAre(site, n, racksPerHall, rng, x);
    HallsAre(site, n, racksPerHall, rng, y);
    var h :| 0 <= h < n && x == HallOf(site, h, racksPerHall, rng);
    var h' :| 0 <= h' < n && y == HallOf(site, h', racksPerHall, rng);
    RacksAre(site, h, racksPerHall, rng, k);
    RacksAre(site, h', racksPerHall, rng, k');
    var r :| 0 <= r < racksPerHall && k == RackOf(site, h, r, rng);
    var r' :| 0 <= r' < racksPerHall && k' == RackOf(site, h', r', rng);
    RackIdsAreDistinct(site, h, r, h', r');
  }

  lemma {:induction false} BuiltTreeIsUnambiguous(site: string, region: string, timezone: string, capacity: real,
                                                  n: nat,
                               racksPerHall: nat, rng: Rng)
    ensures CracsAreCracs(HallsOf(site, n, racksPerHall, rng))
    ensures Unambiguous(site, region, timezone, capacity, HallsOf(site, n, racksPerHall, rng))
  {
    hide HallsOf, RacksOf, RackOf, HallId, InTree, InHalls, SiteProps, HallProps, RackProps, DeviceProps;
    var halls := HallsOf(site, n, racksPerHall, rng);
    forall h, c | h in halls && c in h.cracs ensures c.kind == Crac { HallsAre(site, n, racksPerHall, rng, h); }
    BuiltDevicesAreDistinct(site, n, racksPerHall, rng);
    forall k, k' | InHalls(halls, k) && InHalls(halls, k') && k.id == k'.id ensures k == k' {
      BuiltRacksAreDistinct(site, n, racksPerHall, rng, k, k');
    }
  }

  /** MAIN: seeding leaves on every node its own properties: for each site, hall, rack and
      device that `build_halls` makes, whatever its generator draws and whatever graph
      there was before. */
  lemma {:induction false} SeededNodesCarryTheirOwn(g: Graph, site: string, region: string, timezone: string,
                                                    capacity: real,
                                 n: nat, racksPerHall: nat, rng: Rng, node: Node, w: Props)
    requires Carries(site, region, timezone, capacity, HallsOf(site, n, racksPerHall, rng), node, w)
    ensures PropsOf(Run(g, Plan(site, region, timezone, capacity, HallsOf(site, n, racksPerHall, rng))),
        node) == PropsOf(g, node) + w
  {
    hide HallsOf, Carries, Unambiguous, CracsAreCracs, WellFormed, Plan, Run;
    BuiltHallsAreWellFormed(site, n, racksPerHall, rng);
    BuiltTreeIsUnambiguous(site, region, timezone, capacity, n, racksPerHall, rng);
    NodesCarryTheirOwn(g, site, region, timezone, capacity, HallsOf(site, n, racksPerHall, rng), node, w);
  }

  /** The device of every place ends up with its own type, model and vendor. */
  lemma {:induction false} DeviceNodesCarryTheirOwn(g: Graph, site: string, region: string, timezone: string,
                                                    capacity: real,
                                 n: nat, racksPerHall: nat, rng: Rng, p: Place)
    requires Exists(p, n, racksPerHall, rng)
    ensures
      (var r := Run(g, Plan(site, region, timezone, capacity, HallsOf(site, n, racksPerHall, rng)));
       var d, props := DeviceAt(site, p, rng), PropsOf(r, DeviceNode(IdAt(site, p)));
       && "type" in props && props["type"] == Str(TypeName(d.kind))
       && "model" in props && props["model"] == Str(d.model)
       && "vendor" in props && props["vendor"] == Str(d.vendor))
  {
    hide HallsOf, DeviceAt, IdAt, Plan, Run, TypeName, InTree;
    var d := DeviceAt(site, p, rng);
    TreeDevicesAre(site, n, racksPerHall, rng, d);
    DeviceAtHasIdAt(site, p, rng);
    SeededNodesCarryTheirOwn(g, site, region, timezone, capacity, n, racksPerHall, rng, DeviceNode(d.id),
        DeviceProps(TypeName(d.kind), d));
  }

  // ----- the seeded graph, place by place -----

  ghost predicate RackEdge(site: string, h: nat, r: nat, rng: Rng, e: Edge) {
    var rack := Node(RackLabel, RackId(site, h, r));
    || e == Edge(rack, LOCATED_IN, Node(HallLabel, HallId(site, h)))
    || (exists p :: InRack(p, h, r, rng) && e == Edge(DeviceNode(IdAt(site, p)), MOUNTED_IN, rack))
    || WiredAt(site, h, r, rng, e)
  }

  ghost predicate SiteEdge(site: string, n: nat, racksPerHall: nat, rng: Rng, e: Edge) {
    exists h: nat :: h < n && HallEdge(site, h, racksPerHall, rng, e)
  }

  ghost predicate HallEdge(site: string, h: nat, racksPerHall: nat, rng: Rng, e: Edge) {
    || e == Edge(Node(HallLabel, HallId(site, h)), LOCATED_IN, Node(SiteLabel, site))
    || e == Edge(DeviceNode(IdAt(site, AtCrac(h))), COOLS, Node(HallLabel, HallId(site, h)))
    || exists r: nat :: r < racksPerHall && RackEdge(site, h, r, rng, e)
  }

  lemma RackDescribesPlaces(site: string, h: nat, r: nat, racksPerHall: nat, rng: Rng, e: Edge)
    ensures RackDescribes(HallOf(site, h, racksPerHall, rng), RackOf(site, h, r, rng), e)
        <==> RackEdge(site, h, r, rng, e)
  {
    var x, k := HallOf(site, h, racksPerHall, rng), RackOf(site, h, r, rng);
    DeviceAtMeans(site, AtCrac(h), rng);
    assert x.cracs == [DeviceAt(site, AtCrac(h), rng)] && x.id == HallId(site, h) && k.id == RackId(site, h, r);
    forall d ensures d in k.devices <==> exists p :: InRack(p, h, r, rng) && d == DeviceAt(site, p, rng) {
      RackDevicesAre(site, h, r, rng, d);
    }
    hide HallOf, RackOf, HallId, RackId, IdAt, DeviceAt, WiringDescribes;
    RackMountsPlaces(site, h, r, rng, k, e);
    RackWiresPlaces(site, h, r, rng, x, k, e);
  }

  lemma RackMountsPlaces(site: string, h: nat, r: nat, rng: Rng, k: Rack, e: Edge)
    requires forall d :: d in k.devices <==> exists p :: InRack(p, h, r, rng) && d == DeviceAt(site, p, rng)
    ensures (exists d :: d in k.devices && e == Edge(DeviceNode(d.id), MOUNTED_IN, RackNode(k)))
       <==> exists p :: InRack(p, h, r, rng) && e == Edge(DeviceNode(IdAt(site, p)), MOUNTED_IN, RackNode(k))
  {
    hide IdAt, DeviceAt;
    if d :| d in k.devices && e == Edge(DeviceNode(d.id), MOUNTED_IN, RackNode(k)) {
      var p :| InRack(p, h, r, rng) && d == DeviceAt(site, p, rng);
      DeviceAtHasIdAt(site, p, rng);
    }
    if p :| InRack(p, h, r, rng) && e == Edge(DeviceNode(IdAt(site, p)), MOUNTED_IN, RackNode(k)) {
      DeviceAtHasIdAt(site, p, rng);
      assert DeviceAt(site, p, rng) in k.devices;
    }
  }

  /** The wiring of a rack by places. */
  ghost predicate WiredAt(site: string, h: nat, r: nat, rng: Rng, e: Edge) {
    || e == Edge(Node(RackLabel, RackId(site, h, r)), COOLED_BY, DeviceNode(IdAt(site, AtCrac(h))))
    || (exists s :: 0 <= s < 10
                    && e == Edge(DeviceNode(IdAt(site, AtServer(h, r, s))), POWERED_BY,
                        DeviceNode(IdAt(site, AtPdu(h, r, true)))))
    || (exists s :: 0 <= s < 10
                    && e == Edge(DeviceNode(IdAt(site, AtServer(h, r, s))), DEPENDS_ON,
                        DeviceNode(IdAt(site, AtTor(h, r)))))
    || (exists s, g :: 0 <= s < 10 && 0 <= g < |rng(h, r, s).gpus|
                       && e == Edge(DeviceNode(IdAt(site, AtGpu(h, r, s, g))), DEPENDS_ON,
                           DeviceNode(IdAt(site, AtServer(h, r, s)))))
  }

  lemma RackWiresPlaces(site: string, h: nat, r: nat, rng: Rng, x: Hall, k: Rack, e: Edge)
    requires forall d :: d in k.devices <==> exists p :: InRack(p, h, r, rng) && d == DeviceAt(site, p, rng)
    requires |x.cracs| == 1 && x.cracs[0].id == IdAt(site, AtCrac(h)) && k.id == RackId(site, h, r)
    ensures WiringDescribes(x, k, e) <==> WiredAt(site, h, r, rng, e)
  {
    hide IdAt, DeviceAt, RackId;
    if WiringDescribes(x, k, e) { WiringIsAt(site, h, r, rng, x, k, e); }
    if WiredAt(site, h, r, rng, e) { WiredIsDescribed(site, h, r, rng, x, k, e); }
  }

  lemma PlaceOf(site: string, h: nat, r: nat, rng: Rng, k: Rack, d: Device) returns (p: Place)
    requires forall d :: d in k.devices <==> exists p :: InRack(p, h, r, rng) && d == DeviceAt(site, p, rng)
    requires d in k.devices
    ensures InRack(p, h, r, rng) && d == DeviceAt(site, p, rng) && d.id == IdAt(site, p)
    ensures match d.kind
            case Crac => false
            case Switch => p == AtTor(h, r)
            case Pdu => p.AtPdu? && p.h == h && p.r == r
                        && forall id :: id in d.powered
                            <==> p.first && exists s :: 0 <= s < 10 && id == IdAt(site, AtServer(h, r, s))
            case Server => p.AtServer? && p.h == h && p.r == r && p.s < 10
            case Gpu => p.AtGpu? && p.h == h && p.r == r && p.s < 10 && p.g < |rng(h, r, p.s).gpus|
                        && d.parent == IdAt(site, AtServer(h, r, p.s))
  {
    hide IdAt, DeviceAt;
    p :| InRack(p, h, r, rng) && d == DeviceAt(site, p, rng);
    DeviceAtMeans(site, p, rng);
  }

  lemma WiringIsAt(site: string, h: nat, r: nat, rng: Rng, x: Hall, k: Rack, e: Edge)
    requires forall d :: d in k.devices <==> exists p :: InRack(p, h, r, rng) && d == DeviceAt(site, p, rng)
    requires |x.cracs| == 1 && x.cracs[0].id == IdAt(site, AtCrac(h)) && k.id == RackId(site, h, r)
    requires WiringDescribes(x, k, e)
    ensures WiredAt(site, h, r, rng, e)
  {
    hide IdAt, DeviceAt, RackId, InRack;
    if c :| c in x.cracs && e == Edge(RackNode(k), COOLED_BY, DeviceNode(c.id)) {
      assert c == x.cracs[0];
    } else if p, id :|
        p in k.devices && p.kind == Pdu && id in p.powered && e == Edge(DeviceNode(id), POWERED_BY, DeviceNode(p.id)) {
      var at := PlaceOf(site, h, r, rng, k, p);
      assert at == AtPdu(h, r, true);
    } else if s, w :| s in k.devices && s.kind == Server && w in k.devices && w.kind == Switch
                      && e == Edge(DeviceNode(s.id), DEPENDS_ON, DeviceNode(w.id)) {
      var at := PlaceOf(site, h, r, rng, k, s);
      var tor := PlaceOf(site, h, r, rng, k, w);
      assert at == AtServer(h, r, at.s);
    } else if g :|
        g in k.devices && g.kind == Gpu && g.parent != ""
            && e == Edge(DeviceNode(g.id), DEPENDS_ON, DeviceNode(g.parent)) {
      var at := PlaceOf(site, h, r, rng, k, g);
      assert at == AtGpu(h, r, at.s, at.g);
    }
  }

  lemma ServerInRack(site: string, h: nat, r: nat, rng: Rng, k: Rack, s: nat)
    requires forall d :: d in k.devices <==> exists p :: InRack(p, h, r, rng) && d == DeviceAt(site, p, rng)
    requires s < 10
    ensures var d := DeviceAt(site, AtServer(h, r, s), rng);
            d in k.devices && d.kind == Server && d.id == IdAt(site, AtServer(h, r, s))
  {
    hide IdAt, DeviceAt;
    DeviceAtMeans(site, AtServer(h, r, s), rng);
    assert InRack(AtServer(h, r, s), h, r, rng);
  }

  lemma FixturesInRack(site: string, h: nat, r: nat, rng: Rng, k: Rack)
    requires forall d :: d in k.devices <==> exists p :: InRack(p, h, r, rng) && d == DeviceAt(site, p, rng)
    ensures var pdu, tor := DeviceAt(site, AtPdu(h, r, true), rng), DeviceAt(site, AtTor(h, r), rng);
            && pdu in k.devices && pdu.kind == Pdu && pdu.id == IdAt(site, AtPdu(h, r, true))
            && tor in k.devices && tor.kind == Switch && tor.id == IdAt(site, AtTor(h, r))
            && forall s :: 0 <= s < 10 ==> IdAt(site, AtServer(h, r, s)) in pdu.powered
  {
    hide IdAt, DeviceAt;
    DeviceAtMeans(site, AtPdu(h, r, true), rng);
    DeviceAtMeans(site, AtTor(h, r), rng);
    assert InRack(AtPdu(h, r, true), h, r, rng) && InRack(AtTor(h, r), h, r, rng);
  }

  lemma GpuInRack(site: string, h: nat, r: nat, rng: Rng, k: Rack, s: nat, g: nat)
    requires forall d :: d in k.devices <==> exists p :: InRack(p, h, r, rng) && d == DeviceAt(site, p, rng)
    requires s < 10 && g < |rng(h, r, s).gpus|
    ensures var d := DeviceAt(site, AtGpu(h, r, s, g), rng);
            && d in k.devices && d.kind == Gpu && d.id == IdAt(site, AtGpu(h, r, s, g))
            && d.parent == IdAt(site, AtServer(h, r, s)) && d.parent != ""
  {
    hide IdAt, DeviceAt;
    DeviceAtMeans(site, AtGpu(h, r, s, g), rng);
    ServerIdNotEmpty(site, h, r, s);
    assert InRack(AtGpu(h, r, s, g), h, r, rng);
  }

  lemma WiredIsDescribed(site: string, h: nat, r: nat, rng: Rng, x: Hall, k: Rack, e: Edge)
    requires forall d :: d in k.devices <==> exists p :: InRack(p, h, r, rng) && d == DeviceAt(site, p, rng)
    requires |x.cracs| == 1 && x.cracs[0].id == IdAt(site, AtCrac(h)) && k.id == RackId(site, h, r)
    requires WiredAt(site, h, r, rng, e)
    ensures WiringDescribes(x, k, e)
  {
    hide IdAt, DeviceAt, RackId, InRack;
    FixturesInRack(site, h, r, rng, k);
    if s, g :| 0 <= s < 10 && 0 <= g < |rng(h, r, s).gpus|
               && e == Edge(DeviceNode(IdAt(site, AtGpu(h, r, s, g))), DEPENDS_ON,
                   DeviceNode(IdAt(site, AtServer(h, r, s)))) {
      GpuInRack(site, h, r, rng, k, s, g);
    } else if s :| 0 <= s < 10
                   && e == Edge(DeviceNode(IdAt(site, AtServer(h, r, s))), DEPENDS_ON,
                       DeviceNode(IdAt(site, AtTor(h, r)))) {
      ServerInRack(site, h, r, rng, k, s);
    } else if s :| 0 <= s < 10
                   && e == Edge(DeviceNode(IdAt(site, AtServer(h, r, s))), POWERED_BY,
                       DeviceNode(IdAt(site, AtPdu(h, r, true)))) {
      assert IdAt(site, AtServer(h, r, s)) in DeviceAt(site, AtPdu(h, r, true), rng).powered;
    } else {
      assert x.cracs[0] in x.cracs;
    }
  }

  lemma ServerIdNotEmpty(site: string, h: nat, r: nat, s: nat)
    ensures IdAt(site, AtServer(h, r, s)) != ""
  {
    hide RackId;
  }

  lemma HallDescribesPlaces(site: string, h: nat, racksPerHall: nat, rng: Rng, e: Edge)
    ensures HallDescribes(HallOf(site, h, racksPerHall, rng), e) <==> HallEdge(site, h, racksPerHall, rng, e)
  {
    var x := HallOf(site, h, racksPerHall, rng);
    DeviceAtMeans(site, AtCrac(h), rng);
    assert x.cracs == [DeviceAt(site, AtCrac(h), rng)] && x.id == HallId(site, h) && x.siteId == site;
    assert x.racks == RacksOf(site, h, racksPerHall, rng);
    hide HallOf, RackOf, RacksOf, HallId, RackId, IdAt, DeviceAt, RackDescribes, RackEdge;
    if k :| k in x.racks && RackDescribes(x, k, e) {
      RacksAre(site, h, racksPerHall, rng, k);
      var r :| 0 <= r < racksPerHall && k == RackOf(site, h, r, rng);
      RackDescribesPlaces(site, h, r, racksPerHall, rng, e);
    }
    if r: nat :| r < racksPerHall && RackEdge(site, h, r, rng, e) {
      RackDescribesPlaces(site, h, r, racksPerHall, rng, e);
      RacksAre(site, h, racksPerHall, rng, RackOf(site, h, r, rng));
    }
  }

  /** MAIN: seeding a site adds exactly these edges to any graph: each hall in the site, its
      CRAC cooling it; each rack in its hall, cooled by that CRAC; each device mounted in its
      rack; each server powered by PDU A of its rack and depending on its switch; and each
      GPU depending on its server. */
  lemma {:induction false} SeededEdges(g: Graph, site: string, region: string, timezone: string, capacity: real,
                                       n: nat, racksPerHall: nat,
                                       rng: Rng, e: Edge)
    ensures e in Run(g, Plan(site, region, timezone, capacity, HallsOf(site, n, racksPerHall, rng))).edges
       <==> e in g.edges || SiteEdge(site, n, racksPerHall, rng, e)
  {
    hide Plan, Run, HallsOf, HallDescribes, HallEdge, HallOf, Contains;
    var halls := HallsOf(site, n, racksPerHall, rng);
    SeedingIsExactAndIdempotent(g, site, region, timezone, capacity, n, racksPerHall, rng);
    if x :| x in halls && HallDescribes(x, e) {
      HallsAre(site, n, racksPerHall, rng, x);
      var h :| 0 <= h < n && x == HallOf(site, h, racksPerHall, rng);
      HallDescribesPlaces(site, h, racksPerHall, rng, e);
    }
    if h: nat :| h < n && HallEdge(site, h, racksPerHall, rng, e) {
      HallDescribesPlaces(site, h, racksPerHall, rng, e);
      HallsAre(site, n, racksPerHall, rng, HallOf(site, h, racksPerHall, rng));
    }
  }

  /** MAIN: and leaves these properties: region and time zone on the site, the capacity on
      each hall, row and column on each rack, and type, model and vendor on each device. */
  lemma {:induction false} SeededProperties(g: Graph, site: string, region: string, timezone: string, capacity: real,
                                            n: nat,
                                            racksPerHall: nat,
                                            rng: Rng)
    ensures
      (var r := Run(g, Plan(site, region, timezone, capacity, HallsOf(site, n, racksPerHall, rng)));
       && PropsOf(r, Node(SiteLabel, site))
          == PropsOf(g, Node(SiteLabel, site)) + map["region" := Str(region), "timezone" := Str(timezone)]
       && (forall h: nat :: h < n ==>
             PropsOf(r, Node(HallLabel, HallId(site, h)))
             == PropsOf(g, Node(HallLabel, HallId(site, h))) + map["capacity_kw" := Num(capacity)])
       && (forall h: nat, k: nat :: h < n && k < racksPerHall ==>
             PropsOf(r, Node(RackLabel, RackId(site, h, k)))
             == PropsOf(g, Node(RackLabel, RackId(site, h, k))) + map["position" := Pair(k / 5, k % 5)])
       && (forall p :: Exists(p, n, racksPerHall, rng) ==>
             PropsOf(r, Node(DeviceLabel, IdAt(site, p)))
             == PropsOf(g, Node(DeviceLabel, IdAt(site, p))) + DeviceProps(KindName(p), DeviceAt(site, p, rng))))
  {
    hide HallsOf, HallOf, RacksOf, RackOf, HallId, RackId, IdAt, DeviceAt, Plan, Run, PropsOf, TypeName, Carries;
    var halls := HallsOf(site, n, racksPerHall, rng);
    forall node, w | Carries(site, region, timezone, capacity, halls, node, w) {
      SeededNodesCarryTheirOwn(g, site, region, timezone, capacity, n, racksPerHall, rng, node, w);
    }
    SiteCarries(site, region, timezone, capacity, halls);
    forall h: nat | h < n
      ensures Carries(site, region, timezone, capacity, halls, Node(HallLabel, HallId(site, h)),
          map["capacity_kw" := Num(capacity)])
    {
      HallCarriesAt(site, region, timezone, capacity, n, racksPerHall, rng, h);
    }
    forall h: nat, k: nat | h < n && k < racksPerHall
      ensures Carries(site, region, timezone, capacity, halls, Node(RackLabel, RackId(site, h, k)),
          map["position" := Pair(k / 5, k % 5)])
    {
      RackCarriesAt(site, region, timezone, capacity, n, racksPerHall, rng, h, k);
    }
    forall p | Exists(p, n, racksPerHall, rng)
      ensures Carries(site, region, timezone, capacity, halls, Node(DeviceLabel, IdAt(site, p)),
          DeviceProps(KindName(p), DeviceAt(site, p, rng)))
    {
      DeviceCarriesAt(site, region, timezone, capacity, n, racksPerHall, rng, p);
    }
  }

  /** The type that stands in the graph for a device at this place. */
  function KindName(p: Place): (s: string)
  {
    match p
    case AtCrac(_) => "crac"
    case AtTor(_, _) => "switch"
    case AtPdu(_, _, _) => "pdu"
    case AtServer(_, _, _) => "server"
    case AtGpu(_, _, _, _) => "gpu"
  }

  lemma SiteCarries(site: string, region: string, timezone: string, capacity: real, halls: seq<Hall>)
    ensures Carries(site, region, timezone, capacity, halls, Node(SiteLabel, site),
                    map["region" := Str(region), "timezone" := Str(timezone)])
  {
  }

  lemma {:induction false} HallCarriesAt(site: string, region: string, timezone: string, capacity: real, n: nat,
                                         racksPerHall: nat,
                                         rng: Rng, h: nat)
    requires h < n
    ensures Carries(site, region, timezone, capacity, HallsOf(site, n, racksPerHall, rng),
        Node(HallLabel, HallId(site, h)),
                    map["capacity_kw" := Num(capacity)])
  {
    hide HallsOf, RacksOf, HallId;
    var x := HallOf(site, h, racksPerHall, rng);
    HallsAre(site, n, racksPerHall, rng, x);
    assert Node(HallLabel, HallId(site, h)) == HallNode(x);
  }

  lemma {:induction false} RackCarriesAt(site: string, region: string, timezone: string, capacity: real, n: nat,
                                         racksPerHall: nat,
                                         rng: Rng,
                                         h: nat, k: nat)
    requires h < n && k < racksPerHall
    ensures Carries(site, region, timezone, capacity, HallsOf(site, n, racksPerHall, rng),
        Node(RackLabel, RackId(site, h, k)),
                    map["position" := Pair(k / 5, k % 5)])
  {
    hide HallsOf, RacksOf, HallId, RackId, ServersOf, ServerIds;
    var x, rack := HallOf(site, h, racksPerHall, rng), RackOf(site, h, k, rng);
    HallsAre(site, n, racksPerHall, rng, x);
    RacksAre(site, h, racksPerHall, rng, rack);
    assert InHalls(HallsOf(site, n, racksPerHall, rng), rack);
    assert Node(RackLabel, RackId(site, h, k)) == RackNode(rack)
        && RackProps(rack) == map["position" := Pair(k / 5, k % 5)];
  }

  lemma {:induction false} DeviceCarriesAt(site: string, region: string, timezone: string, capacity: real, n: nat,
                                           racksPerHall: nat,
                                           rng: Rng,
                                           p: Place)
    requires Exists(p, n, racksPerHall, rng)
    ensures Carries(site, region, timezone, capacity, HallsOf(site, n, racksPerHall, rng),
        Node(DeviceLabel, IdAt(site, p)),
                    DeviceProps(KindName(p), DeviceAt(site, p, rng)))
  {
    hide HallsOf, DeviceAt, IdAt, InTree;
    var d := DeviceAt(site, p, rng);
    TreeDevicesAre(site, n, racksPerHall, rng, d);
    DeviceAtMeans(site, p, rng);
    assert TypeName(d.kind) == KindName(p);
  }

  /** What a device's properties are. */
  lemma DevicePropsMean(typeName: string, d: Device)
    ensures DeviceProps(typeName, d) == map["type" := Str(typeName), "model" := Str(d.model), "vendor" := Str(d.vendor)]
  {
  }

  // ----- all sites -----

  /** A site and what its generator draws. */
  datatype SiteSpec = SiteSpec(id: string, region: string, timezone: string, halls: nat, racksPerHall: nat, rng: Rng)

  function SitePlan(capacity: real): SiteSpec -> seq<Statement>
  {
    (s: SiteSpec) => Plan(s.id, s.region, s.timezone, capacity, HallsOf(s.id, s.halls, s.racksPerHall, s.rng))
  }

  /** The plans of all sites, applied one after the other, as often as one likes. */
  lemma {:induction false} SeedingAllSites(g: Graph, sites: seq<SiteSpec>, capacity: real)
    ensures
      (var plan := Each(sites, SitePlan(capacity));
       var r := Run(g, plan);
       && Run(r, plan) == r
       && forall e :: e in r.edges <==>
            e in g.edges || exists s :: s in sites && Describes(HallsOf(s.id, s.halls, s.racksPerHall, s.rng), e))
  {
    hide Plan, Run, Describes, HallsOf, Grounded, Created, Mentioned, Each, Writes;
    var plan := Each(sites, SitePlan(capacity));
    forall s: SiteSpec
      ensures Grounded({}, SitePlan(capacity)(s))
      ensures forall e ::
          e in Mentioned(SitePlan(capacity)(s)) <==> Describes(HallsOf(s.id, s.halls, s.racksPerHall, s.rng), e)
    {
      BuiltHallsAreWellFormed(s.id, s.halls, s.racksPerHall, s.rng);
      PlanIsGrounded(s.id, s.region, s.timezone, capacity, HallsOf(s.id, s.halls, s.racksPerHall, s.rng));
      PlanMentions(s.id, s.region, s.timezone, capacity, HallsOf(s.id, s.halls, s.racksPerHall, s.rng));
    }
    EachGrounded({}, sites, SitePlan(capacity));
    EachMentions(sites, SitePlan(capacity));
    GroundedPlanIsIdempotent(g, plan);
    GroundedOnMore({}, g.nodes.Keys, plan);
    RunOfGrounded(g, plan);
  }

  /** A MATCH that finds nothing makes its statement do nothing: for either end of a link, and
      for the target of a new node, which is still created. */
  lemma MissingNodeIsSilent(g: Graph, a: Node, relation: Relation, b: Node, props: Props)
    ensures a !in g.nodes || b !in g.nodes ==> Exec(g, Link(a, relation, b)) == g
    ensures a != b && b !in g.nodes ==> Exec(g, MergeLinked(a, props, relation, b)) == Exec(g, Merge(a, props))
  {
  }

  /** Why the order matters: linking a rack's devices before they are created adds no
      edge to an empty graph, though the plan mentions one. */
  lemma LinkTooEarlyIsLost(a: Node, b: Node, props: Props)
    requires a != b
    ensures (var plan := [Link(a, DEPENDS_ON, b), Merge(a, props), Merge(b, props)];
             !Grounded({}, plan) && Mentioned(plan) == {Edge(a, DEPENDS_ON, b)}
                 && Run(Graph(map[], {}), plan).edges == {})
  {
    var plan := [Link(a, DEPENDS_ON, b), Merge(a, props), Merge(b, props)];
    assert plan[..2] == [plan[0], plan[1]] && plan[..2][..1] == [plan[0]] && [plan[0]][..0] == [];
    PlanSingle(plan[0], {});
    assert Run(Graph(map[], {}), [plan[0]]) == Graph(map[], {});
  }

  // ----- plan_for_site -----

  method PlanForSite(site: string, region: string, timezone: string, capacity: real,
                     halls: seq<Hall>) returns (stmts: seq<Statement>)
    ensures stmts == Plan(site, region, timezone, capacity, halls)
  {
    hide HallPlan, SiteStatement, Each;
    stmts := [SiteStatement(site, region, timezone)];
    EachNone(HallPlan(capacity));
    for i := 0 to |halls|
      invariant stmts == [SiteStatement(site, region, timezone)] + Each(halls[..i], HallPlan(capacity))
    {
      EachStep(halls[..i], halls[i], HallPlan(capacity));
      assert halls[..i + 1] == halls[..i] + [halls[i]];
      var more := StatementsForHall(halls[i], capacity);
      stmts := stmts + more;
    }
    assert halls[..|halls|] == halls;
  }

  method StatementsForHall(hall: Hall, capacity: real) returns (stmts: seq<Statement>)
    ensures stmts == HallPlan(capacity)(hall)
  {
    var cracs := Loop(hall.cracs, CracStatement(hall));
    var racks := RackLoop(hall);
    stmts := [HallStatement(hall, capacity)] + cracs + racks;
  }

  method RackLoop(hall: Hall) returns (stmts: seq<Statement>)
    ensures stmts == Each(hall.racks, RackPlan(hall))
  {
    hide RackPlan, Each;
    stmts := [];
    EachNone(RackPlan(hall));
    for i := 0 to |hall.racks|
      invariant stmts == Each(hall.racks[..i], RackPlan(hall))
    {
      EachStep(hall.racks[..i], hall.racks[i], RackPlan(hall));
      assert hall.racks[..i + 1] == hall.racks[..i] + [hall.racks[i]];
      var more := StatementsForRack(hall, hall.racks[i]);
      stmts := stmts + more;
    }
    assert hall.racks[..|hall.racks|] == hall.racks;
  }

  /** Statements for a rack: its devices are sorted by kind while they are emitted. */
  method StatementsForRack(hall: Hall, rack: Rack) returns (stmts: seq<Statement>)
    ensures stmts == RackPlan(hall)(rack)
  {
    hide RackEdges;
    var nodes, servers, switches, pdus, gpus := DeviceLoop(rack);
    var edges := EdgeStatements(hall, rack, servers, switches, pdus, gpus);
    stmts := [RackStatement(hall, rack)] + nodes + edges;
  }

  method DeviceLoop(rack: Rack)
    returns (nodes: seq<Statement>, servers: seq<Device>, switches: seq<Device>, pdus: seq<Device>, gpus: seq<Device>)
    ensures nodes == Each(rack.devices, DeviceStatement(rack))
    ensures servers == OfKind(rack.devices, Server) && switches == OfKind(rack.devices, Switch)
    ensures pdus == OfKind(rack.devices, Pdu) && gpus == OfKind(rack.devices, Gpu)
  {
    hide DeviceStatement, Each, OfKind;
    nodes, servers, switches, pdus, gpus := [], [], [], [], [];
    EachNone(DeviceStatement(rack));
    for i := 0 to |rack.devices|
      invariant nodes == Each(rack.devices[..i], DeviceStatement(rack))
      invariant servers == OfKind(rack.devices[..i], Server) && switches == OfKind(rack.devices[..i], Switch)
      invariant pdus == OfKind(rack.devices[..i], Pdu) && gpus == OfKind(rack.devices[..i], Gpu)
    {
      var d := rack.devices[i];
      EachStep(rack.devices[..i], d, DeviceStatement(rack));
      OfKindStep(rack.devices[..i], d);
      assert rack.devices[..i + 1] == rack.devices[..i] + [d];
      nodes := nodes + DeviceStatement(rack)(d);
      match d.kind
      case Server => servers := servers + [d];
      case Switch => switches := switches + [d];
      case Pdu => pdus := pdus + [d];
      case Gpu => gpus := gpus + [d];
      case Crac =>
    }
    assert rack.devices[..|rack.devices|] == rack.devices;
  }

  lemma EachNone<T>(f: T -> seq<Statement>)
    ensures Each([], f) == [] && forall kind :: OfKind([], kind) == []
  {
  }

  lemma {:induction false} EachStep<T>(xs: seq<T>, x: T, f: T -> seq<Statement>)
    ensures Each(xs + [x], f) == Each(xs, f) + f(x)
  {
    assert (xs + [x])[..|xs|] == xs;
  }

  lemma {:induction false} OfKindStep(ds: seq<Device>, d: Device)
    ensures forall kind :: OfKind(ds + [d], kind) == OfKind(ds, kind) + if d.kind == kind then [d] else []
  {
    assert (ds + [d])[..|ds|] == ds;
  }

  method EdgeStatements(hall: Hall, rack: Rack, servers: seq<Device>, switches: seq<Device>, pdus: seq<Device>,
                        gpus: seq<Device>)
    returns (stmts: seq<Statement>)
    requires servers == OfKind(rack.devices, Server) && switches == OfKind(rack.devices, Switch)
    requires pdus == OfKind(rack.devices, Pdu) && gpus == OfKind(rack.devices, Gpu)
    ensures stmts == RackEdges(hall, rack)
  {
    hide Each, OfKind;
    var cooled := Loop(hall.cracs, CooledBy(rack));
    var powered := Loop(pdus, PoweredByPdu());
    var switched := Loop(switches, DependOnSwitch(servers));
    var parented := Loop(gpus, DependOnParent());
    stmts := cooled + powered + switched + parented;
  }

  /** `for x in xs: stmts.append(...)`. */
  method Loop<T>(xs: seq<T>, f: T -> seq<Statement>) returns (stmts: seq<Statement>)
    ensures stmts == Each(xs, f)
  {
    stmts := [];
    for i := 0 to |xs|
      invariant stmts == Each(xs[..i], f)
    {
      assert xs[..i + 1][..i] == xs[..i];
      stmts := stmts + f(xs[i]);
    }
    assert xs[..|xs|] == xs;
  }
}
