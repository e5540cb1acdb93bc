/** A network of routers that run a distance-vector protocol: configuration, states, and what the
    deliveries of an update cycle and many cycles in a row achieve. RIP and EIGRP share it.
 */
module RoutedNetwork {
  import opened Addressing
  import opened DistanceVector
  import opened RoutingTable
  import opened Routers
  import opened Topology

  // ---------------------------------------------------------------- configuration

  /** What an update cycle reads of a router and does not change. */
  datatype RouterConfig = RouterConfig(
    addresses: map<PortId, IPAddress>,
    masks: map<PortId, Mask>,
    policies: map<PortId, IfacePolicy>,
    ripEnabled: bool,
    ripNeighbors: map<PortId, IPAddress>,
    eigrpEnabled: bool)

  datatype Config = Config(links: seq<TopologyLink>, routers: map<RouterId, RouterConfig>)

  function ConnectedTo(r: RouterConfig): set<Cidr> {
    ConnectedOf(r.addresses, r.masks)
  }

  ghost function Connections(c: Config): map<RouterId, set<Cidr>> {
    map a | a in c.routers :: ConnectedTo(c.routers[a])
  }

  function SourceAddress(c: Config, at: End): IPAddress {
    if at.node in c.routers then Lookup(c.routers[at.node].addresses, at.port) else UNSET
  }

  /** The address configured at this end, or the unset one. */
  ghost predicate HasAddress(c: Config, at: End, ip: IPAddress) {
    if at.node in c.routers && at.port in c.routers[at.node].addresses
    then ip == c.routers[at.node].addresses[at.port]
    else ip == Text("")
  }

  /** Every learned route goes to the address of the port at the far end of the cable that it came in by. */
  ghost predicate HopsAreFarEnds(c: Config, db: Db) {
    forall a, n :: a in db && n in db[a] ==> HopIsFarEnd(c, a, db[a][n])
  }

  ghost predicate HopIsFarEnd(c: Config, a: RouterId, rt: Route) {
    exists far :: Peer(c.links, End(a, rt.iface)) == Some(far) && HasAddress(c, far, rt.nextHop)
  }

  /** So does every row of the protocol in a forwarding table that agrees with its database. */
  lemma RowsGoToFarEnds(c: Config, db: Db, rows: Rows, proto: RouteProtocol, a: RouterId, e: RouteEntry)
    requires HopsAreFarEnds(c, db) && AllAgree(rows, db, proto)
    requires a in rows && a in db && e in rows[a] && e.proto == proto
    ensures exists far :: Peer(c.links, End(a, e.iface)) == Some(far) && HasAddress(c, far, e.nextHop)
  {
    assert Mirrors(e, Print(e.network), db[a][Print(e.network)], proto);
    assert HopIsFarEnd(c, a, db[a][Print(e.network)]);
  }

  /** The networks that a router advertises as its own: for each interface with an address the block
      around it, at the length of the mask, or "/24" without one. */
  lemma ConnectedMeaning(r: RouterConfig, p: PortId, addr: nat)
    requires p in r.addresses && r.addresses[p] == V4(addr) && addr < IPV4_SPACE
    requires p in r.masks && r.masks[p].Ones? ==> r.masks[p].ones <= 32
    ensures exists n :: n in ConnectedTo(r) && n.Block? &&
              if p !in r.masks || r.masks[p].Missing? then n.ones == 24 && InBlock(IPNet(n.addr, 24), addr) && Canonical(n)
              else if r.masks[p].Ones? then n.ones == r.masks[p].ones && InBlock(IPNet(n.addr, n.ones), addr) && Canonical(n)
              else n == Block(addr, 24)
    ensures forall n :: n in ConnectedTo(r) ==> exists q :: q in r.addresses && n == PortCidr(r.addresses, r.masks, q)
  {
    var n := PortCidr(r.addresses, r.masks, p);
    assert n in ConnectedTo(r);
    InterfaceNetwork(addr, MaskOrDefault(if p in r.masks then r.masks[p] else Missing));
  }

  // ---------------------------------------------------------------- states and traces

  ghost predicate ValidState(ids: set<RouterId>, db: Db, rows: Rows) {
    && db.Keys == rows.Keys == ids
    && forall a :: a in db ==> Keyed(db[a])
  }

  /** The state is what the deliveries of a legal trace made of the rows `initial`. */
  ghost predicate TracedState(p: Protocol, proto: RouteProtocol, net: Net, db: Db, rows: Rows, initial: Rows, tr: Trace) {
    Legal(p, net, tr) && db == After(p, tr) && rows == RowsAfter(p, proto, initial, tr)
  }

  /** What a router has to advertise now was advertised on the trace. */
  lemma JustAdvertised(p: Protocol, proto: RouteProtocol, net: Net, db: Db, rows: Rows, initial: Rows, tr: Trace, id: RouterId, update: seq<Entry>)
    requires TracedState(p, proto, net, db, rows, initial, tr) && id in net.connected && id in db
    requires IsAdvertisement(p, net.connected[id], db[id], update)
    ensures WasAdvertised(p, net, tr, id, update)
  {}

  function Delivered(p: Protocol, db: Db, f: Feed, wire: seq<Entry>, now: int): Db
    requires f.receiver in db
  {
    db[f.receiver := Learn(p, db[f.receiver], wire, f.addr, f.port, now)]
  }

  function Installed(p: Protocol, proto: RouteProtocol, db: Db, rows: Rows, f: Feed, wire: seq<Entry>, now: int): Rows
    requires f.receiver in db && f.receiver in rows
  {
    rows[f.receiver := Install(rows[f.receiver], Learned(p, db[f.receiver], wire, f.addr, f.port, now), proto)]
  }

  lemma DeliveryKeepsValid(p: Protocol, proto: RouteProtocol, ids: set<RouterId>, db: Db, rows: Rows, f: Feed, wire: seq<Entry>, now: int)
    requires ValidState(ids, db, rows) && f.receiver in ids
    ensures ValidState(ids, Delivered(p, db, f, wire, now), Installed(p, proto, db, rows, f, wire, now))
  {
    LearnKeepsKeyed(p, db[f.receiver], wire, f.addr, f.port, now);
  }

  /** Delivering over a feed something that the sender advertised goes on with the trace. */
  lemma DeliveryGrowsTrace(
      p: Protocol, proto: RouteProtocol, net: Net, db: Db, rows: Rows, initial: Rows, tr: Trace, f: Feed, update: seq<Entry>, now: int)
    requires TracedState(p, proto, net, db, rows, initial, tr) && f.receiver in db && f.receiver in rows
    requires f in net.feeds && WasAdvertised(p, net, tr, f.sender, update)
    ensures var wire := OnWire(p, update);
            TracedState(p, proto, net, Delivered(p, db, f, wire, now), Installed(p, proto, db, rows, f, wire, now), initial, Then(tr, f, update, now))
  {}

  /** Empty databases are sound: the induction over deliveries starts here. */
  lemma StartsSound(p: Protocol, net: Net, db: Db)
    requires WellFormed(net, db) && forall a :: a in db ==> db[a] == map[]
    ensures Sound(p, net, db)
  {}

  // ---------------------------------------------------------------- forwarding tables

  /** Forwarding table and database of every router say the same. */
  ghost predicate AllAgree(rows: Rows, db: Db, proto: RouteProtocol) {
    forall a :: a in rows && a in db ==> TableOk(rows[a]) && Agrees(rows[a], db[a], proto)
  }

  /** Whole network: over any legal trace the protocol's rows of every router stay its routes. */
  lemma {:induction false} TraceKeepsAgreement(p: Protocol, proto: RouteProtocol, net: Net, rows: Rows, tr: Trace)
    requires Sane(p) && Sound(p, net, Origin(tr)) && Legal(p, net, tr) && CanonicalNets(net)
    requires AllAgree(rows, Origin(tr), proto)
    ensures AllAgree(RowsAfter(p, proto, rows, tr), After(p, tr), proto)
  {
    if tr.Then? {
      TraceKeepsAgreement(p, proto, net, rows, tr.past);
      LegalIsSound(p, net, tr);
      var a, before, db := tr.f.receiver, RowsAfter(p, proto, rows, tr.past), After(p, tr.past);
      if a in before {
        var wire := OnWire(p, tr.entries);
        ReceiverAgrees(p, proto, net, After(p, tr), a, before[a], db[a], wire, tr.f.addr, tr.f.port, tr.now);
        OthersStillAgree(before, db, proto, a, Install(before[a], Learned(p, db[a], wire, tr.f.addr, tr.f.port, tr.now), proto), After(p, tr)[a]);
      }
    }
  }

  lemma OthersStillAgree(rows: Rows, db: Db, proto: RouteProtocol, a: RouterId, table: seq<RouteEntry>, t: Table)
    requires AllAgree(rows, db, proto) && TableOk(table) && Agrees(table, t, proto)
    ensures AllAgree(rows[a := table], db[a := t], proto)
  {}

  lemma ReceiverAgrees(
      p: Protocol, proto: RouteProtocol, net: Net, db: Db, a: RouterId, rows: seq<RouteEntry>, t: Table,
      wire: seq<Entry>, sender: IPAddress, port: PortId, now: int)
    requires Sound(p, net, db) && CanonicalNets(net) && a in db
    requires db[a] == Learn(p, t, wire, sender, port, now) && TableOk(rows) && Agrees(rows, t, proto)
    ensures TableOk(Install(rows, Learned(p, t, wire, sender, port, now), proto))
    ensures Agrees(Install(rows, Learned(p, t, wire, sender, port, now), proto), db[a], proto)
  {
    forall n | n in db[a] ensures Canonical(n) {
      SoundTablesAreCanonical(p, net, db, a, n);
    }
    UpdateKeepsAgreement(p, proto, rows, t, wire, sender, port, now);
  }

  // ---------------------------------------------------------------- cycles in a row

  /** Every router at most `k` feeds from a network, and within the metric limit, holds it at the
      metric of its true distance. */
  ghost predicate KnowsAll(p: Protocol, net: Net, db: Db, k: nat) {
    forall r, n, j: nat :: Shortest(net, r, n, j) && j <= k && InRange(p, MetricOf(p, j)) ==>
                             r in db && n in db[r] && db[r][n].metric == MetricOf(p, j)
  }

  /** The databases after each of `k` cycles, the present ones last. */
  ghost predicate Reached(p: Protocol, net: Net, run: seq<Db>, db: Db, k: nat) {
    |run| == k + 1 && run[k] == db && Sound(p, net, db) && Cycles(p, net, run)
  }

  lemma CyclesGrow(p: Protocol, net: Net, run: seq<Db>, db: Db, next: Db, k: nat)
    requires Reached(p, net, run, db, k) && Cycled(p, net, db, next) && Sound(p, net, next)
    ensures Reached(p, net, run + [next], next, k + 1)
  {
    var longer := run + [next];
    forall i | 0 <= i < |longer| - 1 ensures Cycled(p, net, longer[i], longer[i + 1]) {
      if i < k {
        assert Cycled(p, net, run[i], run[i + 1]);
      }
    }
  }

  lemma KnowsShortest(p: Protocol, net: Net, run: seq<Db>, db: Db, k: nat)
    requires Reached(p, net, run, db, k)
    ensures KnowsAll(p, net, db, k)
  {
    forall r, n, j: nat | Shortest(net, r, n, j) && j <= k && InRange(p, MetricOf(p, j))
      ensures r in db && n in db[r] && db[r][n].metric == MetricOf(p, j)
    {
      Convergence(p, net, run, k, r, n, j);
    }
  }

  // ---------------------------------------------------------------- how many cycles suffice

  /** A walk contains a shortest one. */
  lemma ShortestExists(net: Net, r: RouterId, n: Cidr, j: nat) returns (i: nat)
    requires j >= 1 && Walk(net, r, n, j)
    ensures 1 <= i <= j && Shortest(net, r, n, i)
  {
    i := 1;
    while !Walk(net, r, n, i)
      invariant 1 <= i <= j && forall k: nat :: 1 <= k < i ==> !Walk(net, r, n, k)
      decreases j - i
    {
      i := i + 1;
    }
  }

  /** Routers at every distance up to that of `r`: as many as the distance, all different. */
  lemma {:induction false} OneRouterPerDistance(net: Net, ids: set<RouterId>, r: RouterId, n: Cidr, j: nat) returns (at: set<RouterId>)
    requires Shortest(net, r, n, j) && forall f :: f in net.feeds ==> f.receiver in ids
    ensures |at| == j && at <= ids
    ensures forall q :: q in at ==> exists i: nat :: i <= j && Shortest(net, q, n, i)
    decreases j
  {
    var f :| f in net.feeds && f.receiver == r && Walk(net, f.sender, n, j - 1);
    if j == 1 {
      at := {r};
    } else {
      forall i: nat | 1 <= i < j - 1 ensures !Walk(net, f.sender, n, i) {
        if Walk(net, f.sender, n, i) {
          WalkExtends(net, f, n, i);
        }
      }
      var before := OneRouterPerDistance(net, ids, f.sender, n, j - 1);
      assert r !in before;
      at := before + {r};
    }
  }

  /** No shortest chain is longer than there are routers. */
  lemma RoutersBoundDistance(net: Net, ids: set<RouterId>, r: RouterId, n: Cidr, j: nat)
    requires Shortest(net, r, n, j) && forall f :: f in net.feeds ==> f.receiver in ids
    ensures j <= |ids|
  {
    var at := OneRouterPerDistance(net, ids, r, n, j);
    assert ids == at + (ids - at);
  }

  /** As many cycles as there are routers converge the network, whatever the protocol's limit. */
  lemma ConvergedAfterRouters(p: Protocol, net: Net, run: seq<Db>, db: Db, k: nat)
    requires Reached(p, net, run, db, k) && k >= |db|
    ensures Converged(p, net, db)
  {
    forall r, n, j: nat | j >= 1 && Walk(net, r, n, j) && InRange(p, MetricOf(p, j)) ensures Holds(db, r, n, MetricOf(p, j)) {
      var i := ShortestExists(net, r, n, j);
      RoutersBoundDistance(net, db.Keys, r, n, i);
      MetricMonotone(p, i, j);
      UpperBound(p, net, run, k, r, n, i);
    }
  }
}
