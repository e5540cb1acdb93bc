/** The manager's import, export and link bookkeeping, proved against the contents of Snapshots. */
module SnapshotManager {
  import opened Addressing
  import opened Listings
  import opened RouterProcesses
  import opened RoutingTable
  import opened RoundTrips
  import opened Topology
  import opened Snapshots
  import Switching

  function Connected(t: seq<RouteEntry>, port: PortId, i: Iface): seq<RouteEntry> {
    Apply(t, AddRoute(IpToCidr(i.ip, i.mask), UNSET, port, 0, FromConnected))
  }

  /** AddInterface: the address is set and its network becomes a connected route. */
  function Plugged(r: RouterState, port: PortId, i: Iface): RouterState {
    r.(interfaces := r.interfaces[port := i], table := Connected(r.table, port, i))
  }

  lemma PluggedMeaning(r: RouterState, port: PortId, i: Iface)
    ensures ViewOf(Plugged(r, port, i)) == ViewOf(r).(interfaces := r.interfaces[port := i])
    ensures TableOk(r.table) ==> TableOk(Plugged(r, port, i).table)
  {
    var cidr := IpToCidr(i.ip, i.mask);
    if TableOk(r.table) {
      ApplyKeepsTableOk(r.table, AddRoute(cidr, UNSET, port, 0, FromConnected));
    }
    if ParseCidr(cidr).Some? {
      StaticsOfInsert(r.table, RouteEntry(ParseCidr(cidr).value, UNSET, port, 0, FromConnected, AdminDistance(FromConnected)));
    }
  }

  /** The connected row: the block of the address under its mask, without a next hop, at metric and
      distance 0; rows of other networks and protocols stay. */
  lemma ConnectedRow(t: seq<RouteEntry>, port: PortId, i: Iface) returns (e: RouteEntry)
    requires TableOk(t) && i.ip.V4? && i.ip.addr < IPV4_SPACE && i.mask.Ones? && i.mask.ones <= 32
    ensures e in Connected(t, port, i) && e.network.ones == i.mask.ones && InBlock(e.network, i.ip.addr)
    ensures e.nextHop == UNSET && e.iface == port && e.metric == 0 && e.proto == FromConnected && e.adminDist == 0
    ensures forall x :: x in t && (x.proto != FromConnected || x.network != e.network) ==> x in Connected(t, port, i)
  {
    var cidr := IpToCidr(i.ip, i.mask);
    InterfaceNetwork(i.ip.addr, i.mask);
    var k := ParsedBlock(cidr);
    e := RouteEntry(ParseCidr(cidr).value, UNSET, port, 0, FromConnected, AdminDistance(FromConnected));
    InsertRows(t, e);
  }

  /** The processes of a snapshot, started on these interfaces in the order of RestoreRouter. */
  method StartProcesses(rs: RouterSnapshot, ifaces: Ifaces) returns (s: Settings, ghost ids: RouterIds)
    ensures s == Started(RestoredStatements(rs), ifaces, ids) && PicksFor(RestoredStatements(rs), ifaces, ids)
  {
    s, ids := Settings(None, None, None, None), NO_IDS;
    if rs.ospfEnabled {
      var id := PickRouterID(ifaces);
      var ospf := ConfigureOspfNetworks(Ospf(id, rs.ospfProcessID, [], map[]), ifaces, rs.ospfNetworks);
      assert [] + rs.ospfNetworks == rs.ospfNetworks && map[] + EnabledInterfaces(ifaces, rs.ospfNetworks) == EnabledInterfaces(ifaces, rs.ospfNetworks);
      s, ids := s.(ospf := Some(ospf)), ids.(ospf := id);
    }
    if rs.ripEnabled {
      var id := PickRouterID(ifaces);
      s, ids := s.(rip := Some(Rip(id, rs.ripNetworks, map[]))), ids.(rip := id);
    }
    if rs.eigrpEnabled {
      var id := PickRouterID(ifaces);
      s, ids := s.(eigrp := Some(Eigrp(id, rs.eigrpAS, rs.eigrpNetworks))), ids.(eigrp := id);
    }
    if rs.bgpEnabled {
      var id := PickRouterID(ifaces);
      s, ids := s.(bgp := Some(Bgp(id, rs.bgpLocalAS))), ids.(bgp := id);
    }
  }

  method RestoreRouter(rs: RouterSnapshot) returns (r: RouterState, ghost ids: RouterIds)
    ensures ViewOf(r) == RestoredRouter(rs, ids) && TableOk(r.table)
    ensures PicksFor(RestoredStatements(rs), RestoredIfaces(rs), ids)
  {
    r := RestoreInterfaces(rs);
    var table := RestoreStatics(rs.staticRoutes, r.table);
    var settings;
    settings, ids := StartProcesses(rs, r.interfaces);
    r := r.(table := table, settings := settings);
  }

  const NO_PROCESS := Settings(None, None, None, None)

  method RestoreInterfaces(rs: RouterSnapshot) returns (r: RouterState)
    ensures r == RouterState(RestoredIfaces(rs), r.table, NO_PROCESS, map[], AsNew) && Statics(r.table) == [] && TableOk(r.table)
  {
    r := RouterState(map[], [], NO_PROCESS, map[], AsNew);
    for i := 0 to |rs.interfaces|
      invariant r == RouterState(FromList(rs.interfaces[..i], PortOf, IfaceOf), r.table, NO_PROCESS, map[], AsNew)
      invariant Statics(r.table) == [] && TableOk(r.table)
    {
      assert rs.interfaces[..i + 1][..i] == rs.interfaces[..i];
      PluggedMeaning(r, rs.interfaces[i].port, IfaceOf(rs.interfaces[i]));
      r := Plugged(r, rs.interfaces[i].port, IfaceOf(rs.interfaces[i]));
    }
    assert rs.interfaces[..|rs.interfaces|] == rs.interfaces;
  }

  function RowAdded(t: seq<RouteEntry>, s: StaticRouteSnap): seq<RouteEntry> {
    Apply(t, AddRoute(s.cidr, s.nextHop, s.iface, s.metric, FromStatic))
  }

  lemma RowAddedMeaning(t: seq<RouteEntry>, routes: seq<StaticRouteSnap>)
    requires routes != [] && TableOk(t) && Statics(t) == RestoredStatics(routes[..|routes| - 1])
    ensures var t' := RowAdded(t, routes[|routes| - 1]); TableOk(t') && Statics(t') == RestoredStatics(routes)
  {
    var s := routes[|routes| - 1];
    ApplyKeepsTableOk(t, AddRoute(s.cidr, s.nextHop, s.iface, s.metric, FromStatic));
    if ParseCidr(s.cidr).Some? {
      StaticsOfInsert(t, StaticRow(ParseCidr(s.cidr).value, s));
    }
  }

  method RestoreStatics(routes: seq<StaticRouteSnap>, table: seq<RouteEntry>) returns (t: seq<RouteEntry>)
    requires Statics(table) == [] && TableOk(table)
    ensures Statics(t) == RestoredStatics(routes) && TableOk(t)
  {
    t := table;
    for i := 0 to |routes|
      invariant Statics(t) == RestoredStatics(routes[..i]) && TableOk(t)
    {
      assert routes[..i + 1][..i] == routes[..i];
      RowAddedMeaning(t, routes[..i + 1]);
      t := RowAdded(t, routes[i]);
    }
    assert routes[..|routes|] == routes;
  }

  lemma {:induction false} StaticsSnoc(t: seq<RouteEntry>, e: RouteEntry)
    ensures Statics(t + [e]) == Statics(t) + if e.proto == FromStatic then [e] else []
  {
    if t == [] {
      StaticsOfCons(e, []);
    } else {
      StaticsSnoc(t[1..], e);
      assert t + [e] == [t[0]] + (t[1..] + [e]);
      StaticsOfCons(t[0], t[1..] + [e]);
    }
  }

  /** Router.Snapshot; the interfaces come in map order. */
  method SnapshotRouter(id: Id, r: RouterState) returns (rs: RouterSnapshot)
    ensures rs.id == id && ExportsRouter(ViewOf(r), rs)
  {
    var interfaces := ListInterfaces(r.interfaces);
    var routes := [];
    for i := 0 to |r.table|
      invariant |routes| == |Statics(r.table[..i])|
      invariant forall k :: 0 <= k < |routes| ==> routes[k] == SnapOf(Statics(r.table[..i])[k])
    {
      assert r.table[..i + 1] == r.table[..i] + [r.table[i]];
      StaticsSnoc(r.table[..i], r.table[i]);
      if r.table[i].proto == FromStatic {
        routes := routes + [SnapOf(r.table[i])];
      }
    }
    assert r.table[..|r.table|] == r.table;
    rs := StatementsInto(Stated(r.settings), RouterSnapshot(id, interfaces, routes, false, 0, [], false, [], false, 0, [], false, 0));
  }

  method ListInterfaces(ifaces: Ifaces) returns (list: seq<IfaceSnapshot>)
    ensures Lists(list, PortOf, ifaces.Keys)
    ensures forall i :: i in list ==> i.port in ifaces && IfaceOf(i) == ifaces[i.port]
  {
    list := [];
    var todo := ifaces.Keys;
    while todo != {}
      invariant todo <= ifaces.Keys && Lists(list, PortOf, ifaces.Keys - todo)
      invariant forall i :: i in list ==> i.port in ifaces && IfaceOf(i) == ifaces[i.port]
      decreases todo
    {
      var port :| port in todo;
      var snap := IfaceSnapshot(port, ifaces[port].ip, ifaces[port].mask, ifaces[port].mac);
      ListsSnoc(list, PortOf, ifaces.Keys - todo, snap);
      assert ifaces.Keys - (todo - {port}) == ifaces.Keys - todo + {port};
      list := list + [snap];
      todo := todo - {port};
    }
    assert ifaces.Keys - {} == ifaces.Keys;
  }

  function Views(rs: map<Id, RouterState>): map<Id, Router> {
    map r | r in rs :: ViewOf(rs[r])
  }

  ghost predicate TablesOk(rs: map<Id, RouterState>) {
    forall r :: r in rs ==> TableOk(rs[r].table)
  }

  ghost predicate VlansFit(ss: map<Id, SwitchState>) {
    forall s, v :: s in ss && v in ss[s].vlans ==> 0 <= v < VLAN_SPACE
  }

  /** A manager whose tables are well formed and whose VLAN numbers have 16 bits is sound. */
  lemma ManagerIsSound(rs: map<Id, RouterState>, ss: map<Id, SwitchState>, hs: map<Id, Host>, links: seq<TopologyLink>)
    requires TablesOk(rs) && VlansFit(ss)
    ensures Sound(Content(Views(rs), ss, hs, links))
  {
    forall r | r in rs ensures SoundRows(Views(rs)[r].statics) {
      TableOkIsSound(rs[r].table);
    }
  }

  function AssignedAt(rs: map<Id, Router>, at: End, index: nat, first: bool): map<Id, Router>
    requires at.node in rs
  {
    rs[at.node := rs[at.node].(interfaces := Assign(rs[at.node].interfaces, at.port, index, first))]
  }

  function RegisteredAt(ss: map<Id, SwitchState>, at: End): map<Id, SwitchState> {
    if at.node in ss then ss[at.node := WithPorts(ss[at.node], {at.port})] else ss
  }

  function UplinkedAt(hs: map<Id, Host>, node: Id, far: Id): map<Id, Host> {
    if node in hs then hs[node := hs[node].(uplink := far)] else hs
  }

  lemma AssignedAlready(rs: map<Id, RouterState>, at: End, index: nat, first: bool)
    requires at.node in rs && at.port in rs[at.node].interfaces
    ensures Views(rs) == AssignedAt(Views(rs), at, index, first)
  {
    var v := Views(rs)[at.node];
    assert v.(interfaces := Assign(v.interfaces, at.port, index, first)) == v;
  }

  lemma PluggedView(rs: map<Id, RouterState>, at: End, index: nat, first: bool)
    requires at.node in rs && at.port !in rs[at.node].interfaces
    ensures Views(rs[at.node := Plugged(rs[at.node], at.port, LinkIface(index, first))]) == AssignedAt(Views(rs), at, index, first)
  {
    PluggedMeaning(rs[at.node], at.port, LinkIface(index, first));
  }

  function PortAt(at: End, node: Id): set<PortId> {
    if at.node == node then {at.port} else {}
  }

  lemma RegisteredOnce(ss: map<Id, SwitchState>, at: End, s: Id)
    requires s in ss
    ensures s in RegisteredAt(ss, at) && RegisteredAt(ss, at)[s] == WithPorts(ss[s], PortAt(at, s))
  {
    WithPortsChangesIff(ss[s], {});
  }

  lemma OneLinkOnSwitches(ss: map<Id, SwitchState>, l: TopologyLink)
    ensures RegisteredAt(RegisteredAt(ss, l.source), l.target) == LinkedSwitches(ss, [l])
  {
    var mid := RegisteredAt(ss, l.source);
    forall s | s in ss ensures RegisteredAt(mid, l.target)[s] == WithPorts(ss[s], EndsOf([l], s)) {
      RegisteredOnce(ss, l.source, s);
      RegisteredOnce(mid, l.target, s);
      WithPortsTwice(ss[s], PortAt(l.source, s), PortAt(l.target, s));
      EndsOfOne(l, s);
    }
  }

  lemma EndsOfOne(l: TopologyLink, node: Id)
    ensures EndsOf([l], node)
            == PortAt(l.source, node) + PortAt(l.target, node)
  {
    assert [l][..0] == [] && EndsOf([], node) == {};
  }

  lemma AddressedIs(rs: map<Id, Router>, l: TopologyLink, index: nat)
    requires l.source.node in rs && l.target.node in rs
    ensures AssignedAt(AssignedAt(rs, l.source, index, true), l.target, index, false) == Addressed(rs, l, index)
  {}

  lemma LinkedRoutersAre(rs: map<Id, Router>, l: TopologyLink, index: nat)
    requires l.source.node in rs && l.target.node in rs
    ensures AllIntroduced(AssignedAt(AssignedAt(rs, l.source, index, true), l.target, index, false), l) == LinkedRouters(rs, l, index)
  {
    AddressedIs(rs, l, index);
  }

  lemma UnlinkedStay(rs: map<Id, Router>, l: TopologyLink, index: nat)
    requires l.source.node !in rs || l.target.node !in rs
    ensures LinkedRouters(rs, l, index) == rs
  {
    var after := LinkedRouters(rs, l, index);
    forall r | r in rs ensures after[r] == rs[r] {
      assert WithRipPeers(rs[r].settings, RipPeers(rs[r].settings)) == rs[r].settings;
    }
  }

  function NeighborSet(rs: map<Id, Router>, at: End, n: PortNeighbor): map<Id, Router>
    requires at.node in rs
  {
    rs[at.node := rs[at.node].(neighbors := rs[at.node].neighbors[at.port := n])]
  }

  function RipAdded(rs: map<Id, Router>, at: End, ip: IPAddress): map<Id, Router>
    requires at.node in rs
  {
    if ip == UNSET then rs
    else rs[at.node := rs[at.node].(settings := WithRipPeers(rs[at.node].settings, RipPeers(rs[at.node].settings)[at.port := ip]))]
  }

  // The same for one router.

  function SetAt(r: Router, name: Id, at: End, n: PortNeighbor): Router {
    if at.node == name then r.(neighbors := r.neighbors[at.port := n]) else r
  }

  function RipAddedAt(r: Router, name: Id, at: End, ip: IPAddress): Router {
    if at.node == name && ip != UNSET then r.(settings := WithRipPeers(r.settings, RipPeers(r.settings)[at.port := ip])) else r
  }

  lemma IntroducedOne(r: Router, name: Id, l: TopologyLink, at: map<Id, Ifaces>)
    requires l.source.node in at && l.target.node in at
    ensures var src, dst := NeighborAt(at, l.source), NeighborAt(at, l.target);
            RipAddedAt(RipAddedAt(SetAt(SetAt(r, name, l.source, dst), name, l.target, src), name, l.source, dst.remoteIP), name, l.target, src.remoteIP)
            == Introduced(r, l, at, name)
  {
    assert WithRipPeers(r.settings, RipPeers(r.settings)) == r.settings;
  }

  function AllIntroduced(all: map<Id, Router>, l: TopologyLink): map<Id, Router> {
    map r | r in all :: Introduced(all[r], l, IfacesOf(all), r)
  }

  lemma NeighborSetAt(rs: map<Id, Router>, at: End, n: PortNeighbor)
    requires at.node in rs
    ensures NeighborSet(rs, at, n).Keys == rs.Keys && forall r :: r in rs ==> NeighborSet(rs, at, n)[r] == SetAt(rs[r], r, at, n)
  {}

  lemma RipAddedTo(rs: map<Id, Router>, at: End, ip: IPAddress)
    requires at.node in rs
    ensures RipAdded(rs, at, ip).Keys == rs.Keys && forall r :: r in rs ==> RipAdded(rs, at, ip)[r] == RipAddedAt(rs[r], r, at, ip)
  {}

  lemma SameRouters(a: map<Id, Router>, b: map<Id, Router>)
    requires a.Keys == b.Keys && forall r :: r in a ==> a[r] == b[r]
    ensures a == b
  {}

  /** Recording the neighbours of both ports, then of both RIP processes, is what the link does. */
  lemma IntroducedIs(all: map<Id, Router>, l: TopologyLink, src: PortNeighbor, dst: PortNeighbor)
    requires l.source.node in all && l.target.node in all
    requires src == NeighborAt(IfacesOf(all), l.source) && dst == NeighborAt(IfacesOf(all), l.target)
    ensures var met := NeighborSet(NeighborSet(all, l.source, dst), l.target, src);
            RipAdded(RipAdded(met, l.source, dst.remoteIP), l.target, src.remoteIP) == AllIntroduced(all, l)
  {
    var m1 := NeighborSet(all, l.source, dst);
    NeighborSetAt(all, l.source, dst);
    var m2 := NeighborSet(m1, l.target, src);
    NeighborSetAt(m1, l.target, src);
    var m3 := RipAdded(m2, l.source, dst.remoteIP);
    RipAddedTo(m2, l.source, dst.remoteIP);
    var m4 := RipAdded(m3, l.target, src.remoteIP);
    RipAddedTo(m3, l.target, src.remoteIP);
    FourSteps(all, m1, m2, m3, m4, l, src, dst);
  }

  lemma FourSteps(all: map<Id, Router>, m1: map<Id, Router>, m2: map<Id, Router>, m3: map<Id, Router>, m4: map<Id, Router>,
                  l: TopologyLink, src: PortNeighbor, dst: PortNeighbor)
    requires l.source.node in all && l.target.node in all
    requires src == NeighborAt(IfacesOf(all), l.source) && dst == NeighborAt(IfacesOf(all), l.target)
    requires m1.Keys == m2.Keys == m3.Keys == m4.Keys == all.Keys
    requires forall r :: r in all ==> m1[r] == SetAt(all[r], r, l.source, dst) && m2[r] == SetAt(m1[r], r, l.target, src)
    requires forall r :: r in all ==> m3[r] == RipAddedAt(m2[r], r, l.source, dst.remoteIP)
    requires forall r :: r in all ==> m4[r] == RipAddedAt(m3[r], r, l.target, src.remoteIP)
    ensures m4 == AllIntroduced(all, l)
  {
    forall r | r in all ensures m4[r] == Introduced(all[r], l, IfacesOf(all), r) {
      IntroducedOne(all[r], r, l, IfacesOf(all));
    }
  }

  lemma OneLinkOnHosts(hs: map<Id, Host>, l: TopologyLink)
    ensures UplinkedAt(UplinkedAt(hs, l.source.node, l.target.node), l.target.node, l.source.node) == LinkedHosts(hs, [l])
  {
    var h2 := UplinkedAt(UplinkedAt(hs, l.source.node, l.target.node), l.target.node, l.source.node);
    forall h | h in hs ensures h2[h] == LinkedHosts(hs, [l])[h] {
      assert [l][..0] == [] && Uplink([], h, hs[h].uplink) == hs[h].uplink;
    }
  }

  /** Snapshots made in the order of a list of names list those names. */
  lemma ListsByName<T>(ids: seq<Id>, snaps: seq<T>, name: T -> Id, keys: set<Id>)
    requires Lists(ids, Itself, keys) && |snaps| == |ids| && forall k :: 0 <= k < |ids| ==> name(snaps[k]) == ids[k]
    ensures Lists(snaps, name, keys)
  {
    forall k | 0 <= k < |ids| ensures name(snaps[k]) in keys {
      assert Itself(ids[k]) in keys;
    }
    forall x | x in keys ensures exists i :: 0 <= i < |snaps| && name(snaps[i]) == x {
      var i :| 0 <= i < |ids| && Itself(ids[i]) == x;
      assert name(snaps[i]) == x;
    }
    forall i, j | 0 <= i < j < |snaps| ensures name(snaps[i]) != name(snaps[j]) {
      assert Itself(ids[i]) != Itself(ids[j]);
    }
  }

  /** The routers of these snapshots, one for each name. */
  function RestoredAll(last: map<Id, RouterSnapshot>, ids: map<Id, RouterIds>): map<Id, Router> {
    map r | r in last :: RestoredRouter(last[r], IdsOf(ids, r))
  }

  ghost predicate PicksAll(last: map<Id, RouterSnapshot>, ids: map<Id, RouterIds>) {
    forall r :: r in last ==> PicksFor(RestoredStatements(last[r]), RestoredIfaces(last[r]), IdsOf(ids, r))
  }

  lemma RestoredOneMore(rs: map<Id, RouterState>, last: map<Id, RouterSnapshot>, ids: map<Id, RouterIds>,
                        snap: RouterSnapshot, r: RouterState, own: RouterIds)
    requires Views(rs) == RestoredAll(last, ids) && PicksAll(last, ids)
    requires ViewOf(r) == RestoredRouter(snap, own) && PicksFor(RestoredStatements(snap), RestoredIfaces(snap), own)
    ensures Views(rs[snap.id := r]) == RestoredAll(last[snap.id := snap], ids[snap.id := own])
    ensures PicksAll(last[snap.id := snap], ids[snap.id := own])
  {
    var more, now := last[snap.id := snap], ids[snap.id := own];
    OthersStay(last, ids, snap, own);
    assert Views(rs[snap.id := r]) == Views(rs)[snap.id := ViewOf(r)];
  }

  lemma OthersStay(last: map<Id, RouterSnapshot>, ids: map<Id, RouterIds>, snap: RouterSnapshot, own: RouterIds)
    ensures RestoredAll(last[snap.id := snap], ids[snap.id := own]) == RestoredAll(last, ids)[snap.id := RestoredRouter(snap, own)]
  {
    var more, now := last[snap.id := snap], ids[snap.id := own];
    assert forall q :: q != snap.id ==> IdsOf(now, q) == IdsOf(ids, q);
    SameRouters(RestoredAll(more, now), RestoredAll(last, ids)[snap.id := RestoredRouter(snap, own)]);
  }

  method RestoreRouters(snaps: seq<RouterSnapshot>) returns (m: map<Id, RouterState>, ghost ids: map<Id, RouterIds>)
    ensures TablesOk(m)
    ensures Views(m) == RestoredAll(FromList(snaps, RouterName, Itself), ids) && PicksAll(FromList(snaps, RouterName, Itself), ids)
  {
    m, ids := map[], map[];
    for i := 0 to |snaps|
      invariant TablesOk(m)
      invariant Views(m) == RestoredAll(FromList(snaps[..i], RouterName, Itself), ids)
      invariant PicksAll(FromList(snaps[..i], RouterName, Itself), ids)
    {
      assert snaps[..i + 1][..i] == snaps[..i];
      ghost var own;
      var r;
      r, own := RestoreRouter(snaps[i]);
      RestoredOneMore(m, FromList(snaps[..i], RouterName, Itself), ids, snaps[i], r, own);
      m, ids := m[snaps[i].id := r], ids[snaps[i].id := own];
    }
    assert snaps[..|snaps|] == snaps;
  }

  /** RestoreSwitch: a new switch on which every port is registered and every VLAN created. */
  method RestoreSwitch(ss: SwitchSnapshot) returns (state: SwitchState)
    ensures state == RestoredSwitch(ss)
  {
    var sw := new Switching.Switch();
    for i := 0 to |ss.ports|
      invariant sw.Ports == DefaultPorts(ElementsOf(ss.ports[..i])) && sw.VLANs == {Switching.VLAN_DEFAULT}
    {
      assert ss.ports[..i + 1] == ss.ports[..i] + [ss.ports[i]];
      sw.RegisterPort(ss.ports[i]);
    }
    assert ss.ports[..|ss.ports|] == ss.ports;
    for i := 0 to |ss.vlans|
      invariant sw.Ports == DefaultPorts(ElementsOf(ss.ports)) && sw.VLANs == {Switching.VLAN_DEFAULT} + CutAll(ss.vlans[..i])
    {
      assert ss.vlans[..i + 1] == ss.vlans[..i] + [ss.vlans[i]];
      sw.CreateVLAN(Cut(ss.vlans[i]));
    }
    assert ss.vlans[..|ss.vlans|] == ss.vlans;
    state := SwitchState(sw.Ports, sw.VLANs, AsNew);
  }

  method RestoreSwitches(snaps: seq<SwitchSnapshot>) returns (m: map<Id, SwitchState>)
    ensures m == FromList(snaps, SwitchName, RestoredSwitch)
  {
    m := map[];
    for i := 0 to |snaps|
      invariant m == FromList(snaps[..i], SwitchName, RestoredSwitch)
    {
      assert snaps[..i + 1][..i] == snaps[..i];
      var state := RestoreSwitch(snaps[i]);
      m := m[snaps[i].id := state];
    }
    assert snaps[..|snaps|] == snaps;
  }

  method RestoreHosts(snaps: seq<HostSnapshot>) returns (m: map<Id, Host>)
    ensures m == FromList(snaps, HostName, RestoredHost)
  {
    m := map[];
    for i := 0 to |snaps|
      invariant m == FromList(snaps[..i], HostName, RestoredHost)
    {
      assert snaps[..i + 1][..i] == snaps[..i];
      m := m[snaps[i].id := RestoredHost(snaps[i])];
    }
    assert snaps[..|snaps|] == snaps;
  }

  method ExportRouters(rs: map<Id, RouterState>) returns (list: seq<RouterSnapshot>)
    ensures Lists(list, RouterName, rs.Keys)
    ensures forall r :: r in list ==> r.id in rs && ExportsRouter(ViewOf(rs[r.id]), r)
  {
    var ids := ListSet(rs.Keys);
    list := [];
    for i := 0 to |ids|
      invariant |list| == i && forall k :: 0 <= k < i ==> RouterName(list[k]) == ids[k]
      invariant forall r :: r in list ==> r.id in rs && ExportsRouter(ViewOf(rs[r.id]), r)
    {
      assert Itself(ids[i]) in rs.Keys;
      var r := SnapshotRouter(ids[i], rs[ids[i]]);
      list := list + [r];
    }
    ListsByName(ids, list, RouterName, rs.Keys);
  }

  method ExportSwitches(ss: map<Id, SwitchState>) returns (list: seq<SwitchSnapshot>)
    ensures Lists(list, SwitchName, ss.Keys)
    ensures forall w :: w in list ==> w.id in ss && ExportsSwitch(ss[w.id], w)
  {
    var ids := ListSet(ss.Keys);
    list := [];
    for i := 0 to |ids|
      invariant |list| == i && forall k :: 0 <= k < i ==> SwitchName(list[k]) == ids[k]
      invariant forall w :: w in list ==> w.id in ss && ExportsSwitch(ss[w.id], w)
    {
      assert Itself(ids[i]) in ss.Keys;
      var ports := ListSet(ss[ids[i]].ports.Keys);
      var vlans := ListSet(ss[ids[i]].vlans);
      list := list + [SwitchSnapshot(ids[i], ports, vlans)];
    }
    ListsByName(ids, list, SwitchName, ss.Keys);
  }

  method ExportHosts(hs: map<Id, Host>) returns (list: seq<HostSnapshot>)
    ensures Lists(list, HostName, hs.Keys)
    ensures forall h :: h in list ==> h.id in hs && RestoredHost(h) == SavedHost(hs[h.id])
  {
    var ids := ListSet(hs.Keys);
    list := [];
    for i := 0 to |ids|
      invariant |list| == i && forall k :: 0 <= k < i ==> HostName(list[k]) == ids[k]
      invariant forall h :: h in list ==> h.id in hs && RestoredHost(h) == SavedHost(hs[h.id])
    {
      assert Itself(ids[i]) in hs.Keys;
      var h := hs[ids[i]];
      list := list + [HostSnapshot(ids[i], h.ip, h.mask, h.gateway, h.mac, h.port, h.uplink)];
    }
    ListsByName(ids, list, HostName, hs.Keys);
  }

  lemma AddedSettles(c: Content, l: TopologyLink)
    requires Sound(c)
    ensures Sound(Added(c, l)) && (Settled(c) ==> (Settled(Added(c, l)) <==> NobodyMinds(c, l)))
  {
    AddLinkKeepsMarks(c, l);
    if Settled(c) {
      AddLinkSettlesIff(c, l);
    }
  }

  class Manager {
    var Routers: map<Id, RouterState>
    var Switches: map<Id, SwitchState>
    var Hosts: map<Id, Host>
    var Links: seq<TopologyLink>

    ghost function View(): Content
      reads this
    {
      Content(Views(Routers), Switches, Hosts, Links)
    }

    /** Well-formed forwarding tables and 16-bit VLAN numbers. */
    ghost predicate Valid()
      reads this
    {
      TablesOk(Routers) && VlansFit(Switches)
    }

    constructor ()
      ensures View() == Content(map[], map[], map[], []) && Valid()
    {
      Routers, Switches, Hosts, Links := map[], map[], map[], [];
    }

    /** AssignLinkAddress: nothing happens on a port that has an address. */
    method AssignLinkAddress(at: End, index: nat, first: bool)
      requires at.node in Routers && TablesOk(Routers)
      modifies this`Routers
      ensures TablesOk(Routers) && Views(Routers) == AssignedAt(old(Views(Routers)), at, index, first)
      ensures Routers.Keys == old(Routers.Keys)
      ensures var r := old(Routers)[at.node];
              Routers == old(Routers)[at.node := if at.port in r.interfaces then r else Plugged(r, at.port, LinkIface(index, first))]
    {
      var r := Routers[at.node];
      if at.port in r.interfaces {
        AssignedAlready(Routers, at, index, first);
        return;
      }
      PluggedMeaning(r, at.port, LinkIface(index, first));
      PluggedView(Routers, at, index, first);
      Routers := Routers[at.node := Plugged(r, at.port, LinkIface(index, first))];
    }

    method RegisterPort(at: End)
      modifies this`Switches
      ensures Switches == RegisteredAt(old(Switches), at)
    {
      if at.node in Switches {
        Switches := Switches[at.node := WithPorts(Switches[at.node], {at.port})];
      }
    }

    method SetUplink(node: Id, far: Id)
      modifies this`Hosts
      ensures Hosts == UplinkedAt(old(Hosts), node, far)
    {
      if node in Hosts {
        Hosts := Hosts[node := Hosts[node].(uplink := far)];
      }
    }

    /** SetNeighbor. */
    method SetNeighbor(at: End, n: PortNeighbor)
      requires at.node in Routers && TablesOk(Routers)
      modifies this`Routers
      ensures TablesOk(Routers) && Views(Routers) == NeighborSet(old(Views(Routers)), at, n)
    {
      var r := Routers[at.node];
      Routers := Routers[at.node := r.(neighbors := r.neighbors[at.port := n])];
      assert Views(Routers) == NeighborSet(old(Views(Routers)), at, n);
    }

    /** RipDaemon.AddNeighbor, where RIP is enabled and the address is set. */
    method AddRipNeighbor(at: End, ip: IPAddress)
      requires at.node in Routers && TablesOk(Routers)
      modifies this`Routers
      ensures TablesOk(Routers) && Views(Routers) == RipAdded(old(Views(Routers)), at, ip)
    {
      var r := Routers[at.node];
      if r.settings.rip.Some? && ip != UNSET {
        var rip := r.settings.rip.value;
        Routers := Routers[at.node := r.(settings := r.settings.(rip := Some(rip.(neighbors := rip.neighbors[at.port := ip]))))];
      }
      assert Views(Routers) == RipAdded(old(Views(Routers)), at, ip);
    }

    method Introduce(l: TopologyLink)
      requires l.source.node in Routers && l.target.node in Routers && TablesOk(Routers)
      modifies this`Routers
      ensures TablesOk(Routers)
      ensures Views(Routers) == AllIntroduced(old(Views(Routers)), l)
    {
      var srcIP, dstIP := AddressOf(Routers[l.source.node].interfaces, l.source.port), AddressOf(Routers[l.target.node].interfaces, l.target.port);
      IntroducedIs(Views(Routers), l, PortNeighbor(l.source.node, l.source.port, srcIP), PortNeighbor(l.target.node, l.target.port, dstIP));
      SetNeighbor(l.source, PortNeighbor(l.target.node, l.target.port, dstIP));
      SetNeighbor(l.target, PortNeighbor(l.source.node, l.source.port, srcIP));
      AddRipNeighbor(l.source, dstIP);
      AddRipNeighbor(l.target, srcIP);
    }

    /** The part of applyLinkState for routers. */
    method LinkRouterEnds(l: TopologyLink)
      requires TablesOk(Routers)
      modifies this`Routers
      ensures TablesOk(Routers) && Views(Routers) == LinkedRouters(old(Views(Routers)), l, |Links|)
    {
      if l.source.node in Routers && l.target.node in Routers {
        LinkedRoutersAre(Views(Routers), l, |Links|);
        AssignLinkAddress(l.source, |Links|, true);
        AssignLinkAddress(l.target, |Links|, false);
        Introduce(l);
      } else {
        UnlinkedStay(Views(Routers), l, |Links|);
      }
    }

    method LinkSwitchEnds(l: TopologyLink)
      modifies this`Switches
      ensures Switches == LinkedSwitches(old(Switches), [l]) && (old(VlansFit(Switches)) ==> VlansFit(Switches))
    {
      OneLinkOnSwitches(Switches, l);
      RegisterPort(l.source);
      RegisterPort(l.target);
    }

    method LinkHostEnds(l: TopologyLink)
      modifies this`Hosts
      ensures Hosts == LinkedHosts(old(Hosts), [l])
    {
      OneLinkOnHosts(Hosts, l);
      SetUplink(l.source.node, l.target.node);
      SetUplink(l.target.node, l.source.node);
    }

    method ApplyLinkState(l: TopologyLink)
      requires Valid()
      modifies this
      ensures Valid() && View() == LinkedBy(old(View()), l, |Links|)
    {
      LinkSwitchEnds(l);
      LinkRouterEnds(l);
      LinkHostEnds(l);
    }

    method RecordLink(l: TopologyLink)
      requires Valid()
      modifies this
      ensures Valid() && View() == Added(old(View()), l)
    {
      AppendLink(l);
      ApplyLinkState(l);
    }

    method AppendLink(l: TopologyLink)
      requires Valid()
      modifies this`Links
      ensures Valid() && View() == old(View()).(links := old(Links) + [l]) && Links == old(Links) + [l]
    {
      Links := Links + [l];
    }

    /** The state stays sound; a settled one stays settled exactly when no process minds the new
        addresses. */
    method AddLink(l: TopologyLink)
      requires Valid()
      modifies this
      ensures Valid() && View() == Added(old(View()), l) && Sound(View())
      ensures old(Settled(View())) ==> (Settled(View()) <==> old(NobodyMinds(View(), l)))
    {
      ManagerIsSound(Routers, Switches, Hosts, Links);
      AddedSettles(View(), l);
      RecordLink(l);
    }

    /** Fails, changing nothing, when no link has this ID. */
    method RemoveLink(linkID: Id) returns (ok: bool)
      modifies this`Links
      ensures ok <==> exists l :: l in old(Links) && l.id == linkID
      ensures View() == if ok then Unlinked(old(View()), linkID) else old(View())
    {
      ok := false;
      var filtered := [];
      for i := 0 to |Links|
        invariant Links == old(Links) && filtered == WithoutLink(Links[..i], linkID)
        invariant ok <==> exists k :: 0 <= k < i && Links[k].id == linkID
      {
        assert Links[..i + 1][..i] == Links[..i];
        if Links[i].id == linkID {
          ok := true;
        } else {
          filtered := filtered + [Links[i]];
        }
      }
      assert Links[..|Links|] == Links;
      if ok {
        Links := filtered;
      }
    }

    /** Replaces all devices and links, then applies every link again. */
    method ImportSnapshot(snap: TopologySnapshot) returns (ghost ids: map<Id, RouterIds>)
      modifies this
      ensures Valid() && Picks(snap, ids) && View() == Imported(snap, ids)
      ensures Sound(View()) && Plain(View()) && Marked(View())
    {
      Routers, ids := RestoreRouters(snap.routers);
      Switches := RestoreSwitches(snap.switches);
      Hosts := RestoreHosts(snap.hosts);
      Links := snap.links;
      assert Views(Routers) == RestoredRouters(snap, ids);
      RestoredIsSound(snap, ids);
      ApplyAllLinks(snap, ids);
      ImportIsMarked(snap, ids);
    }

    method ApplyAllLinks(snap: TopologySnapshot, ghost ids: map<Id, RouterIds>)
      requires Valid() && View() == Restored(snap, ids)
      modifies this
      ensures Valid() && View() == Imported(snap, ids)
    {
      for i := 0 to |snap.links|
        invariant View() == Applied(Restored(snap, ids), snap.links[..i], |snap.links|) && Valid() && Links == snap.links
      {
        AppliedEdges(Restored(snap, ids), snap.links[..i], |snap.links|);
        assert snap.links[..i + 1][..i] == snap.links[..i];
        ApplyLinkState(snap.links[i]);
      }
      assert snap.links[..|snap.links|] == snap.links;
    }

    method ExportSnapshot() returns (snap: TopologySnapshot)
      ensures Exports(View(), snap)
    {
      var routers := ExportRouters(Routers);
      var switches := ExportSwitches(Switches);
      var hosts := ExportHosts(Hosts);
      snap := TopologySnapshot(routers, switches, hosts, Links);
    }

    /** Saving and loading at once: a settled state comes back, and one that comes back may survive. */
    method Reload()
      requires Valid()
      modifies this
      ensures Valid()
      ensures old(Settled(View())) ==> View() == old(View())
      ensures View() == old(View()) ==> old(MaySurvive(View()))
      ensures ShowsAs(old(View()), View()) <==> old(ShownMarks(View()))
    {
      ManagerIsSound(Routers, Switches, Hosts, Links);
      ghost var was := View();
      var snap := ExportSnapshot();
      RoundTripIff(was, snap);
      ghost var ids := ImportSnapshot(snap);
      ReloadShowsIff(was, snap, ids);
    }
  }
}
