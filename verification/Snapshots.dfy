/** Saving and loading the topology: what a snapshot holds, what a load restores from it, and what
    applying the links adds.
 */
module Snapshots {
  import opened Addressing
  import opened Listings
  import opened RouterProcesses
  import opened RoutingTable
  import Switching
  import opened Topology

  // ---------------------------------------------------------------- what a snapshot holds

  datatype IfaceSnapshot = IfaceSnapshot(port: PortId, ip: IPAddress, mask: Mask, mac: Mac)

  datatype StaticRouteSnap = StaticRouteSnap(cidr: Cidr, nextHop: IPAddress, iface: PortId, metric: int)

  datatype RouterSnapshot = RouterSnapshot(
    id: Id, interfaces: seq<IfaceSnapshot>, staticRoutes: seq<StaticRouteSnap>,
    ospfEnabled: bool, ospfProcessID: int, ospfNetworks: seq<OspfNetwork>,
    ripEnabled: bool, ripNetworks: seq<string>,
    eigrpEnabled: bool, eigrpAS: int, eigrpNetworks: seq<string>,
    bgpEnabled: bool, bgpLocalAS: int)

  datatype SwitchSnapshot = SwitchSnapshot(id: Id, ports: seq<PortId>, vlans: seq<int>)

  datatype HostSnapshot = HostSnapshot(
    id: Id, ip: IPAddress, mask: Mask, gateway: IPAddress, mac: Mac, port: PortId, uplink: Id)

  datatype TopologySnapshot = TopologySnapshot(
    routers: seq<RouterSnapshot>, switches: seq<SwitchSnapshot>, hosts: seq<HostSnapshot>, links: seq<TopologyLink>)

  // ---------------------------------------------------------------- what the manager holds

  /** The rest of a device's configuration, which no snapshot holds: as in a new device, or not. */
  datatype Rest = AsNew | Changed(number: nat)

  /** A router with its whole forwarding table. The rest is BGP peers, interface policies, access
      lists, NAT, DHCP pools and the like. */
  datatype RouterState = RouterState(
    interfaces: Ifaces, table: seq<RouteEntry>, settings: Settings, neighbors: map<PortId, PortNeighbor>, rest: Rest)

  /** The rest of a switch is VLAN names, VTP, blocked ports and QoS. */
  datatype SwitchState = SwitchState(ports: map<PortId, PortConfig>, vlans: set<int>, rest: Rest)

  /** The rest of a host is its IPv6 configuration. */
  datatype Host = Host(ip: IPAddress, mask: Mask, gateway: IPAddress, mac: Mac, port: PortId, uplink: Id, rest: Rest)

  /** A router's configuration, with its static rows, but not the connected and learned ones. */
  datatype Router = Router(
    interfaces: Ifaces, statics: seq<RouteEntry>, settings: Settings, neighbors: map<PortId, PortNeighbor>, rest: Rest)

  /** The configuration of the manager's routers, switches and hosts, and its links. */
  datatype Content = Content(
    routers: map<Id, Router>, switches: map<Id, SwitchState>, hosts: map<Id, Host>, links: seq<TopologyLink>)

  type PortConfig = Switching.PortConfig

  const VLAN_DEFAULT: int := Switching.VLAN_DEFAULT
  const VLAN_SPACE := 65536

  /** The static rows, in order. */
  function Statics(t: seq<RouteEntry>): seq<RouteEntry> {
    if t == [] then []
    else (if t[0].proto == FromStatic then [t[0]] else []) + Statics(t[1..])
  }

  function ViewOf(r: RouterState): Router {
    Router(r.interfaces, Statics(r.table), r.settings, r.neighbors, r.rest)
  }

  // ---------------------------------------------------------------- processes and their statements

  datatype OspfStatements = OspfStatements(processID: int, networks: seq<OspfNetwork>)

  datatype EigrpStatements = EigrpStatements(asNumber: int, networks: seq<string>)

  /** What a snapshot says of the enabled processes. */
  datatype Statements = Statements(
    ospf: Option<OspfStatements>, rip: Option<seq<string>>, eigrp: Option<EigrpStatements>, bgp: Option<int>)

  /** The router IDs that the processes of one router pick. */
  datatype RouterIds = RouterIds(ospf: IPAddress, rip: IPAddress, eigrp: IPAddress, bgp: IPAddress)

  const NO_IDS := RouterIds(UNSET, UNSET, UNSET, UNSET)

  function Stated(s: Settings): Statements {
    Statements(
      if s.ospf.Some? then Some(OspfStatements(s.ospf.value.processID, s.ospf.value.networks)) else None,
      if s.rip.Some? then Some(s.rip.value.networks) else None,
      if s.eigrp.Some? then Some(EigrpStatements(s.eigrp.value.asNumber, s.eigrp.value.networks)) else None,
      if s.bgp.Some? then Some(s.bgp.value.localAS) else None)
  }

  /** The processes enabled and configured on these interfaces; RIP has no neighbours yet. */
  function Started(st: Statements, ifaces: Ifaces, ids: RouterIds): Settings {
    Settings(
      if st.ospf.Some? then Some(Ospf(ids.ospf, st.ospf.value.processID, st.ospf.value.networks, EnabledInterfaces(ifaces, st.ospf.value.networks))) else None,
      if st.rip.Some? then Some(Rip(ids.rip, st.rip.value, map[])) else None,
      if st.eigrp.Some? then Some(Eigrp(ids.eigrp, st.eigrp.value.asNumber, st.eigrp.value.networks)) else None,
      if st.bgp.Some? then Some(Bgp(ids.bgp, st.bgp.value)) else None)
  }

  /** Each enabled process picks its ID for some order of the interfaces. */
  ghost predicate PicksFor(st: Statements, ifaces: Ifaces, ids: RouterIds) {
    && (st.ospf.Some? ==> MayPick(ifaces, ids.ospf))
    && (st.rip.Some? ==> MayPick(ifaces, ids.rip))
    && (st.eigrp.Some? ==> MayPick(ifaces, ids.eigrp))
    && (st.bgp.Some? ==> MayPick(ifaces, ids.bgp))
  }

  function RipPeers(s: Settings): map<PortId, IPAddress> {
    if s.rip.Some? then s.rip.value.neighbors else map[]
  }

  function WithRipPeers(s: Settings, peers: map<PortId, IPAddress>): Settings {
    if s.rip.Some? then s.(rip := Some(s.rip.value.(neighbors := peers))) else s
  }

  // ---------------------------------------------------------------- import

  function PortOf(i: IfaceSnapshot): PortId { i.port }

  function IfaceOf(i: IfaceSnapshot): Iface { Iface(i.ip, i.mask, i.mac) }

  function RestoredIfaces(rs: RouterSnapshot): Ifaces {
    FromList(rs.interfaces, PortOf, IfaceOf)
  }

  function StaticRow(net: IPNet, s: StaticRouteSnap): RouteEntry {
    RouteEntry(net, s.nextHop, s.iface, s.metric, FromStatic, AdminDistance(FromStatic))
  }

  function RestoredStatics(routes: seq<StaticRouteSnap>): seq<RouteEntry>
    decreases |routes|
  {
    if routes == [] then []
    else
      var before, s := RestoredStatics(routes[..|routes| - 1]), routes[|routes| - 1];
      match ParseCidr(s.cidr)
      case None => before
      case Some(net) => Insert(before, StaticRow(net, s))
  }

  function RestoredStatements(rs: RouterSnapshot): Statements {
    Statements(
      if rs.ospfEnabled then Some(OspfStatements(rs.ospfProcessID, rs.ospfNetworks)) else None,
      if rs.ripEnabled then Some(rs.ripNetworks) else None,
      if rs.eigrpEnabled then Some(EigrpStatements(rs.eigrpAS, rs.eigrpNetworks)) else None,
      if rs.bgpEnabled then Some(rs.bgpLocalAS) else None)
  }

  /** RestoreRouter: the interfaces first, then the static routes, then the processes. */
  function RestoredRouter(rs: RouterSnapshot, ids: RouterIds): Router {
    Router(RestoredIfaces(rs), RestoredStatics(rs.staticRoutes), Started(RestoredStatements(rs), RestoredIfaces(rs), ids), map[], AsNew)
  }

  function Cut(vlan: int): int { vlan % VLAN_SPACE }

  function CutAll(vlans: seq<int>): set<int> {
    set v | v in vlans :: Cut(v)
  }

  /** Ports get default settings, VLAN numbers are cut to 16 bits, and the default VLAN always exists. */
  function RestoredSwitch(ss: SwitchSnapshot): SwitchState {
    SwitchState(DefaultPorts(ElementsOf(ss.ports)), {VLAN_DEFAULT} + CutAll(ss.vlans), AsNew)
  }

  function DefaultPorts(ports: set<PortId>): map<PortId, PortConfig> {
    map p | p in ports :: Switching.DEFAULT_PORT
  }

  function RestoredHost(hs: HostSnapshot): Host {
    Host(hs.ip, hs.mask, hs.gateway, hs.mac, hs.port, hs.uplink, AsNew)
  }

  function RouterName(rs: RouterSnapshot): Id { rs.id }

  function SwitchName(ss: SwitchSnapshot): Id { ss.id }

  function HostName(hs: HostSnapshot): Id { hs.id }

  /** The last snapshot of each router name, which overwrites the earlier ones. */
  function LastNamed(s: TopologySnapshot): map<Id, RouterSnapshot> {
    FromList(s.routers, RouterName, Itself)
  }

  function IdsOf(ids: map<Id, RouterIds>, r: Id): RouterIds {
    if r in ids then ids[r] else NO_IDS
  }

  /** The choice of IDs is possible for this snapshot, for some orders of the interface maps. */
  ghost predicate Picks(s: TopologySnapshot, ids: map<Id, RouterIds>) {
    forall r :: r in LastNamed(s) ==> PicksFor(RestoredStatements(LastNamed(s)[r]), RestoredIfaces(LastNamed(s)[r]), IdsOf(ids, r))
  }

  function RestoredRouters(s: TopologySnapshot, ids: map<Id, RouterIds>): map<Id, Router> {
    map r | r in LastNamed(s) :: RestoredRouter(LastNamed(s)[r], IdsOf(ids, r))
  }

  /** The devices before the links are applied. */
  function Restored(s: TopologySnapshot, ids: map<Id, RouterIds>): Content {
    Content(
      RestoredRouters(s, ids), FromList(s.switches, SwitchName, RestoredSwitch), FromList(s.hosts, HostName, RestoredHost), s.links)
  }

  // ---------------------------------------------------------------- links

  /** The ports of a node that the links use. */
  function EndsOf(links: seq<TopologyLink>, node: Id): set<PortId>
    decreases |links|
  {
    if links == [] then {}
    else
      var l := links[|links| - 1];
      EndsOf(links[..|links| - 1], node)
      + (if l.source.node == node then {l.source.port} else {}) + (if l.target.node == node then {l.target.port} else {})
  }

  /** The far end of the last link that touches the node, or else the recorded uplink. */
  function Uplink(links: seq<TopologyLink>, node: Id, recorded: Id): Id
    decreases |links|
  {
    if links == [] then recorded
    else
      var l := links[|links| - 1];
      if l.target.node == node then l.source.node
      else if l.source.node == node then l.target.node
      else Uplink(links[..|links| - 1], node, recorded)
  }

  /** The address that a router link gets: 10.a.b.1 or 10.a.b.2, not an address once `a` is above 255. */
  function LinkAddress(index: nat, first: bool): IPAddress {
    var second, third, host := index * 4 / 256, index * 4 % 256, if first then 1 else 2;
    if second < 256 then V4(((10 * 256 + second) * 256 + third) * 256 + host)
    else Text("10." + Decimal(second) + "." + Decimal(third) + "." + Decimal(host))
  }

  function LinkIface(index: nat, first: bool): Iface {
    Iface(LinkAddress(index, first), Ones(30), LinkMac(index * 4 / 256, index * 4 % 256, index % 254 + 1))
  }

  /** A port that has an address keeps it. */
  function Assign(ifaces: map<PortId, Iface>, port: PortId, index: nat, first: bool): map<PortId, Iface> {
    if port in ifaces then ifaces else ifaces[port := LinkIface(index, first)]
  }

  /** The interfaces of a router after one link, given the names of all routers. */
  function Linked(ifaces: map<PortId, Iface>, l: TopologyLink, names: set<Id>, node: Id, index: nat): map<PortId, Iface> {
    if l.source.node !in names || l.target.node !in names then ifaces
    else
      var one := if l.source.node == node then Assign(ifaces, l.source.port, index, true) else ifaces;
      if l.target.node == node then Assign(one, l.target.port, index, false) else one
  }

  function LinkedAll(ifaces: map<PortId, Iface>, links: seq<TopologyLink>, names: set<Id>, node: Id, index: nat): map<PortId, Iface>
    decreases |links|
  {
    if links == [] then ifaces
    else Linked(LinkedAll(ifaces, links[..|links| - 1], names, node, index), links[|links| - 1], names, node, index)
  }

  // Who is at the far end, as each link is applied.

  function IfacesOf(rs: map<Id, Router>): map<Id, Ifaces> {
    map r | r in rs :: rs[r].interfaces
  }

  function NeighborAt(at: map<Id, Ifaces>, far: End): PortNeighbor {
    PortNeighbor(far.node, far.port, if far.node in at then AddressOf(at[far.node], far.port) else UNSET)
  }

  /** A port records its neighbour as a whole; RIP records the address, unless it is unset. */
  function Whole(n: PortNeighbor): Option<PortNeighbor> { Some(n) }

  function RemoteAddress(n: PortNeighbor): Option<IPAddress> {
    if n.remoteIP == UNSET then None else Some(n.remoteIP)
  }

  function Noted<V>(m: map<PortId, V>, port: PortId, v: Option<V>): map<PortId, V> {
    if v.Some? then m[port := v.value] else m
  }

  /** What a link between routers makes this router record, given the interfaces of all routers. */
  function Met<V>(m: map<PortId, V>, l: TopologyLink, at: map<Id, Ifaces>, node: Id, what: PortNeighbor -> Option<V>): map<PortId, V> {
    if l.source.node !in at || l.target.node !in at then m
    else
      var one := if l.source.node == node then Noted(m, l.source.port, what(NeighborAt(at, l.target))) else m;
      if l.target.node == node then Noted(one, l.target.port, what(NeighborAt(at, l.source))) else one
  }

  function MetAll<V>(m: map<PortId, V>, links: seq<TopologyLink>, at: map<Id, Ifaces>, node: Id, what: PortNeighbor -> Option<V>): map<PortId, V>
    decreases |links|
  {
    if links == [] then m
    else Met(MetAll(m, links[..|links| - 1], at, node, what), links[|links| - 1], at, node, what)
  }

  function Introduced(r: Router, l: TopologyLink, at: map<Id, Ifaces>, node: Id): Router {
    r.(neighbors := Met(r.neighbors, l, at, node, Whole), settings := WithRipPeers(r.settings, Met(RipPeers(r.settings), l, at, node, RemoteAddress)))
  }

  function Addressed(rs: map<Id, Router>, l: TopologyLink, index: nat): map<Id, Router> {
    map r | r in rs :: rs[r].(interfaces := Linked(rs[r].interfaces, l, rs.Keys, r, index))
  }

  /** Both ends get addresses, then each records the other. */
  function LinkedRouters(rs: map<Id, Router>, l: TopologyLink, index: nat): map<Id, Router> {
    var all := Addressed(rs, l, index);
    map r | r in all :: Introduced(all[r], l, IfacesOf(all), r)
  }

  /** These ports registered; ports that exist keep their settings. */
  function WithPorts(sw: SwitchState, ports: set<PortId>): SwitchState {
    sw.(ports := DefaultPorts(ports) + sw.ports)
  }

  function LinkedSwitches(ss: map<Id, SwitchState>, links: seq<TopologyLink>): map<Id, SwitchState> {
    map s | s in ss :: WithPorts(ss[s], EndsOf(links, s))
  }

  function LinkedHosts(hs: map<Id, Host>, links: seq<TopologyLink>): map<Id, Host> {
    map h | h in hs :: hs[h].(uplink := Uplink(links, h, hs[h].uplink))
  }

  /** applyLinkState with this link index. */
  function LinkedBy(c: Content, l: TopologyLink, index: nat): Content {
    c.(routers := LinkedRouters(c.routers, l, index), switches := LinkedSwitches(c.switches, [l]), hosts := LinkedHosts(c.hosts, [l]))
  }

  /** These links applied in order, all with this link index. */
  function Applied(c: Content, links: seq<TopologyLink>, index: nat): Content
    decreases |links|
  {
    if links == [] then c else LinkedBy(Applied(c, links[..|links| - 1], index), links[|links| - 1], index)
  }

  /** The content that an import leaves. */
  function Imported(s: TopologySnapshot, ids: map<Id, RouterIds>): Content {
    Applied(Restored(s, ids), s.links, |s.links|)
  }

  /** Manager.AddLink: the link is recorded, then applied. */
  function Added(c: Content, l: TopologyLink): Content {
    LinkedBy(c.(links := c.links + [l]), l, |c.links| + 1)
  }

  /** The links that do not have this ID, in order. */
  function WithoutLink(links: seq<TopologyLink>, id: Id): seq<TopologyLink>
    decreases |links|
  {
    if links == [] then []
    else WithoutLink(links[..|links| - 1], id) + if links[|links| - 1].id == id then [] else [links[|links| - 1]]
  }

  /** Manager.RemoveLink: only the list of links changes. */
  function Unlinked(c: Content, id: Id): Content {
    c.(links := WithoutLink(c.links, id))
  }

  // ---------------------------------------------------------------- export

  function SnapOf(e: RouteEntry): StaticRouteSnap {
    StaticRouteSnap(Print(e.network), e.nextHop, e.iface, e.metric)
  }

  function StatementsInto(s: Statements, rs: RouterSnapshot): RouterSnapshot {
    rs.(
    ospfEnabled := s.ospf.Some?,
    ospfProcessID := if s.ospf.Some? then s.ospf.value.processID else 0,
    ospfNetworks := if s.ospf.Some? then s.ospf.value.networks else [],
    ripEnabled := s.rip.Some?,
    ripNetworks := if s.rip.Some? then s.rip.value else [],
    eigrpEnabled := s.eigrp.Some?,
    eigrpAS := if s.eigrp.Some? then s.eigrp.value.asNumber else 0,
    eigrpNetworks := if s.eigrp.Some? then s.eigrp.value.networks else [],
    bgpEnabled := s.bgp.Some?,
    bgpLocalAS := if s.bgp.Some? then s.bgp.value else 0)
  }

  ghost predicate ExportsRouter(r: Router, rs: RouterSnapshot) {
    && Lists(rs.interfaces, PortOf, r.interfaces.Keys)
    && (forall i :: i in rs.interfaces ==> i.port in r.interfaces && IfaceOf(i) == r.interfaces[i.port])
    && |rs.staticRoutes| == |r.statics|
    && (forall k :: 0 <= k < |r.statics| ==> rs.staticRoutes[k] == SnapOf(r.statics[k]))
    && rs == StatementsInto(Stated(r.settings), rs)
  }

  /** Of a port only its name is saved. */
  ghost predicate ExportsSwitch(sw: SwitchState, ss: SwitchSnapshot) {
    Lists(ss.ports, Itself, sw.ports.Keys) && Lists(ss.vlans, Itself, sw.vlans)
  }

  function SavedHost(h: Host): Host {
    h.(rest := AsNew)
  }

  /** The snapshot is an export of this content, for some order of the maps. */
  ghost predicate Exports(c: Content, s: TopologySnapshot) {
    && s.links == c.links
    && Lists(s.routers, RouterName, c.routers.Keys)
    && (forall r :: r in s.routers ==> r.id in c.routers && ExportsRouter(c.routers[r.id], r))
    && Lists(s.switches, SwitchName, c.switches.Keys)
    && (forall w :: w in s.switches ==> w.id in c.switches && ExportsSwitch(c.switches[w.id], w))
    && Lists(s.hosts, HostName, c.hosts.Keys)
    && (forall h :: h in s.hosts ==> h.id in c.hosts && RestoredHost(h) == SavedHost(c.hosts[h.id]))
  }

  // ---------------------------------------------------------------- static routes

  /** Rows as the engine stores static routes. */
  ghost predicate SoundRows(rows: seq<RouteEntry>) {
    UniqueKeys(rows) && forall e :: e in rows ==>
                                      e.proto == FromStatic && e.adminDist == AdminDistance(FromStatic) && MaskedNet(e.network)
  }

  lemma {:induction false} StaticsMembers(t: seq<RouteEntry>)
    ensures forall e :: e in Statics(t) <==> e in t && e.proto == FromStatic
  {
    if t != [] {
      StaticsMembers(t[1..]);
      assert forall x :: x in t <==> x == t[0] || x in t[1..];
    }
  }

  lemma UniqueFront(e: RouteEntry, rows: seq<RouteEntry>)
    requires UniqueKeys(rows) && forall x :: x in rows ==> !SameKey(e, x)
    ensures UniqueKeys([e] + rows)
  {}

  lemma {:induction false} StaticsUnique(t: seq<RouteEntry>)
    requires UniqueKeys(t)
    ensures UniqueKeys(Statics(t))
  {
    if t != [] {
      assert forall k :: 0 <= k < |t[1..]| ==> t[1..][k] == t[k + 1];
      StaticsUnique(t[1..]);
      if t[0].proto == FromStatic {
        StaticsMembers(t[1..]);
        UniqueFront(t[0], Statics(t[1..]));
      } else {
        assert Statics(t) == Statics(t[1..]);
      }
    }
  }

  /** What every run of the engine keeps makes the static rows sound. */
  lemma TableOkIsSound(t: seq<RouteEntry>)
    requires TableOk(t)
    ensures SoundRows(Statics(t))
  {
    StaticsMembers(t);
    StaticsUnique(t);
  }

  lemma StaticsOfCons(e: RouteEntry, t: seq<RouteEntry>)
    ensures Statics([e] + t) == (if e.proto == FromStatic then [e] else []) + Statics(t)
  {
    assert ([e] + t)[1..] == t;
  }

  lemma {:induction false} StaticsOfInsert(t: seq<RouteEntry>, e: RouteEntry)
    ensures Statics(Insert(t, e)) == if e.proto == FromStatic then Insert(Statics(t), e) else Statics(t)
  {
    if t == [] {
      StaticsOfCons(e, []);
    } else if SameKey(t[0], e) {
      StaticsOfCons(e, t[1..]);
    } else {
      StaticsOfInsert(t[1..], e);
      StaticsOfCons(t[0], Insert(t[1..], e));
      if t[0].proto == FromStatic {
        assert Statics(t)[1..] == Statics(t[1..]);
      } else {
        assert Statics(t) == Statics(t[1..]);
      }
    }
  }

  lemma {:induction false} RestoredStaticsAreSound(routes: seq<StaticRouteSnap>)
    ensures SoundRows(RestoredStatics(routes))
    decreases |routes|
  {
    if routes != [] {
      var s := routes[|routes| - 1];
      RestoredStaticsAreSound(routes[..|routes| - 1]);
      if ParseCidr(s.cidr).Some? {
        PrintedIsCanonical(s.cidr);
        InsertRows(RestoredStatics(routes[..|routes| - 1]), StaticRow(ParseCidr(s.cidr).value, s));
      }
    }
  }

  lemma SoundFront(rows: seq<RouteEntry>)
    requires SoundRows(rows) && rows != []
    ensures var front, e := rows[..|rows| - 1], rows[|rows| - 1];
            && SoundRows(front) && StaticRow(e.network, SnapOf(e)) == e && ParseCidr(SnapOf(e).cidr) == Some(e.network)
            && forall k :: 0 <= k < |front| ==> !SameKey(front[k], e)
  {
    var front, e := rows[..|rows| - 1], rows[|rows| - 1];
    assert e in rows && MaskedNet(e.network);
    assert forall x :: x in front ==> x in rows;
  }

  /** Restoring the exported rows gives them back, in order. */
  lemma {:induction false} StaticsRoundTrip(rows: seq<RouteEntry>, routes: seq<StaticRouteSnap>)
    requires SoundRows(rows) && |routes| == |rows| && forall k :: 0 <= k < |rows| ==> routes[k] == SnapOf(rows[k])
    ensures RestoredStatics(routes) == rows
    decreases |rows|
  {
    if rows != [] {
      var front, e := rows[..|rows| - 1], rows[|rows| - 1];
      SoundFront(rows);
      StaticsRoundTrip(front, routes[..|routes| - 1]);
      InsertNew(front, e);
      assert rows == front + [e];
    }
  }

  // ---------------------------------------------------------------- what the links do

  /** The ports of a router that lie on links between routers. */
  function RouterEndsOf(links: seq<TopologyLink>, names: set<Id>, node: Id): set<PortId>
    decreases |links|
  {
    if links == [] then {}
    else
      var l, before := links[|links| - 1], RouterEndsOf(links[..|links| - 1], names, node);
      if l.source.node !in names || l.target.node !in names then before
      else before + (if l.source.node == node then {l.source.port} else {}) + (if l.target.node == node then {l.target.port} else {})
  }

  /** Applying links gives link addresses to the router ends without one, and changes no other. */
  lemma {:induction false} LinkedAllMeaning(ifaces: Ifaces, links: seq<TopologyLink>, names: set<Id>, node: Id, index: nat)
    ensures var r := LinkedAll(ifaces, links, names, node, index);
            && r.Keys == ifaces.Keys + RouterEndsOf(links, names, node)
            && (forall p :: p in ifaces ==> r[p] == ifaces[p])
            && forall p :: p in r && p !in ifaces ==> r[p] == LinkIface(index, true) || r[p] == LinkIface(index, false)
    decreases |links|
  {
    if links != [] {
      LinkedAllMeaning(ifaces, links[..|links| - 1], names, node, index);
    }
  }

  lemma WithPortsChangesIff(sw: SwitchState, ports: set<PortId>)
    ensures WithPorts(sw, ports) == sw <==> ports <= sw.ports.Keys
  {
    var more := DefaultPorts(ports) + sw.ports;
    assert more.Keys == ports + sw.ports.Keys;
    if ports <= sw.ports.Keys {
      assert more == sw.ports;
    }
  }

  lemma SwitchesChangeIff(ss: map<Id, SwitchState>, links: seq<TopologyLink>)
    ensures LinkedSwitches(ss, links) == ss <==> forall s :: s in ss ==> EndsOf(links, s) <= ss[s].ports.Keys
  {
    var after := LinkedSwitches(ss, links);
    forall s | s in ss ensures after[s] == ss[s] <==> EndsOf(links, s) <= ss[s].ports.Keys {
      WithPortsChangesIff(ss[s], EndsOf(links, s));
    }
    assert after == ss <==> forall s :: s in ss ==> after[s] == ss[s];
  }

  lemma HostsChangeIff(hs: map<Id, Host>, links: seq<TopologyLink>)
    ensures LinkedHosts(hs, links) == hs <==> forall h :: h in hs ==> Uplink(links, h, hs[h].uplink) == hs[h].uplink
  {
    assert LinkedHosts(hs, links) == hs <==> forall h :: h in hs ==> LinkedHosts(hs, links)[h] == hs[h];
  }

  lemma {:induction false} UplinkIsStable(links: seq<TopologyLink>, node: Id, recorded: Id)
    ensures Uplink(links, node, Uplink(links, node, recorded)) == Uplink(links, node, recorded)
    decreases |links|
  {
    if links != [] {
      UplinkIsStable(links[..|links| - 1], node, recorded);
    }
  }

  lemma {:induction false} UplinkSnoc(links: seq<TopologyLink>, l: TopologyLink, node: Id, recorded: Id)
    ensures Uplink(links + [l], node, recorded) == Uplink([l], node, Uplink(links, node, recorded))
  {
    assert (links + [l])[..|links|] == links && [l][..0] == [];
  }

  lemma EndsOfSnoc(links: seq<TopologyLink>, l: TopologyLink, node: Id)
    ensures EndsOf(links + [l], node) == EndsOf(links, node) + EndsOf([l], node)
  {
    assert (links + [l])[..|links|] == links && [l][..0] == [];
  }

  lemma RouterEndsSnoc(links: seq<TopologyLink>, l: TopologyLink, names: set<Id>, node: Id)
    ensures RouterEndsOf(links + [l], names, node) == RouterEndsOf(links, names, node) + RouterEndsOf([l], names, node)
  {
    assert (links + [l])[..|links|] == links && [l][..0] == [];
  }

  lemma WithPortsTwice(sw: SwitchState, a: set<PortId>, b: set<PortId>)
    ensures WithPorts(WithPorts(sw, a), b) == WithPorts(sw, a + b)
  {
    assert DefaultPorts(b) + (DefaultPorts(a) + sw.ports) == DefaultPorts(a + b) + sw.ports;
  }

  lemma LinkedSwitchesSnoc(ss: map<Id, SwitchState>, links: seq<TopologyLink>, l: TopologyLink)
    ensures LinkedSwitches(ss, links + [l]) == LinkedSwitches(LinkedSwitches(ss, links), [l])
  {
    forall s | s in ss ensures WithPorts(ss[s], EndsOf(links + [l], s)) == WithPorts(WithPorts(ss[s], EndsOf(links, s)), EndsOf([l], s)) {
      EndsOfSnoc(links, l, s);
      WithPortsTwice(ss[s], EndsOf(links, s), EndsOf([l], s));
    }
  }

  lemma LinkedHostsSnoc(hs: map<Id, Host>, links: seq<TopologyLink>, l: TopologyLink)
    ensures LinkedHosts(hs, links + [l]) == LinkedHosts(LinkedHosts(hs, links), [l])
  {
    forall h | h in hs ensures LinkedHosts(hs, links + [l])[h] == LinkedHosts(LinkedHosts(hs, links), [l])[h] {
      UplinkSnoc(links, l, h, hs[h].uplink);
    }
  }

  /** Applying two lists of links is applying their concatenation. */
  lemma {:induction false} AppliedConcat(c: Content, a: seq<TopologyLink>, b: seq<TopologyLink>, index: nat)
    ensures Applied(Applied(c, a, index), b, index) == Applied(c, a + b, index)
    decreases |b|
  {
    if b == [] {
      assert a + b == a;
    } else {
      AppliedConcat(c, a, b[..|b| - 1], index);
      assert (a + b)[..|a + b| - 1] == a + b[..|b| - 1];
    }
  }

  /** The switches and hosts of all links at once. */
  lemma {:induction false} AppliedEdges(c: Content, links: seq<TopologyLink>, index: nat)
    ensures var d := Applied(c, links, index);
            && d.routers.Keys == c.routers.Keys && d.links == c.links
            && d.switches == LinkedSwitches(c.switches, links) && d.hosts == LinkedHosts(c.hosts, links)
    decreases |links|
  {
    if links == [] {
      SwitchesChangeIff(c.switches, []);
      HostsChangeIff(c.hosts, []);
    } else {
      var front, l := links[..|links| - 1], links[|links| - 1];
      AppliedEdges(c, front, index);
      LinkedSwitchesSnoc(c.switches, front, l);
      LinkedHostsSnoc(c.hosts, front, l);
      assert front + [l] == links;
    }
  }

  /** The interfaces of all links at once. */
  lemma {:induction false} AppliedIfaces(c: Content, links: seq<TopologyLink>, index: nat, r: Id)
    requires r in c.routers
    ensures r in Applied(c, links, index).routers
    ensures Applied(c, links, index).routers[r].interfaces == LinkedAll(c.routers[r].interfaces, links, c.routers.Keys, r, index)
    decreases |links|
  {
    if links != [] {
      var front := links[..|links| - 1];
      AppliedIfaces(c, front, index, r);
      AppliedEdges(c, front, index);
    }
  }

  /** Both maps have the same routers, with the same addresses at the ends of these links. */
  ghost predicate SameEnds(links: seq<TopologyLink>, at: map<Id, Ifaces>, now: map<Id, Ifaces>) {
    && at.Keys == now.Keys
    && forall l :: l in links && l.source.node in at && l.target.node in at ==>
                     NeighborAt(at, l.source) == NeighborAt(now, l.source) && NeighborAt(at, l.target) == NeighborAt(now, l.target)
  }

  lemma {:induction false} MetAllStable<V>(
      m: map<PortId, V>, links: seq<TopologyLink>, at: map<Id, Ifaces>, now: map<Id, Ifaces>, node: Id, what: PortNeighbor -> Option<V>)
    requires SameEnds(links, at, now)
    ensures MetAll(m, links, at, node, what) == MetAll(m, links, now, node, what)
    decreases |links|
  {
    if links != [] {
      var front := links[..|links| - 1];
      assert forall l :: l in front ==> l in links;
      assert links[|links| - 1] in links;
      MetAllStable(m, front, at, now, node, what);
    }
  }

  lemma {:induction false} EndsAreRouterEnds(links: seq<TopologyLink>, l: TopologyLink, names: set<Id>)
    requires l in links && l.source.node in names && l.target.node in names
    ensures l.source.port in RouterEndsOf(links, names, l.source.node)
    ensures l.target.port in RouterEndsOf(links, names, l.target.node)
    decreases |links|
  {
    if l != links[|links| - 1] {
      EndsAreRouterEnds(links[..|links| - 1], l, names);
    }
  }

  /** Interfaces only come, at ports that have none, so recorded addresses stay right. */
  lemma MoreKeepsEnds(links: seq<TopologyLink>, at: map<Id, Ifaces>, now: map<Id, Ifaces>)
    requires at.Keys == now.Keys
    requires forall r :: r in at ==> RouterEndsOf(links, at.Keys, r) <= at[r].Keys
    requires forall r, p :: r in at && p in at[r] ==> p in now[r] && now[r][p] == at[r][p]
    ensures SameEnds(links, at, now)
  {
    forall l | l in links && l.source.node in at && l.target.node in at
      ensures NeighborAt(at, l.source) == NeighborAt(now, l.source) && NeighborAt(at, l.target) == NeighborAt(now, l.target)
    {
      EndsAreRouterEnds(links, l, at.Keys);
    }
  }

  lemma LinkedKeeps(rs: map<Id, Router>, l: TopologyLink, index: nat)
    ensures IfacesOf(Addressed(rs, l, index)) == IfacesOf(LinkedRouters(rs, l, index))
    ensures IfacesOf(LinkedRouters(rs, l, index)).Keys == rs.Keys
    ensures forall r, p :: r in rs && p in rs[r].interfaces ==>
              p in IfacesOf(LinkedRouters(rs, l, index))[r] && IfacesOf(LinkedRouters(rs, l, index))[r][p] == rs[r].interfaces[p]
  {
    var now := IfacesOf(LinkedRouters(rs, l, index));
    forall r | r in rs ensures now[r] == Linked(rs[r].interfaces, l, rs.Keys, r, index) {}
    forall r, p | r in rs && p in rs[r].interfaces ensures p in now[r] && now[r][p] == rs[r].interfaces[p] {
      LinkedKeepsIface(rs[r].interfaces, l, rs.Keys, r, index, p);
    }
  }

  lemma LinkedKeepsIface(ifaces: Ifaces, l: TopologyLink, names: set<Id>, node: Id, index: nat, p: PortId)
    requires p in ifaces
    ensures p in Linked(ifaces, l, names, node, index) && Linked(ifaces, l, names, node, index)[p] == ifaces[p]
  {}

  /** What a router records over all links, from the addresses at the end. */
  ghost predicate Records(r: Router, before: Router, links: seq<TopologyLink>, at: map<Id, Ifaces>, node: Id) {
    && r.neighbors == MetAll(before.neighbors, links, at, node, Whole)
    && r.settings == WithRipPeers(before.settings, MetAll(RipPeers(before.settings), links, at, node, RemoteAddress))
  }

  lemma RecordsSnoc(r: Router, before: Router, links: seq<TopologyLink>, l: TopologyLink, at: map<Id, Ifaces>, now: map<Id, Ifaces>, node: Id)
    requires Records(r, before, links, at, node) && SameEnds(links, at, now)
    ensures Records(Introduced(r, l, now, node), before, links + [l], now, node)
  {
    MetAllStable(before.neighbors, links, at, now, node, Whole);
    MetAllStable(RipPeers(before.settings), links, at, now, node, RemoteAddress);
    assert (links + [l])[..|links|] == links;
  }

  /** Every router end of these links has an address. */
  ghost predicate EndsAddressed(rs: map<Id, Router>, links: seq<TopologyLink>) {
    forall r :: r in rs ==> RouterEndsOf(links, rs.Keys, r) <= rs[r].interfaces.Keys
  }

  /** Applied links have addressed their router ends. */
  lemma AppliedIsAddressed(c: Content, links: seq<TopologyLink>, index: nat)
    ensures EndsAddressed(Applied(c, links, index).routers, links)
  {
    AppliedEdges(c, links, index);
    forall r | r in c.routers ensures RouterEndsOf(links, c.routers.Keys, r) <= Applied(c, links, index).routers[r].interfaces.Keys {
      AppliedIfaces(c, links, index, r);
      LinkedAllMeaning(c.routers[r].interfaces, links, c.routers.Keys, r, index);
    }
  }

  /** One link more. */
  lemma LinkedRecords(rs: map<Id, Router>, before: Router, links: seq<TopologyLink>, l: TopologyLink, index: nat, r: Id)
    requires EndsAddressed(rs, links) && RecordsAll(rs, before, links, r)
    ensures RecordsAll(LinkedRouters(rs, l, index), before, links + [l], r)
  {
    var all, now := Addressed(rs, l, index), IfacesOf(LinkedRouters(rs, l, index));
    LinkedKeeps(rs, l, index);
    MoreKeepsEnds(links, IfacesOf(rs), now);
    RecordsSnoc(all[r], before, links, l, IfacesOf(rs), now, r);
  }

  /** All that the links have done to this router, but for its addresses. */
  ghost predicate RecordsAll(rs: map<Id, Router>, before: Router, links: seq<TopologyLink>, r: Id) {
    r in rs && rs[r].statics == before.statics && rs[r].rest == before.rest && Records(rs[r], before, links, IfacesOf(rs), r)
  }

  lemma NothingRecorded(rs: map<Id, Router>, r: Id)
    requires r in rs
    ensures RecordsAll(rs, rs[r], [], r)
  {}

  lemma RecordsOneMore(rs: map<Id, Router>, now: map<Id, Router>, before: Router, links: seq<TopologyLink>, index: nat, r: Id)
    requires links != [] && now == LinkedRouters(rs, links[|links| - 1], index)
    requires EndsAddressed(rs, links[..|links| - 1]) && RecordsAll(rs, before, links[..|links| - 1], r)
    ensures RecordsAll(now, before, links, r)
  {
    var front, l := links[..|links| - 1], links[|links| - 1];
    assert front + [l] == links;
    LinkedRecords(rs, before, front, l, index, r);
    assert RecordsAll(now, before, front + [l], r);
  }

  lemma AppliedLast(c: Content, links: seq<TopologyLink>, index: nat)
    requires links != []
    ensures Applied(c, links, index).routers == LinkedRouters(Applied(c, links[..|links| - 1], index).routers, links[|links| - 1], index)
  {}

  /** Neighbours of all links at once: each port records the far end of its last link, at the
      address that it has in the end. */
  lemma {:induction false} AppliedRecords(c: Content, links: seq<TopologyLink>, index: nat, r: Id)
    requires r in c.routers
    ensures RecordsAll(Applied(c, links, index).routers, c.routers[r], links, r)
    decreases |links|
  {
    if links == [] {
      NothingRecorded(c.routers, r);
    } else {
      AppliedRecords(c, links[..|links| - 1], index, r);
      AppliedIsAddressed(c, links[..|links| - 1], index);
      AppliedLast(c, links, index);
      RecordsOneMore(Applied(c, links[..|links| - 1], index).routers, Applied(c, links, index).routers, c.routers[r], links, index, r);
    }
  }
}
