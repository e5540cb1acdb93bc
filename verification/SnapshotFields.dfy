/** Which field of a snapshot holds which setting, in both directions. */
module SnapshotFields {
  import opened Addressing
  import opened Listings
  import opened RouterProcesses
  import opened RoutingTable
  import opened Snapshots
  import Switching

  /** The settings of a saved router, field by field. */
  lemma ExportedSettings(r: Router, rs: RouterSnapshot)
    requires ExportsRouter(r, rs)
    ensures rs.ospfEnabled == r.settings.ospf.Some? && rs.ripEnabled == r.settings.rip.Some?
    ensures rs.eigrpEnabled == r.settings.eigrp.Some? && rs.bgpEnabled == r.settings.bgp.Some?
    ensures r.settings.ospf.Some? ==>
              rs.ospfProcessID == r.settings.ospf.value.processID && rs.ospfNetworks == r.settings.ospf.value.networks
    ensures r.settings.rip.Some? ==> rs.ripNetworks == r.settings.rip.value.networks
    ensures r.settings.eigrp.Some? ==>
              rs.eigrpAS == r.settings.eigrp.value.asNumber && rs.eigrpNetworks == r.settings.eigrp.value.networks
    ensures r.settings.bgp.Some? ==> rs.bgpLocalAS == r.settings.bgp.value.localAS
  {}

  /** Its interfaces and static routes: each port once, and the rows in order. */
  lemma ExportedRows(r: Router, rs: RouterSnapshot, p: PortId)
    requires ExportsRouter(r, rs)
    ensures p in r.interfaces <==> exists i :: i in rs.interfaces && i.port == p
    ensures forall i :: i in rs.interfaces && i.port == p ==>
              p in r.interfaces && i.ip == r.interfaces[p].ip && i.mask == r.interfaces[p].mask && i.mac == r.interfaces[p].mac
    ensures |rs.interfaces| == |r.interfaces| && |rs.staticRoutes| == |r.statics|
    ensures forall k :: 0 <= k < |r.statics| ==>
              var s, e := rs.staticRoutes[k], r.statics[k];
              s.cidr == Block(e.network.base, e.network.ones) && s.nextHop == e.nextHop && s.iface == e.iface && s.metric == e.metric
  {
    ListedCount(rs.interfaces, PortOf, r.interfaces.Keys);
    if p in r.interfaces {
      var i :| 0 <= i < |rs.interfaces| && PortOf(rs.interfaces[i]) == p;
      assert rs.interfaces[i] in rs.interfaces;
    }
  }

  /** The settings of a restored router, field by field. */
  lemma RestoredSettings(rs: RouterSnapshot, ids: RouterIds)
    ensures var s := RestoredRouter(rs, ids).settings;
            && s.ospf.Some? == rs.ospfEnabled && s.rip.Some? == rs.ripEnabled
            && s.eigrp.Some? == rs.eigrpEnabled && s.bgp.Some? == rs.bgpEnabled
            && (rs.ospfEnabled ==> s.ospf.value.processID == rs.ospfProcessID && s.ospf.value.networks == rs.ospfNetworks)
            && (rs.ripEnabled ==> s.rip.value.networks == rs.ripNetworks && s.rip.value.neighbors == map[])
            && (rs.eigrpEnabled ==> s.eigrp.value.asNumber == rs.eigrpAS && s.eigrp.value.networks == rs.eigrpNetworks)
            && (rs.bgpEnabled ==> s.bgp.value.localAS == rs.bgpLocalAS)
  {}

  /** Of several entries for one key the last one counts. */
  lemma {:induction false} LastEntryCounts<T, K, V>(list: seq<T>, key: T -> K, val: T -> V, i: nat)
    requires i < |list| && forall j :: i < j < |list| ==> key(list[j]) != key(list[i])
    ensures key(list[i]) in FromList(list, key, val) && FromList(list, key, val)[key(list[i])] == val(list[i])
    decreases |list|
  {
    if i < |list| - 1 {
      LastEntryCounts(list[..|list| - 1], key, val, i);
    }
  }

  lemma RestoredIface(rs: RouterSnapshot, ids: RouterIds, i: nat)
    requires i < |rs.interfaces| && forall j :: i < j < |rs.interfaces| ==> rs.interfaces[j].port != rs.interfaces[i].port
    ensures var entry, ifaces := rs.interfaces[i], RestoredRouter(rs, ids).interfaces;
            entry.port in ifaces && ifaces[entry.port] == Iface(entry.ip, entry.mask, entry.mac)
  {
    LastEntryCounts(rs.interfaces, PortOf, IfaceOf, i);
  }

  /** The row says what the saved route says. */
  predicate SaysRoute(e: RouteEntry, s: StaticRouteSnap) {
    && ParseCidr(s.cidr) == Some(e.network) && e.nextHop == s.nextHop && e.iface == s.iface && e.metric == s.metric
    && e.proto == FromStatic && e.adminDist == 1
  }

  /** Every restored static row is one of the saved routes. */
  lemma {:induction false} RowIsSaved(routes: seq<StaticRouteSnap>, e: RouteEntry) returns (s: StaticRouteSnap)
    requires e in RestoredStatics(routes)
    ensures s in routes && SaysRoute(e, s)
    decreases |routes|
  {
    var front, last := routes[..|routes| - 1], routes[|routes| - 1];
    if e in RestoredStatics(front) {
      s := RowIsSaved(front, e);
    } else {
      s := last;
      RestoredStaticsAreSound(front);
      InsertRows(RestoredStatics(front), StaticRow(ParseCidr(s.cidr).value, s));
    }
  }

  /** The last saved route of a network is restored as its row. */
  lemma {:induction false} LastRouteIsRestored(routes: seq<StaticRouteSnap>, k: nat) returns (e: RouteEntry)
    requires k < |routes| && ParseCidr(routes[k].cidr).Some?
    requires forall j :: k < j < |routes| ==> ParseCidr(routes[j].cidr) != ParseCidr(routes[k].cidr)
    ensures e in RestoredStatics(routes) && SaysRoute(e, routes[k])
    decreases |routes|
  {
    var front, last := routes[..|routes| - 1], routes[|routes| - 1];
    RestoredStaticsAreSound(front);
    if k == |routes| - 1 {
      e := StaticRow(ParseCidr(last.cidr).value, last);
    } else {
      e := LastRouteIsRestored(front, k);
    }
    if ParseCidr(last.cidr).Some? {
      InsertRows(RestoredStatics(front), StaticRow(ParseCidr(last.cidr).value, last));
    }
  }

  /** A restored switch: ports as new, VLAN numbers modulo 65536, and VLAN 1. */
  lemma RestoredSwitchFields(ss: SwitchSnapshot)
    ensures var sw := RestoredSwitch(ss);
            && (forall p :: p in sw.ports <==> p in ss.ports)
            && (forall p :: p in sw.ports ==> sw.ports[p] == Switching.PortConfig(Switching.Access, 1, 1, [], true))
            && (forall v :: v in sw.vlans <==> v == 1 || exists w :: w in ss.vlans && v == w % 65_536)
            && sw.rest == AsNew
  {}

  /** A restored host holds what was saved. */
  lemma RestoredHostFields(hs: HostSnapshot)
    ensures var h := RestoredHost(hs);
            && h.ip == hs.ip && h.mask == hs.mask && h.gateway == hs.gateway && h.mac == hs.mac
            && h.port == hs.port && h.uplink == hs.uplink && h.rest == AsNew
  {}
}
