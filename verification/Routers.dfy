/** A router: its interfaces, forwarding table and routing processes. */
module Routers {
  import opened Addressing
  import opened DistanceVector
  import opened RoutingTable
  import opened Daemons

  datatype IfacePolicy = IfacePolicy(up: bool, shutdown: bool)

  predicate PolicyUp(policies: map<PortId, IfacePolicy>, portID: PortId) {
    portID in policies ==> policies[portID].up && !policies[portID].shutdown
  }

  /** Reading a missing key of the interface map gives the empty string. */
  function Lookup(addresses: map<PortId, IPAddress>, portID: PortId): IPAddress {
    if portID in addresses then addresses[portID] else UNSET
  }

  /** The network of a port, as the advertisement builders write it; a missing mask means /24. */
  function PortCidr(addresses: map<PortId, IPAddress>, masks: map<PortId, Mask>, portID: PortId): Cidr {
    IpToCidr(Lookup(addresses, portID), MaskOrDefault(if portID in masks then masks[portID] else Missing))
  }

  function ConnectedOf(addresses: map<PortId, IPAddress>, masks: map<PortId, Mask>): set<Cidr> {
    set p | p in addresses :: PortCidr(addresses, masks, p)
  }

  /** The route list holds the connected networks at metric 1 and every learned route. */
  ghost predicate Covers(routes: seq<Route>, nets: set<Cidr>, t: Table) {
    && (forall n :: n in nets ==> exists rt :: rt in routes && rt.network == n && rt.metric == 1)
    && (forall n :: n in t ==> t[n] in routes && t[n].network == n)
    && (forall rt :: rt in routes ==> (rt.network in nets && rt.metric == 1) || (rt.network in t && t[rt.network] == rt))
  }

  lemma EntriesOf(routes: seq<Route>, entries: seq<Entry>, nets: set<Cidr>, t: Table)
    requires Covers(routes, nets, t) && |entries| == |routes|
    requires forall i :: 0 <= i < |entries| ==> entries[i] == Entry(routes[i].network, routes[i].metric)
    ensures IsAdvertisement(RIP, nets, t, entries)
  {
    forall rt | rt in routes ensures Entry(rt.network, rt.metric) in entries {
      var i :| 0 <= i < |routes| && routes[i] == rt;
      assert entries[i] == Entry(rt.network, rt.metric);
    }
    forall n | n in nets ensures Entry(n, 1) in entries {
      var rt :| rt in routes && rt.network == n && rt.metric == 1;
    }
    forall e | e in entries
      ensures (e.network in nets && e.metric == 1) || (e.network in t && e.metric == t[e.network].metric)
    {
      var i :| 0 <= i < |entries| && entries[i] == e;
      assert routes[i] in routes;
    }
  }

  class Router {
    const ID: RouterId
    var Interfaces: map<PortId, IPAddress>
    var InterfaceMask: map<PortId, Mask>
    var RoutingTable: seq<RouteEntry>
    var Rip: RipDaemon?
    var Eigrp: EigrpDaemon?

    constructor (id: RouterId)
      ensures ID == id && Interfaces == map[] && InterfaceMask == map[]
      ensures RoutingTable == [] && Rip == null && Eigrp == null
    {
      ID := id;
      Interfaces, InterfaceMask := map[], map[];
      RoutingTable, Rip, Eigrp := [], null, null;
    }

    /** A router with these interfaces and this table, and these processes running. */
    constructor Running(id: RouterId, addresses: map<PortId, IPAddress>, masks: map<PortId, Mask>, table: seq<RouteEntry>,
                        rip: RipDaemon?, eigrp: EigrpDaemon?)
      ensures ID == id && Interfaces == addresses && InterfaceMask == masks && RoutingTable == table && Rip == rip && Eigrp == eigrp
    {
      ID := id;
      Interfaces, InterfaceMask := addresses, masks;
      RoutingTable, Rip, Eigrp := table, rip, eigrp;
    }

    function PortNetwork(portID: PortId): Cidr
      reads this`Interfaces, this`InterfaceMask
    {
      PortCidr(Interfaces, InterfaceMask, portID)
    }

    ghost function ConnectedNetworks(): set<Cidr>
      reads this`Interfaces, this`InterfaceMask
    {
      ConnectedOf(Interfaces, InterfaceMask)
    }

    /** Parses the block and overwrites the row of the same network and protocol, or appends. */
    method AddRoute(cidr: Cidr, nextHop: IPAddress, outInterface: PortId, metric: int, proto: RouteProtocol, adminDist: int)
      returns (ok: bool)
      modifies this`RoutingTable
      ensures ok == ParseCidr(cidr).Some?
      ensures RoutingTable ==
              if ok then Insert(old(RoutingTable), RouteEntry(ParseCidr(cidr).value, nextHop, outInterface, metric, proto, adminDist))
              else old(RoutingTable)
    {
      var parsed := ParseCidr(cidr);
      if parsed.None? {
        return false;
      }
      var row := RouteEntry(parsed.value, nextHop, outInterface, metric, proto, adminDist);
      for i := 0 to |RoutingTable|
        invariant RoutingTable == old(RoutingTable)
        invariant forall k :: 0 <= k < i ==> !SameKey(RoutingTable[k], row)
      {
        if RoutingTable[i].network == parsed.value && RoutingTable[i].proto == proto {
          InsertAt(RoutingTable, row, i);
          RoutingTable := RoutingTable[i := row];
          return true;
        }
      }
      InsertNew(RoutingTable, row);
      RoutingTable := RoutingTable + [row];
      return true;
    }

    method RemoveRoutesByProtocol(proto: RouteProtocol)
      modifies this`RoutingTable
      ensures RoutingTable == Without(old(RoutingTable), proto)
    {
      var filtered := [];
      for i := 0 to |RoutingTable|
        invariant RoutingTable == old(RoutingTable)
        invariant filtered == Without(RoutingTable[..i], proto)
      {
        assert RoutingTable[..i + 1] == RoutingTable[..i] + [RoutingTable[i]];
        WithoutAppend(RoutingTable[..i], RoutingTable[i], proto);
        if RoutingTable[i].proto != proto {
          filtered := filtered + [RoutingTable[i]];
        }
      }
      assert RoutingTable[..|RoutingTable|] == RoutingTable;
      RoutingTable := filtered;
    }

    /** Longest prefix match; an address that does not parse is contained in no network. */
    method MatchRoute(destIP: IPAddress) returns (bestMatch: Option<RouteEntry>)
      ensures bestMatch == if destIP.V4? then Scan(RoutingTable, destIP.addr) else None
      ensures bestMatch.Some? ==> destIP.V4? && IsBest(RoutingTable, destIP.addr, bestMatch.value)
      ensures bestMatch.None? ==> destIP.Text? || forall e :: e in RoutingTable ==> !Contains(e.network, destIP.addr)
      ensures TableOk(RoutingTable) && destIP.V4? ==>
                match bestMatch
                case None => forall x :: x in RoutingTable ==> !InBlock(x.network, destIP.addr)
                case Some(e) =>
                  && e in RoutingTable && InBlock(e.network, destIP.addr)
                  && forall x :: x in RoutingTable && InBlock(x.network, destIP.addr) && x != e ==>
                       x.network.ones < e.network.ones || (x.network.ones == e.network.ones && e.adminDist < x.adminDist)
    {
      bestMatch := None;
      var bestMaskLen: int := -1;
      var bestAdminDist := 999999;
      for i := 0 to |RoutingTable|
        invariant bestMatch == if destIP.V4? then Scan(RoutingTable[..i], destIP.addr) else None
        invariant bestMatch.Some? ==> bestMaskLen == bestMatch.value.network.ones && bestAdminDist == bestMatch.value.adminDist
        invariant bestMatch.None? ==> bestMaskLen == -1
      {
        var entry := RoutingTable[i];
        assert RoutingTable[..i + 1][..i] == RoutingTable[..i];
        if destIP.V4? && Contains(entry.network, destIP.addr) {
          var ones := entry.network.ones;
          if ones > bestMaskLen || (ones == bestMaskLen && entry.adminDist < bestAdminDist) {
            bestMaskLen := ones;
            bestAdminDist := entry.adminDist;
            bestMatch := Some(entry);
          }
        }
      }
      assert RoutingTable[..|RoutingTable|] == RoutingTable;
      if destIP.V4? {
        ScanIsBest(RoutingTable, destIP.addr);
        if TableOk(RoutingTable) {
          LongestPrefixWins(RoutingTable, destIP.addr);
        }
      }
    }

    /** The connected networks at metric 1, then the learned routes. */
    method BuildRipAdvertisement() returns (routes: seq<Route>)
      ensures forall n :: n in ConnectedNetworks() ==> exists rt :: rt in routes && rt.network == n && rt.metric == 1
      ensures Rip != null ==> forall n :: n in Rip.Routes ==> Rip.Routes[n] in routes
      ensures forall rt :: rt in routes ==>
                (rt.network in ConnectedNetworks() && rt.metric == 1)
                || (Rip != null && exists n :: n in Rip.Routes && Rip.Routes[n] == rt)
    {
      routes := [];
      var todo := Interfaces.Keys;
      while todo != {}
        invariant todo <= Interfaces.Keys
        invariant forall p :: p in Interfaces && p !in todo ==> exists rt :: rt in routes && rt.network == PortNetwork(p) && rt.metric == 1
        invariant forall rt :: rt in routes ==> rt.network in ConnectedNetworks() && rt.metric == 1
        decreases todo
      {
        var portID :| portID in todo;
        var mask := if portID in InterfaceMask then InterfaceMask[portID] else Missing;
        if mask == Missing {
          mask := Ones(24);
        }
        var rt := Route(IpToCidr(Interfaces[portID], mask), V4(0), portID, 1, 0);
        ghost var before := routes;
        routes := routes + [rt];
        forall p | p in Interfaces && p !in todo - {portID}
          ensures exists x :: x in routes && x.network == PortNetwork(p) && x.metric == 1
        {
          if p == portID {
            assert rt in routes;
          } else {
            var x :| x in before && x.network == PortNetwork(p) && x.metric == 1;
            assert x in routes;
          }
        }
        todo := todo - {portID};
      }
      if Rip != null {
        var learned := Rip.GetRoutes();
        ghost var local := routes;
        routes := routes + learned;
        forall n | n in ConnectedNetworks() ensures exists rt :: rt in routes && rt.network == n && rt.metric == 1 {
          var p :| p in Interfaces && PortNetwork(p) == n;
          var x :| x in local && x.network == PortNetwork(p) && x.metric == 1;
          assert x in routes;
        }
      }
    }

    /** The response sent to neighbours: BuildRipAdvertisement followed by BuildUpdate. */
    method BuildRipUpdate() returns (update: seq<Entry>)
      requires Rip != null && Keyed(Rip.Routes)
      ensures IsAdvertisement(RIP, ConnectedNetworks(), Rip.Routes, update)
    {
      var localRoutes := BuildRipAdvertisement();
      update := Rip.BuildUpdate(localRoutes);
      EntriesOf(localRoutes, update, ConnectedNetworks(), Rip.Routes);
    }

    /** HandleWireRIP: the daemon learns and every updated route is installed, in order. */
    method HandleWireRip(portID: PortId, wire: seq<Entry>, senderIP: IPAddress, simTime: int)
      modifies this`RoutingTable, (if Rip == null then {} else {Rip})`Routes
      ensures Rip != null && Rip.Enabled ==>
                && Rip.Routes == Learn(RIP, old(Rip.Routes), wire, senderIP, portID, simTime)
                && RoutingTable == Install(old(RoutingTable), Learned(RIP, old(Rip.Routes), wire, senderIP, portID, simTime), FromRip)
      ensures Rip == null || !Rip.Enabled ==> RoutingTable == old(RoutingTable)
      ensures Rip != null && !Rip.Enabled ==> Rip.Routes == old(Rip.Routes)
    {
      if Rip == null || !Rip.Enabled {
        return;
      }
      var newRoutes := Rip.ProcessUpdate(wire, senderIP, portID, simTime);
      for i := 0 to |newRoutes|
        invariant RoutingTable == Install(old(RoutingTable), newRoutes[..i], FromRip)
        invariant Rip.Routes == Learn(RIP, old(Rip.Routes), wire, senderIP, portID, simTime)
      {
        assert newRoutes[..i + 1][..i] == newRoutes[..i];
        var rt := newRoutes[i];
        var _ := AddRoute(rt.network, rt.nextHop, rt.iface, rt.metric, FromRip, 120);
      }
      assert newRoutes[..|newRoutes|] == newRoutes;
    }

    /** The connected networks at metric 100. */
    method BuildEigrpAdvertisement() returns (local: seq<Entry>)
      ensures forall n :: n in ConnectedNetworks() ==> Entry(n, 100) in local
      ensures forall e :: e in local ==> e.network in ConnectedNetworks() && e.metric == 100
    {
      local := [];
      var todo := Interfaces.Keys;
      while todo != {}
        invariant todo <= Interfaces.Keys
        invariant forall p :: p in Interfaces && p !in todo ==> Entry(PortNetwork(p), 100) in local
        invariant forall e :: e in local ==> e.network in ConnectedNetworks() && e.metric == 100
        decreases todo
      {
        var portID :| portID in todo;
        var mask := if portID in InterfaceMask then InterfaceMask[portID] else Missing;
        if mask == Missing {
          mask := Ones(24);
        }
        local := local + [Entry(IpToCidr(Interfaces[portID], mask), 100)];
        todo := todo - {portID};
      }
    }

    /** The advertisement sent to neighbours: BuildEigrpAdvertisement, then GetAdvertisement. */
    method BuildEigrpUpdate() returns (advert: seq<Entry>)
      requires Eigrp != null && Keyed(Eigrp.Routes)
      ensures IsAdvertisement(EIGRP, ConnectedNetworks(), Eigrp.Routes, advert)
    {
      var local := BuildEigrpAdvertisement();
      advert := Eigrp.GetAdvertisement(local);
    }

    /** The neighbour's part of an EIGRP update: the daemon learns and every updated route is installed. */
    method HandleEigrpUpdate(portID: PortId, advert: seq<Entry>, senderIP: IPAddress, simTime: int)
      requires Eigrp != null
      modifies this`RoutingTable, Eigrp`Routes
      ensures Eigrp.Routes == Learn(EIGRP, old(Eigrp.Routes), advert, senderIP, portID, simTime)
      ensures RoutingTable == Install(old(RoutingTable), Learned(EIGRP, old(Eigrp.Routes), advert, senderIP, portID, simTime), FromEigrp)
    {
      var newRoutes := Eigrp.ProcessUpdate(advert, senderIP, portID, simTime);
      for i := 0 to |newRoutes|
        invariant RoutingTable == Install(old(RoutingTable), newRoutes[..i], FromEigrp)
        invariant Eigrp.Routes == Learn(EIGRP, old(Eigrp.Routes), advert, senderIP, portID, simTime)
      {
        assert newRoutes[..i + 1][..i] == newRoutes[..i];
        var rt := newRoutes[i];
        var _ := AddRoute(rt.network, rt.nextHop, rt.iface, rt.metric, FromEigrp, 90);
      }
      assert newRoutes[..|newRoutes|] == newRoutes;
    }
  }
}
