/** Removing a device from the simulation: its links and sessions go, and every remaining router
    forgets its addresses.
 */
module Removal {
  import opened Addressing
  import opened RoutingTable
  import opened Topology
  import opened Ping
  import Scheduler

  datatype CdpNeighbor = CdpNeighbor(deviceID: Id, localPort: PortId)

  /** `routerID` is fixed when the process is enabled; neighbours and LSAs are keyed by such IDs. */
  datatype OspfState = OspfState(enabled: bool, routerID: IPAddress, neighbors: map<IPAddress, nat>, lsdb: map<IPAddress, nat>)

  /** What a router knows about others; payloads that the removal never reads are numbers.
      `uncleaned` are the addresses in all tables that the removal never visits: next hops and
      peers inside the RIP, EIGRP and BGP processes, NAT and PAT entries, DHCP leases, crypto-map
      peers and pre-shared keys. */
  datatype RouterState = RouterState(
    interfaces: map<PortId, IPAddress>, routes: seq<RouteEntry>, arpCache: map<IPAddress, nat>,
    packetQueue: map<IPAddress, nat>, cdp: seq<CdpNeighbor>, portNeighbors: map<PortId, PortNeighbor>,
    ospf: Option<OspfState>, ripNeighbors: Option<map<PortId, IPAddress>>, ikePeers: map<IPAddress, nat>,
    uncleaned: set<IPAddress>)

  datatype Gateway = Gateway(interfaces: map<PortId, IPAddress>, publicIP: IPAddress, privateIP: IPAddress)

  datatype Phone = Phone(dataIP: IPAddress, voiceIP: IPAddress)

  /** The manager's devices by kind, its links and its ping sessions. */
  datatype Network = Network(
    routers: map<Id, RouterState>, hosts: map<Id, IPAddress>, gateways: map<Id, Gateway>, mobiles: map<Id, IPAddress>,
    firewalls: map<Id, map<PortId, IPAddress>>, phones: map<Id, Phone>, switches: set<Id>, accessPoints: set<Id>,
    links: seq<TopologyLink>, sessions: Sessions)

  // ---------------------------------------------------------------- what the removal keeps

  /** Connected routes stay; any other goes when its next hop is a removed address. */
  predicate KeepsRoute(e: RouteEntry, ips: set<IPAddress>) {
    e.proto == FromConnected || e.nextHop !in ips
  }

  predicate KeepsLink(l: TopologyLink, node: Id) {
    l.source.node != node && l.target.node != node
  }

  /** The elements that satisfy `keep`, in order. */
  function Filter<T>(s: seq<T>, keep: T -> bool): seq<T>
    decreases |s|
  {
    if s == [] then []
    else Filter(s[..|s| - 1], keep) + if keep(s[|s| - 1]) then [s[|s| - 1]] else []
  }

  function Select<K, V>(m: map<K, V>, keep: (K, V) -> bool): map<K, V> {
    map k | k in m && keep(k, m[k]) :: m[k]
  }

  function RouteKeeper(ips: set<IPAddress>): RouteEntry -> bool {
    e => KeepsRoute(e, ips)
  }

  function LinkKeeper(node: Id): TopologyLink -> bool {
    l => KeepsLink(l, node)
  }

  function CdpKeeper(node: Id): CdpNeighbor -> bool {
    (n: CdpNeighbor) => n.deviceID != node
  }

  function PortKeeper(node: Id): (PortId, PortNeighbor) -> bool {
    (p, n: PortNeighbor) => n.routerID != node
  }

  function NextHopKeeper(ips: set<IPAddress>): (PortId, IPAddress) -> bool {
    (p, ip) => ip !in ips
  }

  function AddressKeeper(ips: set<IPAddress>): (IPAddress, nat) -> bool {
    (ip, n) => ip !in ips
  }

  /** The removed device's name, as the link-state database would key it. */
  function NameKey(node: Id): IPAddress {
    Text(node.name)
  }

  function PurgedOspf(o: OspfState, node: Id, ips: set<IPAddress>): OspfState {
    if o.enabled then o.(neighbors := o.neighbors - ips, lsdb := o.lsdb - {NameKey(node)} - ips) else o
  }

  /** The router after the device `node` with the addresses `ips` is gone. */
  function Purged(r: RouterState, node: Id, ips: set<IPAddress>): RouterState {
    r.(
    routes := Filter(r.routes, RouteKeeper(ips)),
    arpCache := r.arpCache - ips,
    packetQueue := r.packetQueue - ips,
    cdp := Filter(r.cdp, CdpKeeper(node)),
    portNeighbors := Select(r.portNeighbors, PortKeeper(node)),
    ospf := if r.ospf.Some? then Some(PurgedOspf(r.ospf.value, node, ips)) else None,
    ripNeighbors := if r.ripNeighbors.Some? then Some(Select(r.ripNeighbors.value, NextHopKeeper(ips))) else None,
    ikePeers := r.ikePeers - ips)
  }

  function SetOnly(ip: IPAddress): set<IPAddress> {
    if ip == UNSET then {} else {ip}
  }

  /** The addresses collected for the device: those of hosts and routers even when unset, none of
      firewalls and phones, and not the private address of a gateway. */
  function AddressesOf(n: Network, node: Id): set<IPAddress> {
    (if node in n.routers then n.routers[node].interfaces.Values else {})
    + (if node in n.hosts then {n.hosts[node]} else {})
    + (if node in n.gateways then n.gateways[node].interfaces.Values + SetOnly(n.gateways[node].publicIP) else {})
    + (if node in n.mobiles then SetOnly(n.mobiles[node]) else {})
  }

  predicate IsDevice(n: Network, node: Id) {
    || node in n.routers || node in n.hosts || node in n.gateways || node in n.mobiles
    || node in n.switches || node in n.accessPoints || node in n.firewalls || node in n.phones
  }

  function PurgedRouters(routers: map<Id, RouterState>, node: Id, ips: set<IPAddress>): map<Id, RouterState> {
    map r | r in routers && r != node :: Purged(routers[r], node, ips)
  }

  function Removed(n: Network, node: Id): Network {
    Network(
      PurgedRouters(n.routers, node, AddressesOf(n, node)), n.hosts - {node}, n.gateways - {node}, n.mobiles - {node},
      n.firewalls - {node}, n.phones - {node}, n.switches - {node}, n.accessPoints - {node},
      Filter(n.links, LinkKeeper(node)), WithoutSource(n.sessions, node))
  }

  // ---------------------------------------------------------------- one router, in place

  /** Deletes from a map while ranging over it. */
  method DeleteUnless<K(==), V>(m: map<K, V>, keep: (K, V) -> bool) returns (r: map<K, V>)
    ensures r == Select(m, keep)
  {
    r := m;
    var todo := m.Keys;
    while todo != {}
      invariant todo <= m.Keys
      invariant forall k :: k in r <==> k in m && (k in todo || keep(k, m[k]))
      invariant forall k :: k in r ==> r[k] == m[k]
      decreases todo
    {
      var k :| k in todo;
      todo := todo - {k};
      if !keep(k, r[k]) {
        r := r - {k};
      }
    }
  }

  /** Moves the elements to keep to the front of the slice `a[..used]` and returns its new length. */
  method CompactInPlace<T>(a: array<T>, used: nat, keep: T -> bool) returns (live: nat)
    requires used <= a.Length
    modifies a
    ensures live <= used && a[..live] == Filter(old(a[..used]), keep)
    ensures a[used..] == old(a[used..])
  {
    live := 0;
    ghost var was := a[..];
    for i := 0 to used
      invariant live <= i && a[..live] == Filter(was[..i], keep)
      invariant forall k :: i <= k < a.Length ==> a[k] == was[k]
    {
      assert was[..i + 1][..i] == was[..i];
      if keep(a[i]) {
        a[live] := a[i];
        live := live + 1;
      }
    }
  }

  class Router {
    var Interfaces: map<PortId, IPAddress>
    var RouteArray: array<RouteEntry>
    var Routes: nat
    var ArpCache: map<IPAddress, nat>
    var PacketQueue: map<IPAddress, nat>
    var CdpArray: array<CdpNeighbor>
    var Cdps: nat
    var PortNeighbors: map<PortId, PortNeighbor>
    var Ospf: Option<OspfState>
    var RipNeighbors: Option<map<PortId, IPAddress>>
    var IKEPeers: map<IPAddress, nat>
    var Uncleaned: set<IPAddress>

    predicate Valid()
      reads this
    {
      Routes <= RouteArray.Length && Cdps <= CdpArray.Length && CdpArray as object != RouteArray as object
    }

    function View(): RouterState
      requires Valid()
      reads this, RouteArray, CdpArray
    {
      RouterState(Interfaces, RouteArray[..Routes], ArpCache, PacketQueue, CdpArray[..Cdps], PortNeighbors, Ospf, RipNeighbors, IKEPeers, Uncleaned)
    }

    constructor (r: RouterState)
      ensures Valid() && View() == r && fresh(RouteArray) && fresh(CdpArray)
    {
      Interfaces, ArpCache, PacketQueue, PortNeighbors := r.interfaces, r.arpCache, r.packetQueue, r.portNeighbors;
      Ospf, RipNeighbors, IKEPeers, Uncleaned := r.ospf, r.ripNeighbors, r.ikePeers, r.uncleaned;
      Routes, Cdps := |r.routes|, |r.cdp|;
      RouteArray := new RouteEntry[|r.routes|](i requires 0 <= i < |r.routes| => r.routes[i]);
      CdpArray := new CdpNeighbor[|r.cdp|](i requires 0 <= i < |r.cdp| => r.cdp[i]);
    }

    method PurgeReferences(node: Id, ips: set<IPAddress>)
      requires Valid()
      modifies this, RouteArray, CdpArray
      ensures Valid() && View() == Purged(old(View()), node, ips)
    {
      ghost var was := View();
      PurgeTables(ips);
      PurgeProtocols(node, ips);
      assert was.routes == RouteArray[..Routes] && was.cdp == CdpArray[..Cdps];
      PurgeSlices(node, ips);
      assert View().routes == Filter(was.routes, RouteKeeper(ips)) && View().cdp == Filter(was.cdp, CdpKeeper(node));
    }

    method PurgeSlices(node: Id, ips: set<IPAddress>)
      requires Valid()
      modifies this`Cdps, this`Routes, RouteArray, CdpArray
      ensures Valid() && RouteArray[..Routes] == Filter(old(RouteArray[..Routes]), RouteKeeper(ips))
      ensures CdpArray[..Cdps] == Filter(old(CdpArray[..Cdps]), CdpKeeper(node))
    {
      Cdps := CompactInPlace(CdpArray, Cdps, CdpKeeper(node));
      Routes := CompactInPlace(RouteArray, Routes, RouteKeeper(ips));
    }

    method PurgeProtocols(node: Id, ips: set<IPAddress>)
      modifies this`PortNeighbors, this`Ospf, this`RipNeighbors
      ensures PortNeighbors == Select(old(PortNeighbors), PortKeeper(node))
      ensures Ospf == if old(Ospf).Some? then Some(PurgedOspf(old(Ospf).value, node, ips)) else None
      ensures RipNeighbors == if old(RipNeighbors).Some? then Some(Select(old(RipNeighbors).value, NextHopKeeper(ips))) else None
    {
      PortNeighbors := DeleteUnless(PortNeighbors, PortKeeper(node));
      if Ospf.Some? && Ospf.value.enabled {
        var neighbors := DeleteUnless(Ospf.value.neighbors, AddressKeeper(ips));
        assert neighbors == Ospf.value.neighbors - ips;
        var lsdb := DeleteUnless(Ospf.value.lsdb - {NameKey(node)}, AddressKeeper(ips));
        assert lsdb == Ospf.value.lsdb - {NameKey(node)} - ips;
        Ospf := Some(Ospf.value.(neighbors := neighbors, lsdb := lsdb));
      }
      if RipNeighbors.Some? {
        var neighbors := DeleteUnless(RipNeighbors.value, NextHopKeeper(ips));
        RipNeighbors := Some(neighbors);
      }
    }

    /** The caches keyed by address. */
    method PurgeTables(ips: set<IPAddress>)
      modifies this`ArpCache, this`PacketQueue, this`IKEPeers
      ensures ArpCache == old(ArpCache) - ips && PacketQueue == old(PacketQueue) - ips && IKEPeers == old(IKEPeers) - ips
    {
      ArpCache := DeleteUnless(ArpCache, AddressKeeper(ips));
      PacketQueue := DeleteUnless(PacketQueue, AddressKeeper(ips));
      IKEPeers := DeleteUnless(IKEPeers, AddressKeeper(ips));
    }
  }

  // ---------------------------------------------------------------- the manager

  class Manager {
    var net: Network
    const pings: PingManager

    ghost function View(): Network
      reads this, pings
    {
      net.(sessions := pings.pingSessions)
    }

    constructor (net: Network, pings: PingManager)
      ensures this.net == net && this.pings == pings
    {
      this.net, this.pings := net, pings;
    }

    /** The remaining routers, each purged in place. */
    method PurgeRouters(routers: map<Id, RouterState>, node: Id, ips: set<IPAddress>) returns (m: map<Id, RouterState>)
      ensures m == PurgedRouters(routers, node, ips)
    {
      m := map[];
      var todo := routers.Keys - {node};
      while todo != {}
        invariant todo <= routers.Keys - {node}
        invariant m == PurgedRouters(routers - todo, node, ips)
        decreases todo
      {
        var id :| id in todo;
        var q := PurgeRouter(routers[id], node, ips);
        assert PurgedRouters(routers - (todo - {id}), node, ips) == PurgedRouters(routers - todo, node, ips)[id := q];
        m := m[id := q];
        todo := todo - {id};
      }
      assert routers - {} == routers;
    }

    method PurgeRouter(r: RouterState, node: Id, ips: set<IPAddress>) returns (q: RouterState)
      ensures q == Purged(r, node, ips)
    {
      var router := new Router(r);
      router.PurgeReferences(node, ips);
      q := router.View();
    }

    /** Fails, changing nothing, when no device has this name. */
    method RemoveDevice(node: Id) returns (ok: bool)
      requires pings.Valid()
      modifies this, pings
      ensures pings.Valid()
      ensures var n := old(View());
              ok <==> || node in n.routers || node in n.hosts || node in n.gateways || node in n.mobiles
                      || node in n.switches || node in n.accessPoints || node in n.firewalls || node in n.phones
      ensures View() == if ok then Removed(old(View()), node) else old(View())
    {
      var ips := AddressesOf(net, node);
      if !IsDevice(net, node) {
        return false;
      }
      var links := [];
      for i := 0 to |net.links|
        invariant links == Filter(net.links[..i], LinkKeeper(node)) && net == old(net)
      {
        assert net.links[..i + 1][..i] == net.links[..i];
        if net.links[i].source.node != node && net.links[i].target.node != node {
          links := links + [net.links[i]];
        }
      }
      assert net.links[..|net.links|] == net.links;
      var remaining := PurgeRouters(net.routers, node, ips);
      net := Network(
        remaining, net.hosts - {node}, net.gateways - {node}, net.mobiles - {node},
        net.firewalls - {node}, net.phones - {node}, net.switches - {node}, net.accessPoints - {node}, links, net.sessions);
      ghost var order := pings.CancelSessionsOf(node);
      return true;
    }
  }

  // ---------------------------------------------------------------- filtering

  ghost predicate IsSubsequence<T>(a: seq<T>, b: seq<T>)
    decreases |b|
  {
    if b == [] then a == []
    else
      || IsSubsequence(a, b[..|b| - 1])
      || (a != [] && a[|a| - 1] == b[|b| - 1] && IsSubsequence(a[..|a| - 1], b[..|b| - 1]))
  }

  /** Exactly the elements to keep survive, as often as before and in their original order. */
  lemma {:induction false} FilterMeaning<T>(s: seq<T>, keep: T -> bool, x: T)
    ensures multiset(Filter(s, keep))[x] == if keep(x) then multiset(s)[x] else 0
    ensures x in Filter(s, keep) <==> x in s && keep(x)
    ensures IsSubsequence(Filter(s, keep), s)
    decreases |s|
  {
    if s != [] {
      var front, last := s[..|s| - 1], s[|s| - 1];
      FilterMeaning(front, keep, x);
      assert s == front + [last];
      var kept := Filter(front, keep);
      if keep(last) {
        assert (kept + [last])[..|kept|] == kept;
      } else {
        assert kept + [] == kept;
      }
    }
  }

  lemma {:induction false} FilterAgrees<T>(s: seq<T>, p: T -> bool, q: T -> bool)
    ensures Filter(s, p) == Filter(s, q) <==> forall x :: x in s ==> p(x) == q(x)
    decreases |s|
  {
    if s != [] {
      var front, last := s[..|s| - 1], s[|s| - 1];
      FilterAgrees(front, p, q);
      assert s == front + [last];
      if p(last) == q(last) {
        FilterCancels(Filter(front, p), Filter(front, q), if p(last) then [last] else []);
      } else {
        FilterMeaning(s, p, last);
        FilterMeaning(s, q, last);
      }
    }
  }

  lemma FilterCancels<T>(a: seq<T>, b: seq<T>, c: seq<T>)
    ensures a + c == b + c <==> a == b
  {
    if a + c == b + c {
      assert (a + c)[..|a|] == a && (b + c)[..|b|] == b;
    }
  }

  lemma {:induction false} FiltersCommute<T>(s: seq<T>, p: T -> bool, q: T -> bool)
    ensures Filter(Filter(s, p), q) == Filter(Filter(s, q), p)
    decreases |s|
  {
    if s != [] {
      var front, last := s[..|s| - 1], s[|s| - 1];
      FiltersCommute(front, p, q);
      assert (Filter(front, p) + [last])[..|Filter(front, p)|] == Filter(front, p);
      assert (Filter(front, q) + [last])[..|Filter(front, q)|] == Filter(front, q);
      assert Filter(front, p) + [] == Filter(front, p) && Filter(front, q) + [] == Filter(front, q);
    }
  }

  // ---------------------------------------------------------------- complete and framed

  // What a device owns, whether collected or not.

  function OwnedBy(n: Network, node: Id): set<IPAddress> {
    ((if node in n.routers then n.routers[node].interfaces.Values else {})
     + (if node in n.hosts then {n.hosts[node]} else {})
     + (if node in n.gateways
        then n.gateways[node].interfaces.Values + {n.gateways[node].publicIP, n.gateways[node].privateIP} else {})
     + (if node in n.mobiles then {n.mobiles[node]} else {})
     + (if node in n.firewalls then n.firewalls[node].Values else {})
     + (if node in n.phones then {n.phones[node].dataIP, n.phones[node].voiceIP} else {}))
    - {UNSET}
  }

  /** The device's OSPF router ID. */
  function OspfIdOf(n: Network, node: Id): set<IPAddress> {
    if node in n.routers && n.routers[node].ospf.Some? then {n.routers[node].ospf.value.routerID} else {}
  }

  predicate KnownToOspf(o: OspfState, key: IPAddress) {
    key in o.neighbors || key in o.lsdb
  }

  predicate OspfEnabled(r: RouterState) {
    r.ospf.Some? && r.ospf.value.enabled
  }

  /** A cache, peer, neighbour or route of the tables that the removal cleans names the address. */
  ghost predicate RefersTo(r: RouterState, ip: IPAddress) {
    || ip in r.arpCache || ip in r.packetQueue || ip in r.ikePeers
    || (exists e :: e in r.routes && e.proto != FromConnected && e.nextHop == ip)
    || (r.ripNeighbors.Some? && exists p :: p in r.ripNeighbors.value && r.ripNeighbors.value[p] == ip)
  }

  /** The router names the device by its name. */
  ghost predicate NamesDevice(r: RouterState, node: Id) {
    || (exists c :: c in r.cdp && c.deviceID == node)
    || (exists p :: p in r.portNeighbors && r.portNeighbors[p].routerID == node)
  }

  /** Nothing on this router refers to a device with these addresses and OSPF IDs. */
  ghost predicate Forgets(r: RouterState, node: Id, owned: set<IPAddress>, ids: set<IPAddress>) {
    && !NamesDevice(r, node)
    && (forall ip :: ip in owned ==> !RefersTo(r, ip) && ip !in r.uncleaned)
    && (r.ospf.Some? ==> forall key :: key in owned + ids + {NameKey(node)} ==> !KnownToOspf(r.ospf.value, key))
  }

  /** What a caller can check on a router before the removal: it holds no reference that the
      removal overlooks. These are references to an owned address that is not collected, any in
      the tables that it never visits, OSPF entries under an ID that is not collected, and OSPF entries of a
      process that is not enabled. */
  ghost predicate NothingOverlooked(r: RouterState, node: Id, owned: set<IPAddress>, ids: set<IPAddress>, ips: set<IPAddress>) {
    && (forall ip :: ip in owned && ip !in ips ==> !RefersTo(r, ip))
    && (forall ip :: ip in owned ==> ip !in r.uncleaned)
    && (r.ospf.Some? ==> forall key :: key in owned + ids + {NameKey(node)} && (r.ospf.value.enabled ==> key !in ips) ==>
          && key !in r.ospf.value.neighbors
          && (key in r.ospf.value.lsdb ==> r.ospf.value.enabled && key == NameKey(node)))
  }

  /** Purging removes exactly the references to collected addresses. */
  lemma PurgedRefersIff(r: RouterState, node: Id, ips: set<IPAddress>, ip: IPAddress)
    ensures RefersTo(Purged(r, node, ips), ip) <==> RefersTo(r, ip) && ip !in ips
  {
    var q := Purged(r, node, ips);
    forall e ensures e in q.routes <==> e in r.routes && KeepsRoute(e, ips) {
      FilterMeaning(r.routes, RouteKeeper(ips), e);
    }
    if r.ripNeighbors.Some? {
      PeersKeptIff(r.ripNeighbors.value, ips, ip);
    }
  }

  lemma PeersKeptIff(m: map<PortId, IPAddress>, ips: set<IPAddress>, ip: IPAddress)
    ensures var kept := Select(m, NextHopKeeper(ips));
            (exists p :: p in kept && kept[p] == ip) <==> ip !in ips && exists p :: p in m && m[p] == ip
  {
    var kept := Select(m, NextHopKeeper(ips));
    if p :| p in m && m[p] == ip && ip !in ips {
      assert p in kept;
    }
  }

  lemma PurgedNamesNobody(r: RouterState, node: Id, ips: set<IPAddress>)
    ensures !NamesDevice(Purged(r, node, ips), node)
  {
    var q := Purged(r, node, ips);
    forall c | c in q.cdp ensures c.deviceID != node {
      FilterMeaning(r.cdp, CdpKeeper(node), c);
    }
  }

  lemma PurgedForgetsIff(r: RouterState, node: Id, owned: set<IPAddress>, ids: set<IPAddress>, ips: set<IPAddress>)
    ensures Forgets(Purged(r, node, ips), node, owned, ids) <==> NothingOverlooked(r, node, owned, ids, ips)
  {
    var q := Purged(r, node, ips);
    PurgedNamesNobody(r, node, ips);
    forall ip | ip in owned ensures RefersTo(q, ip) <==> RefersTo(r, ip) && ip !in ips {
      PurgedRefersIff(r, node, ips, ip);
    }
    if r.ospf.Some? {
      forall key | key in owned + ids + {NameKey(node)}
        ensures !KnownToOspf(q.ospf.value, key) <==>
                ((r.ospf.value.enabled ==> key !in ips) ==>
                   && key !in r.ospf.value.neighbors
                   && (key in r.ospf.value.lsdb ==> r.ospf.value.enabled && key == NameKey(node)))
      {}
    }
  }

  /** After the removal no device, link or session is the device's, no remaining router names it,
      and none refers to an address that was collected. */
  lemma RemovalIsComplete(n: Network, node: Id)
    ensures var m, ips := Removed(n, node), AddressesOf(n, node);
            && !IsDevice(m, node)
            && (forall l :: l in m.links ==> l.source.node != node && l.target.node != node)
            && (forall k :: k in m.sessions ==> m.sessions[k].source != node)
            && (forall r :: r in m.routers ==> !NamesDevice(m.routers[r], node))
            && (forall r, ip :: r in m.routers && ip in ips ==>
                  && !RefersTo(m.routers[r], ip)
                  && (OspfEnabled(m.routers[r]) ==> !KnownToOspf(m.routers[r].ospf.value, ip)))
  {
    var m, ips := Removed(n, node), AddressesOf(n, node);
    forall l | l in m.links ensures KeepsLink(l, node) {
      FilterMeaning(n.links, LinkKeeper(node), l);
    }
    forall r | r in m.routers ensures !NamesDevice(m.routers[r], node) {
      PurgedNamesNobody(n.routers[r], node, ips);
    }
    forall r, ip | r in m.routers && ip in ips
      ensures !RefersTo(m.routers[r], ip) && (OspfEnabled(m.routers[r]) ==> !KnownToOspf(m.routers[r].ospf.value, ip))
    {
      PurgedRefersIff(n.routers[r], node, ips, ip);
    }
  }

  // The same in terms of the device's own fields.

  /** No remaining router refers to the address, and none that runs OSPF keeps an entry under it. */
  ghost predicate Gone(m: Network, ip: IPAddress) {
    forall r :: r in m.routers ==>
      && !RefersTo(m.routers[r], ip)
      && (m.routers[r].ospf.Some? && m.routers[r].ospf.value.enabled ==>
            ip !in m.routers[r].ospf.value.neighbors && ip !in m.routers[r].ospf.value.lsdb)
  }

  lemma CollectedIsGone(n: Network, node: Id, ip: IPAddress)
    requires ip in AddressesOf(n, node)
    ensures Gone(Removed(n, node), ip)
  {
    RemovalIsComplete(n, node);
  }

  /** Every interface address of a removed router is gone. */
  lemma RouterAddressesGo(n: Network, node: Id, p: PortId)
    requires node in n.routers && p in n.routers[node].interfaces
    ensures Gone(Removed(n, node), n.routers[node].interfaces[p])
  {
    assert n.routers[node].interfaces[p] in n.routers[node].interfaces.Values;
    CollectedIsGone(n, node, n.routers[node].interfaces[p]);
  }

  lemma HostAddressGoes(n: Network, node: Id)
    requires node in n.hosts
    ensures Gone(Removed(n, node), n.hosts[node])
  {
    CollectedIsGone(n, node, n.hosts[node]);
  }

  /** Of a gateway the interface addresses and the public one, if set. */
  lemma GatewayAddressesGo(n: Network, node: Id, p: PortId)
    requires node in n.gateways
    ensures p in n.gateways[node].interfaces ==> Gone(Removed(n, node), n.gateways[node].interfaces[p])
    ensures n.gateways[node].publicIP != Text("") ==> Gone(Removed(n, node), n.gateways[node].publicIP)
  {
    if p in n.gateways[node].interfaces {
      assert n.gateways[node].interfaces[p] in n.gateways[node].interfaces.Values;
      CollectedIsGone(n, node, n.gateways[node].interfaces[p]);
    }
    if n.gateways[node].publicIP != Text("") {
      CollectedIsGone(n, node, n.gateways[node].publicIP);
    }
  }

  lemma MobileAddressGoes(n: Network, node: Id)
    requires node in n.mobiles && n.mobiles[node] != Text("")
    ensures Gone(Removed(n, node), n.mobiles[node])
  {
    CollectedIsGone(n, node, n.mobiles[node]);
  }

  /** And only these: a remaining router keeps all its references to any other address. */
  lemma OnlyTheseGo(n: Network, node: Id, r: Id, ip: IPAddress)
    requires r in n.routers && r != node
    requires node in n.routers ==> forall p :: p in n.routers[node].interfaces ==> n.routers[node].interfaces[p] != ip
    requires node in n.hosts ==> n.hosts[node] != ip
    requires node in n.gateways ==>
               (n.gateways[node].publicIP == Text("") || n.gateways[node].publicIP != ip)
               && forall p :: p in n.gateways[node].interfaces ==> n.gateways[node].interfaces[p] != ip
    requires node in n.mobiles ==> n.mobiles[node] == Text("") || n.mobiles[node] != ip
    ensures r in Removed(n, node).routers && (RefersTo(Removed(n, node).routers[r], ip) <==> RefersTo(n.routers[r], ip))
    ensures n.routers[r].ospf.Some? ==>
              var o, o' := n.routers[r].ospf.value, Removed(n, node).routers[r].ospf;
              o'.Some? && (ip in o'.value.neighbors <==> ip in o.neighbors)
              && (ip != Text(node.name) ==> (ip in o'.value.lsdb <==> ip in o.lsdb))
  {
    assert ip !in AddressesOf(n, node);
    PurgedRefersIff(n.routers[r], node, AddressesOf(n, node), ip);
  }

  lemma CollectedIff(n: Network, node: Id, ip: IPAddress)
    ensures ip in AddressesOf(n, node) <==>
            || (node in n.routers && ip in n.routers[node].interfaces.Values)
            || (node in n.hosts && ip == n.hosts[node])
            || (node in n.gateways && (ip in n.gateways[node].interfaces.Values
                                       || (ip == n.gateways[node].publicIP && ip != Text(""))))
            || (node in n.mobiles && ip == n.mobiles[node] && ip != Text(""))
  {}

  /** A remaining router keeps every connected row, and loses another row exactly when its next hop
      is one of these addresses. */
  lemma RowSurvivesIff(n: Network, node: Id, r: Id, e: RouteEntry)
    requires r in n.routers && r != node
    ensures r in Removed(n, node).routers
    ensures e in Removed(n, node).routers[r].routes <==>
            && e in n.routers[r].routes
            && (e.proto == FromConnected ||
                !(|| (node in n.routers && e.nextHop in n.routers[node].interfaces.Values)
                  || (node in n.hosts && e.nextHop == n.hosts[node])
                  || (node in n.gateways && (e.nextHop in n.gateways[node].interfaces.Values
                                             || (e.nextHop == n.gateways[node].publicIP && e.nextHop != Text(""))))
                  || (node in n.mobiles && e.nextHop == n.mobiles[node] && e.nextHop != Text(""))))
  {
    CollectedIff(n, node, e.nextHop);
    RowInFilter(n, node, r, e);
  }

  lemma RowInFilter(n: Network, node: Id, r: Id, e: RouteEntry)
    requires r in n.routers && r != node
    ensures r in Removed(n, node).routers
    ensures e in Removed(n, node).routers[r].routes <==>
            e in n.routers[r].routes && (e.proto == FromConnected || e.nextHop !in AddressesOf(n, node))
  {
    FilterMeaning(n.routers[r].routes, RouteKeeper(AddressesOf(n, node)), e);
  }

  /** Links stay exactly when neither end is on the device. */
  lemma LinkSurvivesIff(n: Network, node: Id, l: TopologyLink)
    ensures l in Removed(n, node).links <==> l in n.links && l.source.node != node && l.target.node != node
  {
    FilterMeaning(n.links, LinkKeeper(node), l);
  }

  /** Where OSPF runs, the entry under the device's name goes. */
  lemma NameLeavesDatabases(n: Network, node: Id, r: Id)
    requires r in n.routers && r != node && n.routers[r].ospf.Some? && n.routers[r].ospf.value.enabled
    ensures r in Removed(n, node).routers && Removed(n, node).routers[r].ospf.Some?
            && Text(node.name) !in Removed(n, node).routers[r].ospf.value.lsdb
  {}

  /** The exact condition for a remaining router to forget the device, with everything it owns. */
  lemma RouterForgetsIff(n: Network, node: Id, r: Id)
    requires r in n.routers && r != node
    ensures Forgets(Removed(n, node).routers[r], node, OwnedBy(n, node), OspfIdOf(n, node))
            <==> NothingOverlooked(n.routers[r], node, OwnedBy(n, node), OspfIdOf(n, node), AddressesOf(n, node))
  {
    PurgedForgetsIff(n.routers[r], node, OwnedBy(n, node), OspfIdOf(n, node), AddressesOf(n, node));
  }

  /** The header promises to cancel the pings that target the device, too; but only those from it
      go. A ping of another device to the removed host outlives it, in a run of the ping manager. */
  lemma PingOutlivesItsTarget(source: Id, host: Id, ip: IPAddress)
    requires source != host && ip != UNSET
    ensures var run := Then(Begin, Start(false, source, AddressText(ip), "", []));
            var n := Only(map[], map[]).(hosts := map[host := ip], sessions := Now(run).sessions);
            var key := Scheduler.SessionKey(false, source, 0);
            && Legal(run) && IsDevice(n, host) && ip in AddressesOf(n, host)
            && key in Removed(n, host).sessions && Removed(n, host).sessions[key].destIP == AddressText(ip)
  {}

  // It can fail.

  /** A router without interfaces, neighbours or processes. */
  const BARE := RouterState(map[], [], map[], map[], [], map[], None, None, map[], {})

  function Only(routers: map<Id, RouterState>, firewalls: map<Id, map<PortId, IPAddress>>): Network {
    Network(routers, map[], map[], map[], firewalls, map[], {}, {}, [], map[])
  }

  /** Removing a firewall at 192.168.1.1 leaves a static default route through it and its ARP entry. */
  lemma FirewallIsRemembered(asa: Id, router: Id, port: PortId)
    requires asa != router
    ensures var ip, ids := V4(0xC0A8_0101), {};
            var route := RouteEntry(IPNet(0, 0), ip, port, 0, FromStatic, 1);
            var n := Only(map[router := BARE.(routes := [route], arpCache := map[ip := 0])], map[asa := map[port := ip]]);
            var after := Removed(n, asa).routers[router];
            ip in OwnedBy(n, asa) && route in after.routes && ip in after.arpCache && !Forgets(after, asa, OwnedBy(n, asa), ids)
  {
    var ip := V4(0xC0A8_0101);
    var route := RouteEntry(IPNet(0, 0), ip, port, 0, FromStatic, 1);
    var n := Only(map[router := BARE.(routes := [route], arpCache := map[ip := 0])], map[asa := map[port := ip]]);
    assert port in n.firewalls[asa] && n.firewalls[asa][port] in n.firewalls[asa].Values;
    FilterMeaning([route], RouteKeeper(AddressesOf(n, asa)), route);
    assert RefersTo(Removed(n, asa).routers[router], ip);
  }

  /** A router without interfaces has the OSPF ID 1.1.1.1; its neighbour keeps the adjacency under it. */
  lemma OspfIdIsRemembered(gone: Id, router: Id)
    requires gone != router
    ensures var id := V4(0x0101_0101);
            var n := Only(map[gone := BARE.(ospf := Some(OspfState(true, id, map[], map[]))),
                              router := BARE.(ospf := Some(OspfState(true, V4(1), map[id := 0], map[id := 0])))], map[]);
            var after := Removed(n, gone).routers[router];
            id in OspfIdOf(n, gone) && id in after.ospf.value.neighbors && id in after.ospf.value.lsdb
  {}

  /** The entries under other addresses are untouched. */
  ghost predicate SameOutside(m: map<IPAddress, nat>, q: map<IPAddress, nat>, ips: set<IPAddress>) {
    forall ip :: ip in m && ip !in ips ==> ip in q && q[ip] == m[ip]
  }

  /** Every row that does not concern the device survives, as often as before and in order. */
  ghost predicate KeepsOthers(r: RouterState, q: RouterState, node: Id, ips: set<IPAddress>) {
    && q.interfaces == r.interfaces && q.uncleaned == r.uncleaned
    && IsSubsequence(q.routes, r.routes)
    && (forall e: RouteEntry :: e.proto == FromConnected || e.nextHop !in ips ==> multiset(q.routes)[e] == multiset(r.routes)[e])
    && IsSubsequence(q.cdp, r.cdp)
    && (forall c: CdpNeighbor :: c.deviceID != node ==> multiset(q.cdp)[c] == multiset(r.cdp)[c])
    && SameOutside(r.arpCache, q.arpCache, ips) && SameOutside(r.packetQueue, q.packetQueue, ips) && SameOutside(r.ikePeers, q.ikePeers, ips)
    && (forall p :: p in r.portNeighbors && r.portNeighbors[p].routerID != node ==>
                      p in q.portNeighbors && q.portNeighbors[p] == r.portNeighbors[p])
    && q.ospf.Some? == r.ospf.Some? && q.ripNeighbors.Some? == r.ripNeighbors.Some?
    && (r.ospf.Some? ==>
          && SameOutside(r.ospf.value.neighbors, q.ospf.value.neighbors, ips)
          && SameOutside(r.ospf.value.lsdb, q.ospf.value.lsdb, ips + {NameKey(node)}))
    && (r.ripNeighbors.Some? ==>
          forall p :: p in r.ripNeighbors.value && r.ripNeighbors.value[p] !in ips ==>
                        p in q.ripNeighbors.value && q.ripNeighbors.value[p] == r.ripNeighbors.value[p])
  }

  lemma PurgedKeepsOthers(r: RouterState, node: Id, ips: set<IPAddress>)
    ensures KeepsOthers(r, Purged(r, node, ips), node, ips)
  {
    var q := Purged(r, node, ips);
    forall e: RouteEntry | e.proto == FromConnected || e.nextHop !in ips ensures multiset(q.routes)[e] == multiset(r.routes)[e] {
      FilterMeaning(r.routes, RouteKeeper(ips), e);
    }
    forall c: CdpNeighbor | c.deviceID != node ensures multiset(q.cdp)[c] == multiset(r.cdp)[c] {
      FilterMeaning(r.cdp, CdpKeeper(node), c);
    }
    FilterIsSubsequence(r.routes, RouteKeeper(ips));
    FilterIsSubsequence(r.cdp, CdpKeeper(node));
  }

  lemma {:induction false} FilterIsSubsequence<T>(s: seq<T>, keep: T -> bool)
    ensures IsSubsequence(Filter(s, keep), s)
  {
    if s == [] {
    } else {
      FilterMeaning(s, keep, s[0]);
    }
  }

  /** Of a remaining router everything else stays. */
  lemma RouterIsFramed(n: Network, node: Id, r: Id)
    requires r in n.routers && r != node
    ensures r in Removed(n, node).routers && KeepsOthers(n.routers[r], Removed(n, node).routers[r], node, AddressesOf(n, node))
  {
    PurgedKeepsOthers(n.routers[r], node, AddressesOf(n, node));
  }

  /** Everything else stays: other devices, links between them in order, and their sessions. */
  lemma RemovalIsFramed(n: Network, node: Id)
    ensures var m := Removed(n, node);
            && (forall d :: d != node ==> (IsDevice(m, d) <==> IsDevice(n, d)))
            && m.hosts == n.hosts - {node} && m.gateways == n.gateways - {node} && m.mobiles == n.mobiles - {node}
            && m.firewalls == n.firewalls - {node} && m.phones == n.phones - {node}
            && m.switches == n.switches - {node} && m.accessPoints == n.accessPoints - {node}
            && m.routers.Keys == n.routers.Keys - {node}
            && IsSubsequence(m.links, n.links)
            && (forall l: TopologyLink :: l.source.node != node && l.target.node != node ==> multiset(m.links)[l] == multiset(n.links)[l])
            && (forall k :: k in m.sessions <==> k in n.sessions && n.sessions[k].source != node)
            && (forall k :: k in m.sessions ==> m.sessions[k] == n.sessions[k])
  {
    LinksAreFramed(n, node);
  }

  lemma LinksAreFramed(n: Network, node: Id)
    ensures IsSubsequence(Removed(n, node).links, n.links)
    ensures forall l: TopologyLink :: l.source.node != node && l.target.node != node ==> multiset(Removed(n, node).links)[l] == multiset(n.links)[l]
  {
    FilterIsSubsequence(n.links, LinkKeeper(node));
    forall l: TopologyLink | l.source.node != node && l.target.node != node ensures multiset(Removed(n, node).links)[l] == multiset(n.links)[l] {
      FilterMeaning(n.links, LinkKeeper(node), l);
    }
  }

  lemma {:induction false} PeerInFilter(links: seq<TopologyLink>, node: Id, at: End)
    requires UniquePorts(links)
    ensures Peer(Filter(links, LinkKeeper(node)), at)
            == if at.node == node || (Peer(links, at).Some? && Peer(links, at).value.node == node) then None else Peer(links, at)
    decreases |links|
  {
    if links != [] {
      var front, last := links[..|links| - 1], links[|links| - 1];
      var kept := Filter(front, LinkKeeper(node));
      assert UniquePorts(front);
      PeerInFilter(front, node, at);
      PeerOfSnoc(front, last, at);
      PeerOfSnoc(kept, last, at);
      assert links == front + [last] && kept + [] == kept;
      LastIsElsewhere(links, at);
    }
  }

  /** Every remaining port finds the neighbour it found before, unless that was the device. */
  lemma PeersAfterRemoval(n: Network, node: Id, at: End)
    requires UniquePorts(n.links)
    ensures Peer(Removed(n, node).links, at)
            == if at.node == node || (Peer(n.links, at).Some? && Peer(n.links, at).value.node == node) then None
               else Peer(n.links, at)
  {
    PeerInFilter(n.links, node, at);
  }

  // ---------------------------------------------------------------- unset addresses

  /** Exactly when a router loses only routes through addresses that the device really has: no
      collected address is unset, or the router has no such route without a next hop. */
  lemma OnlyItsRoutesIff(n: Network, node: Id, t: seq<RouteEntry>)
    ensures var ips := AddressesOf(n, node);
            Filter(t, RouteKeeper(ips)) == Filter(t, RouteKeeper(ips - {UNSET}))
            <==> (UNSET in ips ==> forall e :: e in t && e.nextHop == UNSET ==> e.proto == FromConnected)
  {
    var ips := AddressesOf(n, node);
    FilterAgrees(t, RouteKeeper(ips), RouteKeeper(ips - {UNSET}));
    assert forall e :: RouteKeeper(ips)(e) == KeepsRoute(e, ips) && RouteKeeper(ips - {UNSET})(e) == KeepsRoute(e, ips - {UNSET});
  }

  /** It can fail: removing a host without an address deletes another router's directly attached static route. */
  lemma UnsetHostDropsRoute(n: Network, host: Id, router: Id, e: RouteEntry)
    requires host in n.hosts && n.hosts[host] == UNSET && router in n.routers && router != host
    requires e in n.routers[router].routes && e.proto == FromStatic && e.nextHop == UNSET
    ensures e !in Removed(n, host).routers[router].routes
  {
    FilterMeaning(n.routers[router].routes, RouteKeeper(AddressesOf(n, host)), e);
  }

  // ---------------------------------------------------------------- two removals

  lemma MinusCommutes<K, V>(m: map<K, V>, x: set<K>, y: set<K>)
    ensures m - x - y == m - y - x
  {}

  lemma SelectsCommute<K, V>(m: map<K, V>, p: (K, V) -> bool, q: (K, V) -> bool)
    ensures Select(Select(m, p), q) == Select(Select(m, q), p)
  {}

  lemma PurgedOspfCommutes(o: OspfState, a: Id, b: Id, x: set<IPAddress>, y: set<IPAddress>)
    ensures PurgedOspf(PurgedOspf(o, a, x), b, y) == PurgedOspf(PurgedOspf(o, b, y), a, x)
  {
    MinusCommutes(o.neighbors, x, y);
    assert o.lsdb - {NameKey(a)} - x - {NameKey(b)} - y == o.lsdb - {NameKey(b)} - y - {NameKey(a)} - x;
  }

  lemma PurgesCommute(r: RouterState, a: Id, b: Id, x: set<IPAddress>, y: set<IPAddress>)
    ensures Purged(Purged(r, a, x), b, y) == Purged(Purged(r, b, y), a, x)
  {
    FiltersCommute(r.routes, RouteKeeper(x), RouteKeeper(y));
    FiltersCommute(r.cdp, CdpKeeper(a), CdpKeeper(b));
    SelectsCommute(r.portNeighbors, PortKeeper(a), PortKeeper(b));
    MinusCommutes(r.arpCache, x, y);
    MinusCommutes(r.packetQueue, x, y);
    MinusCommutes(r.ikePeers, x, y);
    if r.ripNeighbors.Some? {
      SelectsCommute(r.ripNeighbors.value, NextHopKeeper(x), NextHopKeeper(y));
    }
    if r.ospf.Some? {
      PurgedOspfCommutes(r.ospf.value, a, b, x, y);
    }
  }

  lemma PurgedRoutersCommute(routers: map<Id, RouterState>, a: Id, b: Id, x: set<IPAddress>, y: set<IPAddress>)
    ensures PurgedRouters(PurgedRouters(routers, a, x), b, y) == PurgedRouters(PurgedRouters(routers, b, y), a, x)
  {
    var m, k := PurgedRouters(PurgedRouters(routers, a, x), b, y), PurgedRouters(PurgedRouters(routers, b, y), a, x);
    forall r | r in m ensures r in k && m[r] == k[r] {
      PurgesCommute(routers[r], a, b, x, y);
    }
    assert m.Keys == k.Keys;
  }

  /** Removing one device does not change another's addresses. */
  lemma AddressesAreKept(n: Network, a: Id, b: Id)
    requires a != b
    ensures AddressesOf(Removed(n, a), b) == AddressesOf(n, b)
  {}

  /** The order of two removals does not matter. */
  lemma RemovalsCommute(n: Network, a: Id, b: Id)
    requires a != b
    ensures Removed(Removed(n, a), b) == Removed(Removed(n, b), a)
  {
    AddressesAreKept(n, a, b);
    AddressesAreKept(n, b, a);
    PurgedRoutersCommute(n.routers, a, b, AddressesOf(n, a), AddressesOf(n, b));
    FiltersCommute(n.links, LinkKeeper(a), LinkKeeper(b));
    MinusCommutes(n.hosts, {a}, {b});
    MinusCommutes(n.gateways, {a}, {b});
    MinusCommutes(n.mobiles, {a}, {b});
    MinusCommutes(n.firewalls, {a}, {b});
    MinusCommutes(n.phones, {a}, {b});
    assert WithoutSource(WithoutSource(n.sessions, a), b) == WithoutSource(WithoutSource(n.sessions, b), a);
  }
}
