/** What a link does to the devices at its ends, told from the fields alone. */
module LinkEffects {
  import opened Addressing
  import opened RouterProcesses
  import opened Snapshots
  import Switching
  import opened Topology

  // ---------------------------------------------------------------- link addresses

  lemma QuadParts(second: nat, third: nat, host: nat)
    requires second < 256 && third < 256 && host < 256
    ensures var a := ((10 * 256 + second) * 256 + third) * 256 + host;
            a / 0x100_0000 == 10 && a / 0x1_0000 % 256 == second && a / 0x100 % 256 == third && a % 256 == host
  {}

  lemma HostDigits()
    ensures Decimal(1) == "1" && Decimal(2) == "2" && Decimal(10) == "10"
  {
    assert Decimal(10) == Decimal(1) + "0";
  }

  lemma TextOfQuad(a: nat, q: nat, r: nat, s: nat)
    requires a / 0x100_0000 == 10 && a / 0x1_0000 % 256 == q && a / 0x100 % 256 == r && a % 256 == s
    ensures AddressText(V4(a)) == "10." + Decimal(q) + "." + Decimal(r) + "." + Decimal(s)
  {
    HostDigits();
    assert Decimal(10) + "." == "10.";
  }

  lemma TenDotQuad(second: nat, third: nat, host: nat)
    requires second < 256 && third < 256 && host < 256
    ensures AddressText(V4(((10 * 256 + second) * 256 + third) * 256 + host))
         == "10." + Decimal(second) + "." + Decimal(third) + "." + Decimal(host)
  {
    QuadParts(second, third, host);
    TextOfQuad(((10 * 256 + second) * 256 + third) * 256 + host, second, third, host);
  }

  /** The address of a link end as printed: 10.a.b.1 at the source and 10.a.b.2 at the target, where
      a and b are the high and low bytes of four times the link index. */
  lemma LinkAddressText(index: nat, first: bool)
    ensures AddressText(LinkAddress(index, first))
         == "10." + Decimal(index * 4 / 256) + "." + Decimal(index * 4 % 256) + "." + if first then "1" else "2"
  {
    HostDigits();
    if index * 4 / 256 < 256 {
      TenDotQuad(index * 4 / 256, index * 4 % 256, if first then 1 else 2);
    }
  }

  lemma SplitAtDot(x: string, y: string, u: string, v: string)
    requires '.' !in x && '.' !in u && x + "." + y == u + "." + v
    ensures x == u && y == v
  {
    var s := x + "." + y;
    assert s[|x|] == '.' && s[|u|] == '.';
    assert forall i :: 0 <= i < |x| ==> s[i] == x[i] && x[i] in x;
    assert forall i :: 0 <= i < |u| ==> s[i] == u[i] && u[i] in u;
    assert |x| == |u|;
    assert s[..|x|] == x && s[..|u|] == u;
    assert s[|x| + 1..] == y && s[|u| + 1..] == v;
  }

  lemma SameParts(a: string, b: string, c: string, x: string, y: string, z: string)
    requires '.' !in a && '.' !in b && '.' !in x && '.' !in y
    requires "10." + a + "." + b + "." + c == "10." + x + "." + y + "." + z
    ensures a == x && b == y && c == z
  {
    var s, t := a + "." + (b + "." + c), x + "." + (y + "." + z);
    assert "10." + a + "." + b + "." + c == "10." + s && "10." + x + "." + y + "." + z == "10." + t;
    assert ("10." + s)[3..] == s && ("10." + t)[3..] == t;
    SplitAtDot(a, b + "." + c, x, y + "." + z);
    SplitAtDot(b, c, y, z);
  }

  lemma DecimalsAgree(m: nat, n: nat)
    requires Decimal(m) == Decimal(n)
    ensures m == n
  {
    DecimalValue(m);
    DecimalValue(n);
  }

  lemma NoDot(n: nat)
    ensures '.' !in Decimal(n)
  {
    DecimalValue(n);
  }

  /** No two link ends ever share an address, unless they are the same end of the same index. */
  lemma LinkAddressesIff(i: nat, f: bool, j: nat, g: bool)
    ensures LinkAddress(i, f) == LinkAddress(j, g) <==> i == j && f == g
  {
    if LinkAddress(i, f) == LinkAddress(j, g) {
      LinkAddressText(i, f);
      LinkAddressText(j, g);
      var a, b, c, d := i * 4 / 256, i * 4 % 256, j * 4 / 256, j * 4 % 256;
      NoDot(a);
      NoDot(b);
      NoDot(c);
      NoDot(d);
      SameParts(Decimal(a), Decimal(b), if f then "1" else "2", Decimal(c), Decimal(d), if g then "1" else "2");
      DecimalsAgree(a, c);
      DecimalsAgree(b, d);
      assert i * 4 == 256 * a + b && j * 4 == 256 * c + d;
    }
  }

  lemma LinkNumbers(index: nat)
    requires index < 16_384
    ensures LinkAddress(index, true).V4? && LinkAddress(index, false).V4?
    ensures var a := LinkAddress(index, true).addr; a % 4 == 1 && a < IPV4_SPACE - 4 && LinkAddress(index, false).addr == a + 1
  {
    assert index * 4 % 256 % 4 == 0;
  }

  lemma ClearTwo(a: nat)
    ensures MaskBase(a, 30) == a - a % 4
  {
    assert ClearLow(a, 2) == 2 * ClearLow(a / 2, 1);
    assert ClearLow(a / 2, 1) == 2 * ClearLow(a / 2 / 2, 0);
  }

  /** As long as the second byte fits, the two ends are the two hosts of one /30 network. */
  lemma LinkEndsShareNetwork(index: nat)
    requires index < 16_384
    ensures var a, b := LinkIface(index, true), LinkIface(index, false);
            && a.ip.V4? && b.ip.V4? && a.ip.addr % 4 == 1 && b.ip.addr == a.ip.addr + 1
            && a.mask == b.mask == Ones(30) && IpToCidr(a.ip, a.mask) == IpToCidr(b.ip, b.mask) == Block(a.ip.addr - 1, 30)
  {
    LinkNumbers(index);
    ClearTwo(LinkAddress(index, true).addr);
    ClearTwo(LinkAddress(index, false).addr);
  }

  // ---------------------------------------------------------------- what AddLink does

  predicate BothRouters(c: Content, l: TopologyLink) {
    l.source.node in c.routers && l.target.node in c.routers
  }

  /** The link comes last, and no device comes or goes. */
  lemma AddedKeepsDevices(c: Content, l: TopologyLink)
    ensures var d := Added(c, l);
            && d.links == c.links + [l] && d.routers.Keys == c.routers.Keys
            && d.switches.Keys == c.switches.Keys && d.hosts.Keys == c.hosts.Keys
  {}

  /** A switch end is registered as an access port of VLAN 1 that is up; registered ports stay. */
  lemma AddedSwitch(c: Content, l: TopologyLink, s: Id)
    requires s in c.switches
    ensures var was, now := c.switches[s], Added(c, l).switches[s];
            && now.vlans == was.vlans && now.rest == was.rest
            && (forall p :: p in now.ports <==> p in was.ports || l.source == End(s, p) || l.target == End(s, p))
            && (forall p :: p in now.ports ==>
                  now.ports[p] == if p in was.ports then was.ports[p] else Switching.PortConfig(Switching.Access, 1, 1, [], true))
  {
    EndsOfIff([l], s);
  }

  lemma UplinkOfOne(l: TopologyLink, node: Id, recorded: Id)
    ensures Uplink([l], node, recorded)
         == if l.target.node == node then l.source.node else if l.source.node == node then l.target.node else recorded
  {
    assert [l][..0] == [] && Uplink([], node, recorded) == recorded;
  }

  /** A host end records the far device; a host that is both ends records itself. */
  lemma AddedHost(c: Content, l: TopologyLink, h: Id)
    requires h in c.hosts
    ensures var was, now := c.hosts[h], Added(c, l).hosts[h];
            && now.ip == was.ip && now.mask == was.mask && now.gateway == was.gateway && now.mac == was.mac
            && now.port == was.port && now.rest == was.rest
            && (l.target.node == h ==> now.uplink == l.source.node)
            && (l.target.node != h && l.source.node == h ==> now.uplink == l.target.node)
            && (l.target.node != h && l.source.node != h ==> now.uplink == was.uplink)
  {
    UplinkOfOne(l, h, c.hosts[h].uplink);
  }

  /** Only a link between two routers changes routers. */
  lemma AddedToOthers(c: Content, l: TopologyLink, r: Id)
    requires r in c.routers && (!BothRouters(c, l) || (l.source.node != r && l.target.node != r))
    ensures Added(c, l).routers[r] == c.routers[r]
  {
    assert WithRipPeers(c.routers[r].settings, RipPeers(c.routers[r].settings)) == c.routers[r].settings;
  }

  /** A router after the link, piece by piece. */
  lemma RouterAfter(c: Content, l: TopologyLink, r: Id)
    requires r in c.routers
    ensures var was, now := c.routers[r], Added(c, l).routers[r];
            var at := IfacesOf(Addressed(c.routers, l, |c.links| + 1));
            && now.interfaces == Linked(was.interfaces, l, c.routers.Keys, r, |c.links| + 1)
            && now.statics == was.statics && now.rest == was.rest
            && now.neighbors == Met(was.neighbors, l, at, r, Whole)
            && now.settings == WithRipPeers(was.settings, Met(RipPeers(was.settings), l, at, r, RemoteAddress))
  {}

  /** A router end without an address gets the one of its side under the new number of links; an
      address that is there stays. */
  lemma AddedAddresses(c: Content, l: TopologyLink, r: Id, p: PortId)
    requires BothRouters(c, l) && r in c.routers
    ensures var was, now := c.routers[r], Added(c, l).routers[r];
            && now.statics == was.statics && now.rest == was.rest
            && (p in now.interfaces <==> p in was.interfaces || l.source == End(r, p) || l.target == End(r, p))
            && (p in was.interfaces ==> now.interfaces[p] == was.interfaces[p])
            && (p in now.interfaces && p !in was.interfaces ==>
                  var n := |c.links| + 1;
                  now.interfaces[p] == Iface(
                    LinkAddress(n, l.source == End(r, p)), Ones(30), LinkMac(n * 4 / 256, n * 4 % 256, n % 254 + 1)))
  {
    RouterAfter(c, l, r);
    LinkedAt(c.routers[r].interfaces, l, c.routers.Keys, r, |c.links| + 1, p);
  }

  lemma LinkedAt(ifaces: Ifaces, l: TopologyLink, names: set<Id>, r: Id, index: nat, p: PortId)
    requires l.source.node in names && l.target.node in names
    ensures var now := Linked(ifaces, l, names, r, index);
            && (p in now <==> p in ifaces || l.source == End(r, p) || l.target == End(r, p))
            && (p in ifaces ==> now[p] == ifaces[p])
            && (p in now && p !in ifaces ==> now[p] == LinkIface(index, l.source == End(r, p)))
  {}

  /** The address of a router port, unset if it has none. */
  function AddressAt(c: Content, at: End): IPAddress {
    if at.node in c.routers && at.port in c.routers[at.node].interfaces then c.routers[at.node].interfaces[at.port].ip else UNSET
  }

  lemma NeighborAfter(c: Content, l: TopologyLink, far: End)
    requires far.node in c.routers
    ensures var at := IfacesOf(Addressed(c.routers, l, |c.links| + 1));
            far.node in at && NeighborAt(at, far) == PortNeighbor(far.node, far.port, AddressAt(Added(c, l), far))
  {
    RouterAfter(c, l, far.node);
  }

  lemma MetAt<V>(m: map<PortId, V>, l: TopologyLink, at: map<Id, Ifaces>, r: Id, what: PortNeighbor -> Option<V>, p: PortId)
    requires l.source.node in at && l.target.node in at
    ensures var now := Met(m, l, at, r, what);
            var first := if l.source == End(r, p) then what(NeighborAt(at, l.target)) else None;
            var last := if l.target == End(r, p) then what(NeighborAt(at, l.source)) else None;
            && (last.Some? ==> p in now && now[p] == last.value)
            && (last.None? && first.Some? ==> p in now && now[p] == first.value)
            && (last.None? && first.None? ==> (p in now <==> p in m) && (p in m ==> now[p] == m[p]))
  {}

  /** Each end records the other, at the address it has then; other ports keep their neighbour. */
  lemma AddedNeighbors(c: Content, l: TopologyLink, r: Id, p: PortId)
    requires BothRouters(c, l) && r in c.routers
    ensures var d := Added(c, l);
            var was, now := c.routers[r].neighbors, d.routers[r].neighbors;
            if l.target == End(r, p) then
              p in now && now[p] == PortNeighbor(l.source.node, l.source.port, AddressAt(d, l.source))
            else if l.source == End(r, p) then
              p in now && now[p] == PortNeighbor(l.target.node, l.target.port, AddressAt(d, l.target))
            else (p in now <==> p in was) && (p in was ==> now[p] == was[p])
  {
    RouterAfter(c, l, r);
    NeighborAfter(c, l, l.source);
    NeighborAfter(c, l, l.target);
    MetAt(c.routers[r].neighbors, l, IfacesOf(Addressed(c.routers, l, |c.links| + 1)), r, Whole, p);
  }

  /** A router that runs RIP sends to the address at the far end, unless that is unset; nothing
      else of its processes changes. */
  lemma AddedRipPeers(c: Content, l: TopologyLink, r: Id, p: PortId)
    requires BothRouters(c, l) && r in c.routers && c.routers[r].settings.rip.Some?
    ensures var d := Added(c, l);
            var was, now := c.routers[r].settings, d.routers[r].settings;
            && now.ospf == was.ospf && now.eigrp == was.eigrp && now.bgp == was.bgp && now.rip.Some?
            && now.rip.value.routerID == was.rip.value.routerID && now.rip.value.networks == was.rip.value.networks
            && var old', new' := was.rip.value.neighbors, now.rip.value.neighbors;
            if l.target == End(r, p) && AddressAt(d, l.source) != UNSET then p in new' && new'[p] == AddressAt(d, l.source)
            else if l.source == End(r, p) && AddressAt(d, l.target) != UNSET then p in new' && new'[p] == AddressAt(d, l.target)
            else (p in new' <==> p in old') && (p in old' ==> new'[p] == old'[p])
  {
    RouterAfter(c, l, r);
    NeighborAfter(c, l, l.source);
    NeighborAfter(c, l, l.target);
    MetAt(RipPeers(c.routers[r].settings), l, IfacesOf(Addressed(c.routers, l, |c.links| + 1)), r, RemoteAddress, p);
  }

  /** Without RIP the processes stay as they are. */
  lemma AddedWithoutRip(c: Content, l: TopologyLink, r: Id)
    requires r in c.routers && c.routers[r].settings.rip.None?
    ensures Added(c, l).routers[r].settings == c.routers[r].settings
  {
    RouterAfter(c, l, r);
  }

  // ---------------------------------------------------------------- many links

  /** The ports of a node that the links use. */
  lemma {:induction false} EndsOfIff(links: seq<TopologyLink>, node: Id)
    ensures forall p :: p in EndsOf(links, node) <==> exists l :: l in links && (l.source == End(node, p) || l.target == End(node, p))
    decreases |links|
  {
    if links != [] {
      var front, last := links[..|links| - 1], links[|links| - 1];
      EndsOfIff(front, node);
      assert forall l :: l in links <==> l in front || l == last;
      forall p ensures p in EndsOf([last], node) <==> last.source == End(node, p) || last.target == End(node, p) {
        assert [last][..0] == [];
      }
      assert front + [last] == links;
      EndsOfSnoc(front, last, node);
    }
  }

  /** Those of them on links between routers. */
  lemma {:induction false} RouterEndsIff(links: seq<TopologyLink>, names: set<Id>, node: Id)
    ensures forall p :: p in RouterEndsOf(links, names, node) <==>
              exists l :: l in links && l.source.node in names && l.target.node in names && (l.source == End(node, p) || l.target == End(node, p))
    decreases |links|
  {
    if links != [] {
      var front, last := links[..|links| - 1], links[|links| - 1];
      RouterEndsIff(front, names, node);
      assert forall l :: l in links <==> l in front || l == last;
      forall p ensures last.source == End(node, p) <==> last.source.node == node && last.source.port == p {}
      forall p ensures last.target == End(node, p) <==> last.target.node == node && last.target.port == p {}
    }
  }

  /** The uplink after many links is that of the last one that touches the node. */
  lemma {:induction false} UplinkIsLast(links: seq<TopologyLink>, node: Id, recorded: Id, k: nat)
    requires k <= |links| && forall j :: k <= j < |links| ==> links[j].source.node != node && links[j].target.node != node
    requires k == 0 || links[k - 1].source.node == node || links[k - 1].target.node == node
    ensures Uplink(links, node, recorded) ==
            if k == 0 then recorded
            else if links[k - 1].target.node == node then links[k - 1].source.node
            else links[k - 1].target.node
    decreases |links|
  {
    if k < |links| {
      UplinkIsLast(links[..|links| - 1], node, recorded, k);
    }
  }

  /** Removing a link keeps exactly the links with another ID, each as often as before. */
  lemma {:induction false} RemovedLinks(links: seq<TopologyLink>, id: Id, l: TopologyLink)
    ensures multiset(WithoutLink(links, id))[l] == if l.id == id then 0 else multiset(links)[l]
    ensures l in WithoutLink(links, id) <==> l in links && l.id != id
    decreases |links|
  {
    if links != [] {
      var front, last := links[..|links| - 1], links[|links| - 1];
      RemovedLinks(front, id, l);
      assert links == front + [last];
    }
  }

  /** And it keeps their order: what comes before a link stays before it. */
  lemma {:induction false} RemovedInOrder(a: seq<TopologyLink>, b: seq<TopologyLink>, id: Id)
    ensures WithoutLink(a + b, id) == WithoutLink(a, id) + WithoutLink(b, id)
    decreases |b|
  {
    if b == [] {
      assert a + b == a;
    } else {
      RemovedInOrder(a, b[..|b| - 1], id);
      assert (a + b)[..|a + b| - 1] == a + b[..|b| - 1];
    }
  }
}
