/** A router's routing processes as configured: the router ID that each one picks when it is
    enabled, and the interfaces that the network statements of OSPF enable.
 */
module RouterProcesses {
  import opened Addressing
  import opened Listings

  /** A MAC address: a text, or the one that the engine prints for a link. */
  datatype Mac = MacText(text: string) | LinkMac(second: nat, third: nat, last: nat)

  datatype Iface = Iface(ip: IPAddress, mask: Mask, mac: Mac)

  type Ifaces = map<PortId, Iface>

  datatype OspfNetwork = OspfNetwork(cidr: Cidr, area: int)

  datatype OspfIface = OspfIface(ip: IPAddress, mask: Mask, area: int)

  datatype Ospf = Ospf(routerID: IPAddress, processID: int, networks: seq<OspfNetwork>, interfaces: map<PortId, OspfIface>)

  datatype Rip = Rip(routerID: IPAddress, networks: seq<string>, neighbors: map<PortId, IPAddress>)

  datatype Eigrp = Eigrp(routerID: IPAddress, asNumber: int, networks: seq<string>)

  datatype Bgp = Bgp(routerID: IPAddress, localAS: int)

  /** The enabled processes; nothing in the engine disables one. */
  datatype Settings = Settings(ospf: Option<Ospf>, rip: Option<Rip>, eigrp: Option<Eigrp>, bgp: Option<Bgp>)

  // ---------------------------------------------------------------- the order of texts

  /** Go's order of strings. */
  predicate Before(a: string, b: string) {
    if b == "" then false
    else if a == "" then true
    else a[0] < b[0] || (a[0] == b[0] && Before(a[1..], b[1..]))
  }

  lemma {:induction false} BeforeTransitive(a: string, b: string, c: string)
    requires Before(a, b) && Before(b, c)
    ensures Before(a, c)
  {
    if a != "" && a[0] == b[0] == c[0] {
      BeforeTransitive(a[1..], b[1..], c[1..]);
    }
  }

  lemma {:induction false} BeforeIsTotal(a: string, b: string)
    ensures Before(a, b) || a == b || Before(b, a)
    ensures Before(a, b) ==> a != b && !Before(b, a)
  {
    if a != "" && b != "" {
      BeforeIsTotal(a[1..], b[1..]);
      assert a == [a[0]] + a[1..] && b == [b[0]] + b[1..];
    }
  }

  /** At the first place where the texts differ, the first one ends or has the lower character. */
  predicate DiffersAt(a: string, b: string, k: nat) {
    && k <= |a| && k < |b| && a[..k] == b[..k]
    && (k == |a| || a[k] < b[k])
  }

  lemma {:induction false} BeforeIff(a: string, b: string)
    ensures Before(a, b) <==> exists k: nat :: DiffersAt(a, b, k)
  {
    if a == "" || b == "" || a[0] != b[0] {
      assert Before(a, b) ==> DiffersAt(a, b, 0);
    } else {
      BeforeIff(a[1..], b[1..]);
      if k: nat :| DiffersAt(a[1..], b[1..], k) {
        assert a[..k + 1] == [a[0]] + a[1..][..k] && b[..k + 1] == [b[0]] + b[1..][..k];
        assert DiffersAt(a, b, k + 1);
      }
      if k: nat :| DiffersAt(a, b, k) {
        assert a[1..][..k - 1] == a[..k][1..] && b[1..][..k - 1] == b[..k][1..];
        assert DiffersAt(a[1..], b[1..], k - 1);
      }
    }
  }

  predicate Less(a: IPAddress, b: IPAddress) {
    Before(AddressText(a), AddressText(b))
  }

  lemma LessTransitive(a: IPAddress, b: IPAddress, c: IPAddress)
    requires Less(a, b) && Less(b, c)
    ensures Less(a, c)
  {
    BeforeTransitive(AddressText(a), AddressText(b), AddressText(c));
  }

  // ---------------------------------------------------------------- picking a router ID

  /** What a process on a router without addresses gets: 1.1.1.1. */
  const DEFAULT_ID: IPAddress := V4(0x0101_0101)

  function AddressOf(ifaces: Ifaces, port: PortId): IPAddress {
    if port in ifaces then ifaces[port].ip else UNSET
  }

  /** One turn of the loop of pickRouterID: an unset best is replaced by anything. */
  function Better(best: IPAddress, ip: IPAddress): IPAddress {
    if best == UNSET || Less(ip, best) then ip else best
  }

  function PickOver(ifaces: Ifaces, order: seq<PortId>): IPAddress
    decreases |order|
  {
    if order == [] then UNSET
    else Better(PickOver(ifaces, order[..|order| - 1]), AddressOf(ifaces, order[|order| - 1]))
  }

  function OrDefault(best: IPAddress): IPAddress {
    if best == UNSET then DEFAULT_ID else best
  }

  /** For some order of the map of interfaces, this ID is picked. */
  ghost predicate MayPick(ifaces: Ifaces, id: IPAddress) {
    exists order :: Lists(order, Itself, ifaces.Keys) && OrDefault(PickOver(ifaces, order)) == id
  }

  method PickRouterID(ifaces: Ifaces) returns (id: IPAddress)
    ensures MayPick(ifaces, id)
  {
    var best := UNSET;
    var todo := ifaces.Keys;
    ghost var order: seq<PortId> := [];
    while todo != {}
      invariant todo <= ifaces.Keys && Lists(order, Itself, ifaces.Keys - todo)
      invariant best == PickOver(ifaces, order)
      decreases todo
    {
      var port :| port in todo;
      ListsSnoc(order, Itself, ifaces.Keys - todo, port);
      assert ifaces.Keys - (todo - {port}) == ifaces.Keys - todo + {port};
      assert (order + [port])[..|order|] == order;
      order := order + [port];
      var ip := ifaces[port].ip;
      if best == UNSET || Less(ip, best) {
        best := ip;
      }
      todo := todo - {port};
    }
    assert ifaces.Keys - {} == ifaces.Keys;
    id := if best == UNSET then DEFAULT_ID else best;
  }

  function AddressesIn(ifaces: Ifaces): set<IPAddress> {
    set p | p in ifaces :: ifaces[p].ip
  }

  /** What the loop has found among the ports seen. */
  lemma {:induction false} PickedMeaning(ifaces: Ifaces, order: seq<PortId>)
    requires forall p :: p in order ==> p in ifaces
    ensures var best := PickOver(ifaces, order);
            && (best != UNSET ==> exists p :: p in order && ifaces[p].ip == best)
            && (UNSET !in AddressesIn(ifaces) ==>
                  && (order != [] ==> best != UNSET)
                  && forall p :: p in order ==> !Less(ifaces[p].ip, best))
    decreases |order|
  {
    if order != [] {
      var front, last := order[..|order| - 1], order[|order| - 1];
      PickedMeaning(ifaces, front);
      var before, best := PickOver(ifaces, front), PickOver(ifaces, order);
      assert last in order && forall p :: p in order <==> p in front || p == last;
      if best == before && before != UNSET {
        var p :| p in front && ifaces[p].ip == best;
        assert p in order;
      } else {
        assert best == ifaces[last].ip;
      }
      if UNSET !in AddressesIn(ifaces) {
        forall p | p in order ensures !Less(ifaces[p].ip, best) {
          BeforeIsTotal(AddressText(ifaces[p].ip), AddressText(best));
          if p in front && before != UNSET && Less(ifaces[p].ip, best) && best != before {
            LessTransitive(ifaces[p].ip, best, before);
          }
        }
      }
    }
  }

  /** A least address that comes first stays the best. */
  lemma {:induction false} FirstStays(ifaces: Ifaces, port: PortId, order: seq<PortId>)
    requires port in ifaces && ifaces[port].ip != UNSET && forall p :: p in ifaces ==> !Less(ifaces[p].ip, ifaces[port].ip)
    requires forall p :: p in order ==> p in ifaces
    ensures PickOver(ifaces, [port] + order) == ifaces[port].ip
    decreases |order|
  {
    if order == [] {
      assert ([port] + order)[..0] == [];
    } else {
      var front, last := order[..|order| - 1], order[|order| - 1];
      FirstStays(ifaces, port, front) by {
        assert forall p :: p in front ==> p in order;
      }
      assert ([port] + order)[..|order|] == [port] + front && ([port] + order)[|order|] == last;
      assert last in order;
    }
  }

  lemma PickThen(ifaces: Ifaces, keys: set<PortId>, order: seq<PortId>, port: PortId)
    requires Lists(order, Itself, keys) && port !in keys
    ensures Lists(order + [port], Itself, keys + {port})
    ensures PickOver(ifaces, order + [port]) == Better(PickOver(ifaces, order), AddressOf(ifaces, port))
  {
    ListsSnoc(order, Itself, keys, port);
    assert (order + [port])[..|order|] == order;
  }

  /** An unset address that comes last makes the loop forget what it has found. */
  lemma UnsetForgets(ifaces: Ifaces, port: PortId, keys: set<PortId>) returns (order: seq<PortId>)
    requires port in keys && AddressOf(ifaces, port) == UNSET
    ensures Lists(order, Itself, keys) && PickOver(ifaces, order) == UNSET
  {
    var rest := ListingExists(keys - {port});
    PickThen(ifaces, keys - {port}, rest, port);
    order := rest + [port];
    assert keys - {port} + {port} == keys;
  }

  lemma UnsetLast(ifaces: Ifaces, port: PortId)
    requires port in ifaces && ifaces[port].ip == UNSET
    ensures MayPick(ifaces, DEFAULT_ID)
  {
    var order := UnsetForgets(ifaces, port, ifaces.Keys);
  }

  lemma UnsetBeforeLast(ifaces: Ifaces, port: PortId, last: PortId)
    requires port in ifaces && ifaces[port].ip == UNSET && last in ifaces && ifaces[last].ip != UNSET
    ensures MayPick(ifaces, ifaces[last].ip)
  {
    var order := UnsetForgets(ifaces, port, ifaces.Keys - {last});
    PickThen(ifaces, ifaces.Keys - {last}, order, last);
    assert ifaces.Keys - {last} + {last} == ifaces.Keys;
  }

  ghost predicate IsLeast(addrs: set<IPAddress>, id: IPAddress) {
    id in addrs && forall a :: a in addrs ==> !Less(a, id)
  }

  /** The least address text, or 1.1.1.1 without interfaces; but once an interface has no address,
      1.1.1.1 or any address at all. */
  ghost predicate Pickable(addrs: set<IPAddress>, id: IPAddress) {
    if UNSET in addrs then id == V4(0x0101_0101) || id in addrs - {UNSET}
    else if addrs == {} then id == V4(0x0101_0101)
    else IsLeast(addrs, id)
  }

  lemma PickIsPickable(ifaces: Ifaces, order: seq<PortId>)
    requires Lists(order, Itself, ifaces.Keys)
    ensures Pickable(AddressesIn(ifaces), OrDefault(PickOver(ifaces, order)))
  {
    ListedElements(order, ifaces.Keys);
    assert forall p :: p in order <==> p in ElementsOf(order);
    PickedMeaning(ifaces, order);
    if ifaces != map[] {
      var p :| p in ifaces;
      assert p in order && ifaces[p].ip in AddressesIn(ifaces);
    }
  }

  lemma LeastMayBePicked(ifaces: Ifaces, id: IPAddress)
    requires IsLeast(AddressesIn(ifaces), id) && id != UNSET
    ensures MayPick(ifaces, id)
  {
    var port :| port in ifaces && ifaces[port].ip == id;
    var order := ListingExists(ifaces.Keys - {port});
    ListsCons(order, Itself, ifaces.Keys - {port}, port);
    assert ifaces.Keys - {port} + {port} == ifaces.Keys;
    ListedElements(order, ifaces.Keys - {port});
    assert forall p :: p in order <==> p in ElementsOf(order);
    FirstStays(ifaces, port, order);
  }

  /** Exactly which IDs the loop can pick, over all orders of the map. */
  lemma MayPickIff(ifaces: Ifaces, id: IPAddress)
    ensures MayPick(ifaces, id) <==> Pickable(AddressesIn(ifaces), id)
  {
    if MayPick(ifaces, id) {
      var order :| Lists(order, Itself, ifaces.Keys) && OrDefault(PickOver(ifaces, order)) == id;
      PickIsPickable(ifaces, order);
    }
    if UNSET in AddressesIn(ifaces) {
      var port :| port in ifaces && ifaces[port].ip == UNSET;
      UnsetLast(ifaces, port);
      if id != UNSET && id in AddressesIn(ifaces) {
        var last :| last in ifaces && ifaces[last].ip == id;
        UnsetBeforeLast(ifaces, port, last);
      }
    } else if ifaces == map[] {
      assert Lists([], Itself, ifaces.Keys) && PickOver(ifaces, []) == UNSET;
    } else {
      var p :| p in ifaces;
      assert ifaces[p].ip in AddressesIn(ifaces);
      if IsLeast(AddressesIn(ifaces), id) {
        LeastMayBePicked(ifaces, id);
      }
    }
  }

  /** Some ID is always picked. */
  lemma PickExists(ifaces: Ifaces) returns (id: IPAddress)
    ensures MayPick(ifaces, id)
  {
    var order := ListingExists(ifaces.Keys);
    id := OrDefault(PickOver(ifaces, order));
  }

  /** The ID that every order picks, checked on the addresses alone. */
  ghost predicate OnlyPick(addrs: set<IPAddress>, id: IPAddress) {
    if UNSET in addrs then id == V4(0x0101_0101) && addrs <= {UNSET, V4(0x0101_0101)}
    else if addrs == {} then id == V4(0x0101_0101)
    else id in addrs && forall a :: a in addrs ==> a == id || Less(id, a)
  }

  lemma OnlyPickIff(ifaces: Ifaces, id: IPAddress)
    ensures OnlyPick(AddressesIn(ifaces), id) <==> forall x :: MayPick(ifaces, x) <==> x == id
  {
    var addrs := AddressesIn(ifaces);
    forall x ensures MayPick(ifaces, x) <==> Pickable(addrs, x) {
      MayPickIff(ifaces, x);
    }
    if OnlyPick(addrs, id) {
      forall x ensures Pickable(addrs, x) <==> x == id {
        OnlyIsPickable(addrs, id, x);
      }
    }
    if forall x :: Pickable(addrs, x) <==> x == id {
      PickableIsOnly(addrs, id);
    }
    assert (forall x :: Pickable(addrs, x) <==> x == id) <==> (forall x :: MayPick(ifaces, x) <==> x == id);
  }

  lemma OnlyIsPickable(addrs: set<IPAddress>, id: IPAddress, x: IPAddress)
    requires OnlyPick(addrs, id)
    ensures Pickable(addrs, x) <==> x == id
  {
    if UNSET !in addrs {
      forall a | a in addrs ensures !Less(a, id) {
        BeforeIsTotal(AddressText(id), AddressText(a));
      }
    }
  }

  lemma PickableIsOnly(addrs: set<IPAddress>, id: IPAddress)
    requires forall x :: Pickable(addrs, x) <==> x == id
    ensures OnlyPick(addrs, id)
  {
    assert Pickable(addrs, id) && (Pickable(addrs, DEFAULT_ID) ==> id == DEFAULT_ID);
    forall a | a in addrs ensures if UNSET in addrs then a == UNSET || a == id else a == id || Less(id, a) {
      BeforeIsTotal(AddressText(id), AddressText(a));
      assert Pickable(addrs, a) ==> a == id;
    }
  }

  // ---------------------------------------------------------------- OSPF network statements

  /** The statement names a block that contains the address; no text but an address is in a block. */
  predicate Covers(stmt: OspfNetwork, ip: IPAddress) {
    ip.V4? && ParseCidr(stmt.cidr).Some? && Contains(ParseCidr(stmt.cidr).value, ip.addr)
  }

  function FirstMatch(networks: seq<OspfNetwork>, ip: IPAddress): Option<OspfNetwork> {
    if networks == [] then None
    else if Covers(networks[0], ip) then Some(networks[0])
    else FirstMatch(networks[1..], ip)
  }

  /** The block that the statement names holds the address. */
  predicate Holds(stmt: OspfNetwork, ip: IPAddress) {
    ip.V4? && ParseCidr(stmt.cidr).Some? && InBlock(ParseCidr(stmt.cidr).value, ip.addr)
  }

  lemma CoversIff(stmt: OspfNetwork, ip: IPAddress)
    ensures Covers(stmt, ip) <==> Holds(stmt, ip)
  {
    if ip.V4? && ParseCidr(stmt.cidr).Some? {
      ContainsIff(stmt.cidr, ip.addr);
    }
  }

  /** The match is the first statement whose block holds the address. */
  lemma {:induction false} FirstMatchIs(networks: seq<OspfNetwork>, ip: IPAddress, i: nat)
    requires i <= |networks| && (forall j :: 0 <= j < i ==> !Holds(networks[j], ip))
    requires i < |networks| ==> Holds(networks[i], ip)
    ensures FirstMatch(networks, ip) == if i < |networks| then Some(networks[i]) else None
  {
    if networks != [] {
      CoversIff(networks[0], ip);
      if i > 0 {
        FirstMatchIs(networks[1..], ip, i - 1);
      }
    }
  }

  method MatchInterface(networks: seq<OspfNetwork>, ip: IPAddress) returns (stmt: Option<OspfNetwork>)
    ensures stmt == FirstMatch(networks, ip)
  {
    for i := 0 to |networks|
      invariant FirstMatch(networks, ip) == FirstMatch(networks[i..], ip)
    {
      assert networks[i..][1..] == networks[i + 1..];
      if Covers(networks[i], ip) {
        return Some(networks[i]);
      }
    }
    return None;
  }

  /** The interfaces that the statements enable, each in the area of its first match. */
  function EnabledInterfaces(ifaces: Ifaces, networks: seq<OspfNetwork>): map<PortId, OspfIface> {
    map p | p in ifaces && FirstMatch(networks, ifaces[p].ip).Some? ::
      OspfIface(ifaces[p].ip, ifaces[p].mask, FirstMatch(networks, ifaces[p].ip).value.area)
  }

  /** An interface takes part in OSPF exactly when some statement holds its address, in the area of
      the first one that does. */
  lemma EnabledIff(ifaces: Ifaces, networks: seq<OspfNetwork>, p: PortId, i: nat)
    requires p in ifaces && i <= |networks| && (forall j :: 0 <= j < i ==> !Holds(networks[j], ifaces[p].ip))
    requires i < |networks| ==> Holds(networks[i], ifaces[p].ip)
    ensures p in EnabledInterfaces(ifaces, networks) <==> i < |networks|
    ensures i < |networks| ==> EnabledInterfaces(ifaces, networks)[p] == OspfIface(ifaces[p].ip, ifaces[p].mask, networks[i].area)
  {
    FirstMatchIs(networks, ifaces[p].ip, i);
  }

  /** Adds the statements, then enables every interface that matches one; none is ever disabled. */
  method ConfigureOspfNetworks(o: Ospf, ifaces: Ifaces, stmts: seq<OspfNetwork>) returns (configured: Ospf)
    ensures configured == o.(networks := o.networks + stmts, interfaces := o.interfaces + EnabledInterfaces(ifaces, o.networks + stmts))
  {
    var networks := o.networks + stmts;
    var enabled: map<PortId, OspfIface> := o.interfaces;
    var todo := ifaces.Keys;
    while todo != {}
      invariant todo <= ifaces.Keys && enabled == o.interfaces + EnabledInterfaces(ifaces - todo, networks)
      decreases todo
    {
      var port :| port in todo;
      var stmt := MatchInterface(networks, ifaces[port].ip);
      assert EnabledInterfaces(ifaces - (todo - {port}), networks)
          == if stmt.Some? then EnabledInterfaces(ifaces - todo, networks)[port := OspfIface(ifaces[port].ip, ifaces[port].mask, stmt.value.area)]
             else EnabledInterfaces(ifaces - todo, networks);
      if stmt.Some? {
        enabled := enabled[port := OspfIface(ifaces[port].ip, ifaces[port].mask, stmt.value.area)];
      }
      todo := todo - {port};
    }
    assert ifaces - {} == ifaces;
    configured := o.(networks := networks, interfaces := enabled);
  }

  // ---------------------------------------------------------------- more interfaces

  function IdsIn(s: Settings): set<IPAddress> {
    (if s.ospf.Some? then {s.ospf.value.routerID} else {}) + (if s.rip.Some? then {s.rip.value.routerID} else {})
    + (if s.eigrp.Some? then {s.eigrp.value.routerID} else {}) + (if s.bgp.Some? then {s.bgp.value.routerID} else {})
  }

  ghost predicate OspfMatches(ifaces: Ifaces, s: Settings) {
    s.ospf.Some? ==> s.ospf.value.interfaces == EnabledInterfaces(ifaces, s.ospf.value.networks)
  }

  /** Processes enabled and configured on these interfaces look like this, for some map orders. */
  ghost predicate MayRun(ifaces: Ifaces, s: Settings) {
    (forall id :: id in IdsIn(s) ==> MayPick(ifaces, id)) && OspfMatches(ifaces, s)
  }

  /** They look like this whatever the map orders. */
  ghost predicate MustRun(ifaces: Ifaces, s: Settings) {
    (forall id :: id in IdsIn(s) ==> OnlyPick(AddressesIn(ifaces), id)) && OspfMatches(ifaces, s)
  }

  /** None of the new addresses would be picked before this one. */
  ghost predicate StaysFirst(addrs: set<IPAddress>, more: set<IPAddress>, id: IPAddress) {
    addrs != {} && UNSET !in addrs && forall a :: a in more ==> a == id || Less(id, a)
  }

  /** New interfaces would change nothing if the processes were enabled and configured again. */
  ghost predicate Unaffected(ifaces: Ifaces, more: Ifaces, s: Settings) {
    more != map[] ==>
      && (forall id :: id in IdsIn(s) ==> StaysFirst(AddressesIn(ifaces), AddressesIn(more), id))
      && (s.ospf.Some? ==> forall p :: p in more ==> FirstMatch(s.ospf.value.networks, more[p].ip).None?)
  }

  lemma AddressesGrow(ifaces: Ifaces, more: Ifaces)
    requires more.Keys !! ifaces.Keys
    ensures AddressesIn(ifaces + more) == AddressesIn(ifaces) + AddressesIn(more)
    ensures more != map[] ==> AddressesIn(more) != {}
  {
    var all := ifaces + more;
    forall p | p in ifaces ensures ifaces[p].ip in AddressesIn(all) {
      assert all[p] == ifaces[p];
    }
    forall p | p in more ensures more[p].ip in AddressesIn(all) && more[p].ip in AddressesIn(more) {
      assert all[p] == more[p];
    }
  }

  /** Exactly when more addresses keep the ID the only one to pick. */
  lemma OnlyPickGrowsIff(addrs: set<IPAddress>, more: set<IPAddress>, id: IPAddress)
    requires Pickable(addrs, id) && more != {} && more !! {UNSET, DEFAULT_ID}
    ensures OnlyPick(addrs + more, id) <==> OnlyPick(addrs, id) && StaysFirst(addrs, more, id)
  {
    var a :| a in more;
    assert a in addrs + more;
  }

  lemma MatchesGrowsIff(ifaces: Ifaces, more: Ifaces, networks: seq<OspfNetwork>)
    requires more.Keys !! ifaces.Keys
    ensures EnabledInterfaces(ifaces + more, networks) == EnabledInterfaces(ifaces, networks)
            <==> forall p :: p in more ==> FirstMatch(networks, more[p].ip).None?
  {
    var all := ifaces + more;
    forall p | p in more ensures p in EnabledInterfaces(all, networks) <==> FirstMatch(networks, more[p].ip).Some? {
      assert all[p] == more[p];
    }
    assert forall p :: p in ifaces ==> all[p] == ifaces[p];
  }

  /** Exactly when interfaces that come later leave the processes as a fresh start would have them. */
  lemma MustRunGrowsIff(ifaces: Ifaces, more: Ifaces, s: Settings)
    requires MayRun(ifaces, s) && more.Keys !! ifaces.Keys
    requires forall p :: p in more ==> more[p].ip != UNSET && more[p].ip != DEFAULT_ID
    ensures MustRun(ifaces + more, s) <==> MustRun(ifaces, s) && Unaffected(ifaces, more, s)
  {
    if more == map[] {
      assert ifaces + more == ifaces;
    } else {
      var addrs, added := AddressesIn(ifaces), AddressesIn(more);
      AddressesGrow(ifaces, more);
      forall id | id in IdsIn(s) ensures OnlyPick(addrs + added, id) <==> OnlyPick(addrs, id) && StaysFirst(addrs, added, id) {
        MayPickIff(ifaces, id);
        OnlyPickGrowsIff(addrs, added, id);
      }
      if s.ospf.Some? {
        MatchesGrowsIff(ifaces, more, s.ospf.value.networks);
      }
    }
  }
}
