/** When saving and loading loses nothing: the exact conditions, what adding links and enabling
    processes does to them, and what gets lost.
 */
module RoundTrips {
  import opened Addressing
  import opened Listings
  import opened RouterProcesses
  import opened RoutingTable
  import opened Snapshots
  import Switching
  import opened Topology

  // ---------------------------------------------------------------- settled contents

  /** What every manager state satisfies: sound static rows and 16-bit VLAN numbers. */
  ghost predicate Sound(c: Content) {
    && (forall r :: r in c.routers ==> SoundRows(c.routers[r].statics))
    && (forall s :: s in c.switches ==> forall v :: v in c.switches[s].vlans ==> 0 <= v < VLAN_SPACE)
  }

  predicate PlainSwitch(sw: SwitchState) {
    VLAN_DEFAULT in sw.vlans && sw.rest == AsNew && forall p :: p in sw.ports ==> sw.ports[p] == Switching.DEFAULT_PORT
  }

  /** Nothing is configured that a snapshot cannot hold: the default VLAN exists, switch ports have
      their default settings, and the rest of every device is as new. */
  ghost predicate Plain(c: Content) {
    && (forall s :: s in c.switches ==> PlainSwitch(c.switches[s]))
    && (forall r :: r in c.routers ==> c.routers[r].rest == AsNew)
    && (forall h :: h in c.hosts ==> c.hosts[h].rest == AsNew)
  }

  function AllMet<V>(c: Content, r: Id, what: PortNeighbor -> Option<V>): map<PortId, V> {
    MetAll(map[], c.links, IfacesOf(c.routers), r, what)
  }

  /** The router's link ends have addresses, and each port and RIP itself have the far end of the
      last link on record, and no other. */
  ghost predicate MarkedRouter(c: Content, r: Id)
    requires r in c.routers
  {
    && RouterEndsOf(c.links, c.routers.Keys, r) <= c.routers[r].interfaces.Keys
    && c.routers[r].neighbors == AllMet(c, r, Whole)
    && (c.routers[r].settings.rip.Some? ==> RipPeers(c.routers[r].settings) == AllMet(c, r, RemoteAddress))
  }

  /** Every link has left its mark: switch ends are registered, routers know each other, and the
      uplink of a host is the far end of the last link that touches it. */
  ghost predicate Marked(c: Content) {
    && (forall s :: s in c.switches ==> EndsOf(c.links, s) <= c.switches[s].ports.Keys)
    && (forall r :: r in c.routers ==> MarkedRouter(c, r))
    && (forall h :: h in c.hosts ==> Uplink(c.links, h, c.hosts[h].uplink) == c.hosts[h].uplink)
  }

  /** Moreover every process has the router ID and OSPF interfaces that a fresh start would give it. */
  ghost predicate Settled(c: Content) {
    Plain(c) && Marked(c) && forall r :: r in c.routers ==> MustRun(c.routers[r].interfaces, c.routers[r].settings)
  }

  /** As Settled, but where an unset address leaves the choice of an ID open, any possible one will do. */
  ghost predicate MaySurvive(c: Content) {
    Plain(c) && Marked(c) && forall r :: r in c.routers ==> MayRun(c.routers[r].interfaces, c.routers[r].settings)
  }

  ghost predicate IdsAre(s: Settings, ids: RouterIds) {
    && (s.ospf.Some? ==> s.ospf.value.routerID == ids.ospf)
    && (s.rip.Some? ==> s.rip.value.routerID == ids.rip)
    && (s.eigrp.Some? ==> s.eigrp.value.routerID == ids.eigrp)
    && (s.bgp.Some? ==> s.bgp.value.routerID == ids.bgp)
  }

  // ---------------------------------------------------------------- what a load restores

  lemma RestoredIsSound(s: TopologySnapshot, ids: map<Id, RouterIds>)
    ensures Sound(Restored(s, ids)) && Plain(Restored(s, ids))
  {
    var c := Restored(s, ids);
    forall r | r in c.routers ensures SoundRows(c.routers[r].statics) {
      RestoredStaticsAreSound(LastNamed(s)[r].staticRoutes);
    }
    forall w | w in c.switches ensures PlainSwitch(c.switches[w]) && forall v :: v in c.switches[w].vlans ==> 0 <= v < VLAN_SPACE {
      FromListValues(s.switches, SwitchName, RestoredSwitch, w);
    }
    forall h | h in c.hosts ensures c.hosts[h].rest == AsNew {
      FromListValues(s.hosts, HostName, RestoredHost, h);
    }
  }

  function SavedRouter(r: Router, ids: RouterIds): Router {
    Router(r.interfaces, r.statics, Started(Stated(r.settings), r.interfaces, ids), map[], AsNew)
  }

  function SavedSwitch(sw: SwitchState): SwitchState {
    SwitchState(DefaultPorts(sw.ports.Keys), sw.vlans + {VLAN_DEFAULT}, AsNew)
  }

  function SavedRouters(rs: map<Id, Router>, ids: map<Id, RouterIds>): map<Id, Router> {
    map r | r in rs :: SavedRouter(rs[r], IdsOf(ids, r))
  }

  function SavedSwitches(ss: map<Id, SwitchState>): map<Id, SwitchState> {
    map s | s in ss :: SavedSwitch(ss[s])
  }

  function SavedHosts(hs: map<Id, Host>): map<Id, Host> {
    map h | h in hs :: SavedHost(hs[h])
  }

  /** What a load restores of an exported content, before the links are applied. */
  function Saved(c: Content, ids: map<Id, RouterIds>): Content {
    Content(SavedRouters(c.routers, ids), SavedSwitches(c.switches), SavedHosts(c.hosts), c.links)
  }

  lemma RouterRoundTrip(r: Router, rs: RouterSnapshot, ids: RouterIds)
    requires SoundRows(r.statics) && ExportsRouter(r, rs)
    ensures RestoredRouter(rs, ids) == SavedRouter(r, ids)
    ensures RestoredIfaces(rs) == r.interfaces && RestoredStatements(rs) == Stated(r.settings)
  {
    FromListIs(rs.interfaces, PortOf, IfaceOf, r.interfaces);
    StaticsRoundTrip(r.statics, rs.staticRoutes);
  }

  lemma CutKeeps(list: seq<int>, vlans: set<int>)
    requires ElementsOf(list) == vlans && forall v :: v in vlans ==> 0 <= v < VLAN_SPACE
    ensures CutAll(list) == vlans
  {
    forall v | v in list ensures Cut(v) == v {
      assert v in ElementsOf(list);
    }
    forall v | v in vlans ensures v in CutAll(list) {
      assert v in ElementsOf(list) && Cut(v) == v;
    }
  }

  lemma SwitchRoundTrip(sw: SwitchState, ss: SwitchSnapshot)
    requires ExportsSwitch(sw, ss) && forall v :: v in sw.vlans ==> 0 <= v < VLAN_SPACE
    ensures RestoredSwitch(ss) == SavedSwitch(sw)
  {
    ListedElements(ss.ports, sw.ports.Keys);
    ListedElements(ss.vlans, sw.vlans);
    CutKeeps(ss.vlans, sw.vlans);
    assert {VLAN_DEFAULT} + sw.vlans == sw.vlans + {VLAN_DEFAULT};
  }

  /** The last snapshot of a name, in an export the only one. */
  lemma LastIsExported(c: Content, s: TopologySnapshot)
    requires Exports(c, s)
    ensures LastNamed(s).Keys == c.routers.Keys
    ensures forall r :: r in c.routers ==> LastNamed(s)[r] in s.routers && LastNamed(s)[r].id == r
  {
    forall r ensures r in LastNamed(s) <==> r in c.routers {
      FromListValues(s.routers, RouterName, Itself, r);
      if r in c.routers {
        var i :| 0 <= i < |s.routers| && RouterName(s.routers[i]) == r;
      }
    }
    forall r | r in c.routers ensures LastNamed(s)[r] in s.routers && LastNamed(s)[r].id == r {
      FromListValues(s.routers, RouterName, Itself, r);
    }
  }

  lemma RestoredExport(c: Content, s: TopologySnapshot, ids: map<Id, RouterIds>)
    requires Sound(c) && Exports(c, s)
    ensures Restored(s, ids) == Saved(c, ids)
  {
    var ss, hs := SavedSwitches(c.switches), SavedHosts(c.hosts);
    assert ss.Keys == c.switches.Keys && hs.Keys == c.hosts.Keys;
    RestoredExportRouters(c, s, ids);
    forall i | 0 <= i < |s.switches| ensures ss[SwitchName(s.switches[i])] == RestoredSwitch(s.switches[i]) {
      assert s.switches[i] in s.switches;
      SwitchRoundTrip(c.switches[s.switches[i].id], s.switches[i]);
    }
    FromListIs(s.switches, SwitchName, RestoredSwitch, ss);
    forall i | 0 <= i < |s.hosts| ensures hs[HostName(s.hosts[i])] == RestoredHost(s.hosts[i]) {
      assert s.hosts[i] in s.hosts;
    }
    FromListIs(s.hosts, HostName, RestoredHost, hs);
  }

  lemma ExportedRouter(c: Content, s: TopologySnapshot, r: Id, ids: RouterIds)
    requires Sound(c) && Exports(c, s) && r in c.routers
    ensures r in LastNamed(s) && RestoredRouter(LastNamed(s)[r], ids) == SavedRouter(c.routers[r], ids)
    ensures RestoredIfaces(LastNamed(s)[r]) == c.routers[r].interfaces && RestoredStatements(LastNamed(s)[r]) == Stated(c.routers[r].settings)
  {
    LastIsExported(c, s);
    RouterRoundTrip(c.routers[r], LastNamed(s)[r], ids);
  }

  lemma RestoredRoutersAre(s: TopologySnapshot, ids: map<Id, RouterIds>, rs: map<Id, Router>)
    requires LastNamed(s).Keys == rs.Keys
    requires forall r :: r in rs ==> RestoredRouter(LastNamed(s)[r], IdsOf(ids, r)) == SavedRouter(rs[r], IdsOf(ids, r))
    ensures RestoredRouters(s, ids) == SavedRouters(rs, ids)
  {}

  lemma RestoredExportRouters(c: Content, s: TopologySnapshot, ids: map<Id, RouterIds>)
    requires Sound(c) && Exports(c, s)
    ensures RestoredRouters(s, ids) == SavedRouters(c.routers, ids)
  {
    assert LastNamed(s).Keys == c.routers.Keys by {
      LastIsExported(c, s);
    }
    forall r | r in c.routers ensures RestoredRouter(LastNamed(s)[r], IdsOf(ids, r)) == SavedRouter(c.routers[r], IdsOf(ids, r)) {
      ExportedRouter(c, s, r, IdsOf(ids, r));
    }
    RestoredRoutersAre(s, ids, c.routers);
  }

  ghost predicate PicksIn(c: Content, ids: map<Id, RouterIds>) {
    forall r :: r in c.routers ==> PicksFor(Stated(c.routers[r].settings), c.routers[r].interfaces, IdsOf(ids, r))
  }

  /** The possible choices of IDs, read off the content itself. */
  lemma PicksOfExport(c: Content, s: TopologySnapshot, ids: map<Id, RouterIds>)
    requires Sound(c) && Exports(c, s)
    ensures Picks(s, ids) <==> PicksIn(c, ids)
  {
    assert LastNamed(s).Keys == c.routers.Keys by {
      LastIsExported(c, s);
    }
    forall r | r in c.routers
      ensures PicksFor(RestoredStatements(LastNamed(s)[r]), RestoredIfaces(LastNamed(s)[r]), IdsOf(ids, r))
              <==> PicksFor(Stated(c.routers[r].settings), c.routers[r].interfaces, IdsOf(ids, r))
    {
      ExportedRouter(c, s, r, IdsOf(ids, r));
    }
  }

  // ---------------------------------------------------------------- when a load gives the content back

  lemma StartedIff(s: Settings, ifaces: Ifaces, ids: RouterIds, peers: map<PortId, IPAddress>)
    ensures WithRipPeers(Started(Stated(s), ifaces, ids), peers) == s
            <==> IdsAre(s, ids) && OspfMatches(ifaces, s) && (s.rip.Some? ==> RipPeers(s) == peers)
  {}

  lemma LinkedAllChangesIff(ifaces: Ifaces, links: seq<TopologyLink>, names: set<Id>, node: Id, index: nat)
    ensures LinkedAll(ifaces, links, names, node, index) == ifaces <==> RouterEndsOf(links, names, node) <= ifaces.Keys
  {
    LinkedAllMeaning(ifaces, links, names, node, index);
  }

  function Loaded(c: Content, ids: map<Id, RouterIds>): Content {
    Applied(Saved(c, ids), c.links, |c.links|)
  }

  lemma LoadedIfaces(c: Content, ids: map<Id, RouterIds>, r: Id)
    requires r in c.routers
    ensures r in Loaded(c, ids).routers
    ensures Loaded(c, ids).routers[r].interfaces == LinkedAll(c.routers[r].interfaces, c.links, c.routers.Keys, r, |c.links|)
    ensures Loaded(c, ids).routers[r].interfaces == c.routers[r].interfaces <==>
            RouterEndsOf(c.links, c.routers.Keys, r) <= c.routers[r].interfaces.Keys
  {
    assert Saved(c, ids).routers.Keys == c.routers.Keys;
    AppliedIfaces(Saved(c, ids), c.links, |c.links|, r);
    LinkedAllChangesIff(c.routers[r].interfaces, c.links, c.routers.Keys, r, |c.links|);
  }

  ghost predicate AllAddressed(c: Content) {
    forall r :: r in c.routers ==> RouterEndsOf(c.links, c.routers.Keys, r) <= c.routers[r].interfaces.Keys
  }

  lemma SameIfacesIff(rs: map<Id, Router>, qs: map<Id, Router>)
    requires qs.Keys == rs.Keys
    ensures IfacesOf(qs) == IfacesOf(rs) <==> forall r :: r in rs ==> qs[r].interfaces == rs[r].interfaces
  {
    var at, now := IfacesOf(rs), IfacesOf(qs);
    assert forall r :: r in rs ==> at[r] == rs[r].interfaces && now[r] == qs[r].interfaces;
    assert now == at <==> forall r :: r in rs ==> now[r] == at[r];
  }

  lemma LoadedKeys(c: Content, ids: map<Id, RouterIds>)
    ensures Loaded(c, ids).routers.Keys == c.routers.Keys
  {
    AppliedEdges(Saved(c, ids), c.links, |c.links|);
    assert Saved(c, ids).routers.Keys == c.routers.Keys;
  }

  lemma LoadedIfacesIff(c: Content, ids: map<Id, RouterIds>)
    ensures Loaded(c, ids).routers.Keys == c.routers.Keys
    ensures IfacesOf(Loaded(c, ids).routers) == IfacesOf(c.routers) <==> AllAddressed(c)
  {
    LoadedKeys(c, ids);
    forall r | r in c.routers
      ensures Loaded(c, ids).routers[r].interfaces == c.routers[r].interfaces <==>
              RouterEndsOf(c.links, c.routers.Keys, r) <= c.routers[r].interfaces.Keys
    {
      LoadedIfaces(c, ids, r);
    }
    SameIfacesIff(c.routers, Loaded(c, ids).routers);
  }

  /** The load gives this router back. */
  ghost predicate LoadsAsIs(c: Content, ids: map<Id, RouterIds>, r: Id)
    requires r in c.routers
  {
    && c.routers[r].rest == AsNew && MarkedRouter(c, r)
    && IdsAre(c.routers[r].settings, IdsOf(ids, r)) && OspfMatches(c.routers[r].interfaces, c.routers[r].settings)
  }

  lemma LoadedRouterIff(c: Content, ids: map<Id, RouterIds>, r: Id)
    requires r in c.routers && IfacesOf(Loaded(c, ids).routers) == IfacesOf(c.routers)
    ensures r in Loaded(c, ids).routers
    ensures Loaded(c, ids).routers[r] == c.routers[r] <==> LoadsAsIs(c, ids, r)
  {
    var d := Loaded(c, ids);
    LoadedIfaces(c, ids, r);
    AppliedRecords(Saved(c, ids), c.links, |c.links|, r);
    assert d.routers[r].interfaces == IfacesOf(d.routers)[r];
    StartedIff(c.routers[r].settings, c.routers[r].interfaces, IdsOf(ids, r), AllMet(c, r, RemoteAddress));
  }

  lemma AsIsLoads(c: Content, ids: map<Id, RouterIds>)
    requires forall r :: r in c.routers ==> LoadsAsIs(c, ids, r)
    ensures Loaded(c, ids).routers == c.routers
  {
    assert forall r :: r in c.routers ==> LoadsAsIs(c, ids, r) && MarkedRouter(c, r);
    LoadedIfacesIff(c, ids);
    forall r | r in c.routers ensures Loaded(c, ids).routers[r] == c.routers[r] {
      LoadedRouterIff(c, ids, r);
    }
  }

  lemma LoadedIsAsIs(c: Content, ids: map<Id, RouterIds>, r: Id)
    requires Loaded(c, ids).routers == c.routers && r in c.routers
    ensures LoadsAsIs(c, ids, r)
  {
    LoadedRouterIff(c, ids, r);
  }

  lemma LoadedRoutersIff(c: Content, ids: map<Id, RouterIds>)
    ensures Loaded(c, ids).routers == c.routers <==> forall r :: r in c.routers ==> LoadsAsIs(c, ids, r)
  {
    if Loaded(c, ids).routers == c.routers {
      forall r | r in c.routers ensures LoadsAsIs(c, ids, r) {
        LoadedIsAsIs(c, ids, r);
      }
    }
    if forall r :: r in c.routers ==> LoadsAsIs(c, ids, r) {
      AsIsLoads(c, ids);
    }
  }

  lemma LoadedSwitchesIff(ss: map<Id, SwitchState>, links: seq<TopologyLink>)
    ensures LinkedSwitches(SavedSwitches(ss), links) == ss <==>
            forall s :: s in ss ==> PlainSwitch(ss[s]) && EndsOf(links, s) <= ss[s].ports.Keys
  {
    var after := LinkedSwitches(SavedSwitches(ss), links);
    forall s | s in ss ensures after[s] == ss[s] <==> PlainSwitch(ss[s]) && EndsOf(links, s) <= ss[s].ports.Keys {
      LoadedSwitchIff(ss[s], EndsOf(links, s));
    }
    assert after == ss <==> forall s :: s in ss ==> after[s] == ss[s];
  }

  lemma LoadedSwitchIff(sw: SwitchState, ends: set<PortId>)
    ensures WithPorts(SavedSwitch(sw), ends) == sw <==> PlainSwitch(sw) && ends <= sw.ports.Keys
  {
    var ports := DefaultPorts(ends) + DefaultPorts(sw.ports.Keys);
    assert ports == DefaultPorts(ends + sw.ports.Keys);
    assert sw.vlans + {VLAN_DEFAULT} == sw.vlans <==> VLAN_DEFAULT in sw.vlans;
    assert ends + sw.ports.Keys == sw.ports.Keys <==> ends <= sw.ports.Keys;
    assert ports == sw.ports <==> ports.Keys == sw.ports.Keys && forall p :: p in sw.ports ==> sw.ports[p] == Switching.DEFAULT_PORT;
  }

  lemma LoadedHostsIff(hs: map<Id, Host>, links: seq<TopologyLink>)
    ensures LinkedHosts(SavedHosts(hs), links) == hs <==>
            forall h :: h in hs ==> hs[h].rest == AsNew && Uplink(links, h, hs[h].uplink) == hs[h].uplink
  {
    var after := LinkedHosts(SavedHosts(hs), links);
    assert after == hs <==> forall h :: h in hs ==> after[h] == hs[h];
  }

  /** One load gives the content back exactly when it is plain and marked, and its processes have
      the IDs picked in this load and the OSPF interfaces that their statements match. */
  lemma LoadedIff(c: Content, s: TopologySnapshot, ids: map<Id, RouterIds>)
    requires Sound(c) && Exports(c, s)
    ensures Imported(s, ids) == c <==>
            && Plain(c) && Marked(c)
            && forall r :: r in c.routers ==>
                 IdsAre(c.routers[r].settings, IdsOf(ids, r)) && OspfMatches(c.routers[r].interfaces, c.routers[r].settings)
  {
    RestoredExport(c, s, ids);
    LoadedContentIff(c, ids);
    LoadsIff(c, ids);
  }

  lemma LoadsIff(c: Content, ids: map<Id, RouterIds>)
    ensures Loads(c, ids) <==>
            && Plain(c) && Marked(c)
            && forall r :: r in c.routers ==>
                 IdsAre(c.routers[r].settings, IdsOf(ids, r)) && OspfMatches(c.routers[r].interfaces, c.routers[r].settings)
  {
    if Loads(c, ids) {
      assert forall r :: r in c.routers ==> LoadsAsIs(c, ids, r);
    }
  }

  ghost predicate Loads(c: Content, ids: map<Id, RouterIds>) {
    && (forall r :: r in c.routers ==> LoadsAsIs(c, ids, r))
    && (forall s :: s in c.switches ==> PlainSwitch(c.switches[s]) && EndsOf(c.links, s) <= c.switches[s].ports.Keys)
    && (forall h :: h in c.hosts ==> c.hosts[h].rest == AsNew && Uplink(c.links, h, c.hosts[h].uplink) == c.hosts[h].uplink)
  }

  lemma LoadedContentIff(c: Content, ids: map<Id, RouterIds>)
    ensures Loaded(c, ids) == c <==> Loads(c, ids)
  {
    AppliedEdges(Saved(c, ids), c.links, |c.links|);
    LoadedRoutersIff(c, ids);
    LoadedSwitchesIff(c.switches, c.links);
    LoadedHostsIff(c.hosts, c.links);
  }

  /** Some choice of IDs is always possible. */
  lemma PicksExist(c: Content) returns (ids: map<Id, RouterIds>)
    ensures PicksIn(c, ids)
  {
    ids := map r | r in c.routers :: SomeIds(c.routers[r].interfaces);
  }

  ghost function SomeIds(ifaces: Ifaces): (ids: RouterIds)
    ensures forall st :: PicksFor(st, ifaces, ids)
  {
    var id := Pick(ifaces);
    RouterIds(id, id, id, id)
  }

  ghost function Pick(ifaces: Ifaces): (id: IPAddress)
    ensures MayPick(ifaces, id)
  {
    assert exists id :: MayPick(ifaces, id) by {
      var id := PickExists(ifaces);
    }
    var id :| MayPick(ifaces, id);
    id
  }

  // ---------------------------------------------------------------- the exact conditions

  lemma SettledLoads(c: Content, s: TopologySnapshot, ids: map<Id, RouterIds>)
    requires Sound(c) && Exports(c, s) && Settled(c) && Picks(s, ids)
    ensures Imported(s, ids) == c
  {
    PicksOfExport(c, s, ids);
    forall r | r in c.routers ensures IdsAre(c.routers[r].settings, IdsOf(ids, r)) {
      MustRunPicks(c.routers[r].interfaces, c.routers[r].settings, IdsOf(ids, r));
    }
    LoadedIff(c, s, ids);
  }

  lemma MustRunPicks(ifaces: Ifaces, s: Settings, ids: RouterIds)
    requires MustRun(ifaces, s) && PicksFor(Stated(s), ifaces, ids)
    ensures IdsAre(s, ids)
  {
    OwnIdsAreIn(s);
    forall id, x | id in IdsIn(s) && MayPick(ifaces, x) ensures x == id {
      OnlyPickIff(ifaces, id);
    }
  }

  lemma OwnIdsAreIn(s: Settings)
    ensures s.ospf.Some? ==> s.ospf.value.routerID in IdsIn(s)
    ensures s.rip.Some? ==> s.rip.value.routerID in IdsIn(s)
    ensures s.eigrp.Some? ==> s.eigrp.value.routerID in IdsIn(s)
    ensures s.bgp.Some? ==> s.bgp.value.routerID in IdsIn(s)
  {}

  /** Whatever else can be picked would be picked by some load. */
  lemma LoadsAreOne(c: Content, ids: map<Id, RouterIds>, r: Id, x: IPAddress)
    requires PicksIn(c, ids) && r in c.routers && MayPick(c.routers[r].interfaces, x)
    requires forall more :: PicksIn(c, more) ==> Loads(c, more)
    ensures forall id :: id in IdsIn(c.routers[r].settings) ==> id == x
  {
    OtherPick(c, ids, r, x);
    assert LoadsAsIs(c, ids[r := RouterIds(x, x, x, x)], r);
    AllIdsAre(c.routers[r].settings, x);
  }

  lemma OtherPick(c: Content, ids: map<Id, RouterIds>, r: Id, x: IPAddress)
    requires PicksIn(c, ids) && r in c.routers && MayPick(c.routers[r].interfaces, x)
    ensures PicksIn(c, ids[r := RouterIds(x, x, x, x)])
    ensures IdsOf(ids[r := RouterIds(x, x, x, x)], r) == RouterIds(x, x, x, x)
  {
    var more := ids[r := RouterIds(x, x, x, x)];
    forall q | q in c.routers ensures PicksFor(Stated(c.routers[q].settings), c.routers[q].interfaces, IdsOf(more, q)) {
      assert PicksFor(Stated(c.routers[q].settings), c.routers[q].interfaces, IdsOf(ids, q));
    }
  }

  lemma AllIdsAre(s: Settings, x: IPAddress)
    requires IdsAre(s, RouterIds(x, x, x, x))
    ensures forall id :: id in IdsIn(s) ==> id == x
  {}

  lemma AlwaysLoadedIsSettled(c: Content)
    requires forall ids :: PicksIn(c, ids) ==> Loads(c, ids)
    ensures Settled(c)
  {
    var ids := PicksExist(c);
    LoadsIff(c, ids);
    forall r, id | r in c.routers && id in IdsIn(c.routers[r].settings)
      ensures OnlyPick(AddressesIn(c.routers[r].interfaces), id)
    {
      SettledIds(c, ids, r, id);
    }
  }

  lemma SettledIds(c: Content, ids: map<Id, RouterIds>, r: Id, id: IPAddress)
    requires PicksIn(c, ids) && r in c.routers && id in IdsIn(c.routers[r].settings)
    requires forall more :: PicksIn(c, more) ==> Loads(c, more)
    ensures OnlyPick(AddressesIn(c.routers[r].interfaces), id)
  {
    var ifaces := c.routers[r].interfaces;
    var y := Pick(ifaces);
    LoadsAreOne(c, ids, r, y);
    forall x | MayPick(ifaces, x) ensures x == id {
      LoadsAreOne(c, ids, r, x);
    }
    OnlyPickIff(ifaces, id);
  }

  /** The IDs that the processes have. */
  function OwnIds(s: Settings): RouterIds {
    RouterIds(
      if s.ospf.Some? then s.ospf.value.routerID else UNSET, if s.rip.Some? then s.rip.value.routerID else UNSET,
      if s.eigrp.Some? then s.eigrp.value.routerID else UNSET, if s.bgp.Some? then s.bgp.value.routerID else UNSET)
  }

  lemma MayRunIff(ifaces: Ifaces, s: Settings)
    ensures MayRun(ifaces, s) <==> PicksFor(Stated(s), ifaces, OwnIds(s)) && OspfMatches(ifaces, s)
  {}

  lemma LoadedMaySurvive(c: Content, s: TopologySnapshot, ids: map<Id, RouterIds>)
    requires Sound(c) && Exports(c, s) && Picks(s, ids) && Imported(s, ids) == c
    ensures MaySurvive(c)
  {
    PicksOfExport(c, s, ids);
    LoadedIff(c, s, ids);
    forall r | r in c.routers ensures MayRun(c.routers[r].interfaces, c.routers[r].settings) {
      IdsRun(c.routers[r].interfaces, c.routers[r].settings, IdsOf(ids, r));
    }
  }

  lemma IdsRun(ifaces: Ifaces, s: Settings, ids: RouterIds)
    requires IdsAre(s, ids) && PicksFor(Stated(s), ifaces, ids) && OspfMatches(ifaces, s)
    ensures MayRun(ifaces, s)
  {}

  lemma SurvivorLoads(c: Content, s: TopologySnapshot) returns (ids: map<Id, RouterIds>)
    requires Sound(c) && Exports(c, s) && MaySurvive(c)
    ensures Picks(s, ids) && Imported(s, ids) == c
  {
    ids := map r | r in c.routers :: OwnIds(c.routers[r].settings);
    forall r | r in c.routers
      ensures PicksFor(Stated(c.routers[r].settings), c.routers[r].interfaces, IdsOf(ids, r)) && IdsAre(c.routers[r].settings, IdsOf(ids, r))
    {
      MayRunIff(c.routers[r].interfaces, c.routers[r].settings);
    }
    PicksOfExport(c, s, ids);
    LoadedIff(c, s, ids);
  }

  /** Saving and loading certainly loses nothing of the configuration of routers, switches, hosts
      and links exactly when it is settled, and possibly loses nothing exactly when it may survive. */
  lemma RoundTripIff(c: Content, s: TopologySnapshot)
    requires Sound(c) && Exports(c, s)
    ensures (forall ids :: Picks(s, ids) ==> Imported(s, ids) == c) <==> Settled(c)
    ensures (exists ids :: Picks(s, ids) && Imported(s, ids) == c) <==> MaySurvive(c)
  {
    if forall ids :: Picks(s, ids) ==> Imported(s, ids) == c {
      forall ids | PicksIn(c, ids) ensures Loads(c, ids) {
        PicksOfExport(c, s, ids);
        RestoredExport(c, s, ids);
        LoadedContentIff(c, ids);
      }
      AlwaysLoadedIsSettled(c);
    }
    if Settled(c) {
      forall ids | Picks(s, ids) ensures Imported(s, ids) == c {
        SettledLoads(c, s, ids);
      }
    }
    if ids :| Picks(s, ids) && Imported(s, ids) == c {
      LoadedMaySurvive(c, s, ids);
    }
    if MaySurvive(c) {
      var ids := SurvivorLoads(c, s);
    }
  }

  // ---------------------------------------------------------------- links that come later

  /** The interfaces that these links give the router. */
  function NewIfaces(c: Content, links: seq<TopologyLink>, index: nat, r: Id): Ifaces
    requires r in c.routers
  {
    LinkedAll(c.routers[r].interfaces, links, c.routers.Keys, r, index) - c.routers[r].interfaces.Keys
  }

  lemma LinkAddressIsNew(index: nat, first: bool)
    ensures LinkAddress(index, first) != UNSET && LinkAddress(index, first) != DEFAULT_ID
  {
    if index * 4 / 256 >= 256 {
      assert |"10." + Decimal(index * 4 / 256) + "." + Decimal(index * 4 % 256) + "." + Decimal(if first then 1 else 2)| >= 3;
    }
  }

  /** Once the links have been applied, the processes of a router are as a fresh start would have
      them exactly when they were before, and the new addresses do not matter to them. */
  lemma ProcessesSettleIff(c: Content, links: seq<TopologyLink>, index: nat, r: Id)
    requires r in c.routers && MayRun(c.routers[r].interfaces, c.routers[r].settings)
    ensures var d := Applied(c, links, index);
            r in d.routers &&
            (MustRun(d.routers[r].interfaces, d.routers[r].settings) <==>
              && MustRun(c.routers[r].interfaces, c.routers[r].settings)
              && Unaffected(c.routers[r].interfaces, NewIfaces(c, links, index, r), c.routers[r].settings))
  {
    var rs := Applied(c, links, index).routers;
    var ifaces, more, s := c.routers[r].interfaces, NewIfaces(c, links, index, r), c.routers[r].settings;
    NewIfacesMeaning(c, links, index, r);
    MustRunGrowsIff(ifaces, more, s);
    AppliedRecords(c, links, index, r);
    PeersDoNotMatter(ifaces + more, s, MetAll(RipPeers(s), links, IfacesOf(rs), r, RemoteAddress));
  }

  lemma NewIfacesMeaning(c: Content, links: seq<TopologyLink>, index: nat, r: Id)
    requires r in c.routers
    ensures r in Applied(c, links, index).routers
    ensures var ifaces, more := c.routers[r].interfaces, NewIfaces(c, links, index, r);
            && Applied(c, links, index).routers[r].interfaces == ifaces + more && more.Keys !! ifaces.Keys
            && forall p :: p in more ==> more[p].ip != UNSET && more[p].ip != DEFAULT_ID
  {
    AppliedIfaces(c, links, index, r);
    LinkedAllAdds(c.routers[r].interfaces, links, c.routers.Keys, r, index);
  }

  lemma LinkedAllAdds(ifaces: Ifaces, links: seq<TopologyLink>, names: set<Id>, node: Id, index: nat)
    ensures var all := LinkedAll(ifaces, links, names, node, index);
            var more := all - ifaces.Keys;
            && all == ifaces + more
            && forall p :: p in more ==> more[p].ip != UNSET && more[p].ip != DEFAULT_ID
  {
    var all := LinkedAll(ifaces, links, names, node, index);
    LinkedAllMeaning(ifaces, links, names, node, index);
    forall p | p in all && p !in ifaces ensures all[p].ip != UNSET && all[p].ip != DEFAULT_ID {
      LinkAddressIsNew(index, true);
      LinkAddressIsNew(index, false);
    }
  }

  lemma PeersDoNotMatter(ifaces: Ifaces, s: Settings, peers: map<PortId, IPAddress>)
    ensures MustRun(ifaces, WithRipPeers(s, peers)) <==> MustRun(ifaces, s)
  {
    assert IdsIn(WithRipPeers(s, peers)) == IdsIn(s);
  }

  /** The router without what it records about links. */
  function Blank(r: Router): Router {
    r.(neighbors := map[], settings := WithRipPeers(r.settings, map[]))
  }

  lemma MarkedIffRecords(c: Content, r: Id)
    requires r in c.routers
    ensures MarkedRouter(c, r) <==>
            && RouterEndsOf(c.links, c.routers.Keys, r) <= c.routers[r].interfaces.Keys
            && Records(c.routers[r], Blank(c.routers[r]), c.links, IfacesOf(c.routers), r)
  {}

  /** Applied links have left their marks on routers that record nothing else. */
  lemma AppliedIsMarked(c: Content, index: nat)
    requires forall r :: r in c.routers ==> Blank(c.routers[r]) == c.routers[r]
    ensures Marked(Applied(c, c.links, index))
  {
    var d := Applied(c, c.links, index);
    AppliedEdges(c, c.links, index);
    AppliedIsAddressed(c, c.links, index);
    forall r | r in d.routers ensures MarkedRouter(d, r) {
      AppliedRecords(c, c.links, index, r);
      assert Blank(d.routers[r]).settings == Blank(c.routers[r]).settings;
      MarkedIffRecords(d, r);
    }
    forall s | s in d.switches ensures EndsOf(d.links, s) <= d.switches[s].ports.Keys {
      assert d.switches[s].ports.Keys == EndsOf(c.links, s) + c.switches[s].ports.Keys;
    }
    forall h | h in d.hosts ensures Uplink(d.links, h, d.hosts[h].uplink) == d.hosts[h].uplink {
      UplinkIsStable(c.links, h, c.hosts[h].uplink);
    }
  }

  /** Applying links keeps a plain content plain, and a sound one sound. */
  lemma AppliedKeepsPlain(c: Content, links: seq<TopologyLink>, index: nat)
    ensures Plain(c) ==> Plain(Applied(c, links, index))
    ensures Sound(c) ==> Sound(Applied(c, links, index))
  {
    var d := Applied(c, links, index);
    AppliedEdges(c, links, index);
    forall r | r in d.routers ensures d.routers[r].rest == c.routers[r].rest && d.routers[r].statics == c.routers[r].statics {
      AppliedRecords(c, links, index, r);
    }
    if Plain(c) {
      forall s | s in c.switches ensures PlainSwitch(d.switches[s]) {
        assert PlainSwitch(c.switches[s]);
      }
    }
  }

  lemma RestoredIsBlank(s: TopologySnapshot, ids: map<Id, RouterIds>)
    ensures forall r :: r in Restored(s, ids).routers ==> Blank(Restored(s, ids).routers[r]) == Restored(s, ids).routers[r]
  {}

  lemma RestoredMayRun(s: TopologySnapshot, ids: map<Id, RouterIds>, r: Id)
    requires Picks(s, ids) && r in Restored(s, ids).routers
    ensures MayRun(Restored(s, ids).routers[r].interfaces, Restored(s, ids).routers[r].settings)
  {
    StartedMayRun(RestoredStatements(LastNamed(s)[r]), RestoredIfaces(LastNamed(s)[r]), IdsOf(ids, r));
  }

  lemma StartedMayRun(st: Statements, ifaces: Ifaces, ids: RouterIds)
    requires PicksFor(st, ifaces, ids)
    ensures MayRun(ifaces, Started(st, ifaces, ids))
  {
    var s := Started(st, ifaces, ids);
    forall id | id in IdsIn(s) ensures MayPick(ifaces, id) {
      assert || (s.ospf.Some? && id == ids.ospf) || (s.rip.Some? && id == ids.rip)
             || (s.eigrp.Some? && id == ids.eigrp) || (s.bgp.Some? && id == ids.bgp);
    }
  }

  /** Whatever the snapshot, an import leaves a sound manager with nothing that a snapshot cannot
      hold and every link's mark in place. */
  lemma ImportIsMarked(s: TopologySnapshot, ids: map<Id, RouterIds>)
    ensures Sound(Imported(s, ids)) && Plain(Imported(s, ids)) && Marked(Imported(s, ids))
  {
    RestoredIsSound(s, ids);
    RestoredIsBlank(s, ids);
    AppliedKeepsPlain(Restored(s, ids), s.links, |s.links|);
    AppliedIsMarked(Restored(s, ids), |s.links|);
  }

  /** Whether a load leaves this router's processes as another load would have them. */
  ghost predicate StartsSettled(c: Content, links: seq<TopologyLink>, index: nat, r: Id)
    requires r in c.routers
  {
    && MustRun(c.routers[r].interfaces, c.routers[r].settings)
    && Unaffected(c.routers[r].interfaces, NewIfaces(c, links, index, r), c.routers[r].settings)
  }

  /** A load settles the manager exactly when the addresses that the links add, after the processes
      were started, do not matter to any process. */
  lemma ImportSettlesIff(s: TopologySnapshot, ids: map<Id, RouterIds>)
    requires Picks(s, ids)
    ensures Settled(Imported(s, ids)) <==>
            forall r :: r in Restored(s, ids).routers ==> StartsSettled(Restored(s, ids), s.links, |s.links|, r)
  {
    var c, d := Restored(s, ids), Imported(s, ids);
    ImportIsMarked(s, ids);
    AppliedEdges(c, s.links, |s.links|);
    forall r | r in c.routers
      ensures MustRun(d.routers[r].interfaces, d.routers[r].settings) <==> StartsSettled(c, s.links, |s.links|, r)
    {
      RestoredMayRun(s, ids, r);
      ProcessesSettleIff(c, s.links, |s.links|, r);
    }
  }

  lemma AddedMarksSwitch(c: Content, l: TopologyLink, s: Id)
    requires s in c.switches && EndsOf(c.links, s) <= c.switches[s].ports.Keys
    ensures EndsOf(c.links + [l], s) <= Added(c, l).switches[s].ports.Keys
  {
    EndsOfSnoc(c.links, l, s);
    assert Added(c, l).switches[s].ports.Keys == EndsOf([l], s) + c.switches[s].ports.Keys;
  }

  lemma AddedMarksRouter(c: Content, l: TopologyLink, r: Id)
    requires r in c.routers && forall q :: q in c.routers ==> MarkedRouter(c, q)
    ensures MarkedRouter(Added(c, l), r)
  {
    var d, index := Added(c, l), |c.links| + 1;
    assert d.routers == LinkedRouters(c.routers, l, index);
    LinkedKeeps(c.routers, l, index);
    MarkedIffRecords(c, r);
    LinkedRecords(c.routers, Blank(c.routers[r]), c.links, l, index, r);
    assert Blank(d.routers[r]).settings == Blank(c.routers[r]).settings && Blank(d.routers[r]).neighbors == map[];
    assert Records(d.routers[r], Blank(d.routers[r]), d.links, IfacesOf(d.routers), r);
    AddedIsAddressed(c, l, r);
    MarkedIffRecords(d, r);
  }

  lemma AddedIsAddressed(c: Content, l: TopologyLink, r: Id)
    requires r in c.routers && RouterEndsOf(c.links, c.routers.Keys, r) <= c.routers[r].interfaces.Keys
    ensures var d := Added(c, l); d.routers.Keys == c.routers.Keys && RouterEndsOf(d.links, c.routers.Keys, r) <= d.routers[r].interfaces.Keys
  {
    RouterEndsSnoc(c.links, l, c.routers.Keys, r);
    AddedIsApplied(c, l);
    AppliedIfaces(c.(links := c.links + [l]), [l], |c.links| + 1, r);
    AppliedEdges(c.(links := c.links + [l]), [l], |c.links| + 1);
    LinkedAllMeaning(c.routers[r].interfaces, [l], c.routers.Keys, r, |c.links| + 1);
  }

  lemma AddedIsApplied(c: Content, l: TopologyLink)
    ensures Added(c, l) == Applied(c.(links := c.links + [l]), [l], |c.links| + 1)
  {
    assert [l][..0] == [] && Applied(c.(links := c.links + [l]), [], |c.links| + 1) == c.(links := c.links + [l]);
  }

  lemma AddedMarksHost(c: Content, l: TopologyLink, h: Id)
    requires h in c.hosts && Uplink(c.links, h, c.hosts[h].uplink) == c.hosts[h].uplink
    ensures Uplink(c.links + [l], h, Added(c, l).hosts[h].uplink) == Added(c, l).hosts[h].uplink
  {
    UplinkSnoc(c.links, l, h, c.hosts[h].uplink);
    UplinkIsStable(c.links + [l], h, c.hosts[h].uplink);
  }

  /** Adding a link keeps a content sound, plain and marked. */
  lemma AddLinkKeepsMarks(c: Content, l: TopologyLink)
    ensures Sound(c) ==> Sound(Added(c, l))
    ensures Plain(c) ==> Plain(Added(c, l))
    ensures Marked(c) ==> Marked(Added(c, l))
  {
    var c', d := c.(links := c.links + [l]), Added(c, l);
    AddedIsApplied(c, l);
    AppliedKeepsPlain(c', [l], |c.links| + 1);
    AppliedEdges(c', [l], |c.links| + 1);
    assert Sound(c) ==> Sound(c');
    assert Plain(c) ==> Plain(c');
    if Marked(c) {
      forall s | s in d.switches ensures EndsOf(d.links, s) <= d.switches[s].ports.Keys {
        AddedMarksSwitch(c, l, s);
      }
      forall r | r in d.routers ensures MarkedRouter(d, r) {
        AddedMarksRouter(c, l, r);
      }
      forall h | h in d.hosts ensures Uplink(d.links, h, d.hosts[h].uplink) == d.hosts[h].uplink {
        AddedMarksHost(c, l, h);
      }
    }
  }

  /** No process minds the addresses that the ends of this link would get: each one already has its
      ID from an earlier address text, and no OSPF statement covers the new addresses. */
  ghost predicate NobodyMinds(c: Content, l: TopologyLink) {
    forall r :: r in c.routers ==>
      Unaffected(c.routers[r].interfaces, NewIfaces(c, [l], |c.links| + 1, r), c.routers[r].settings)
  }

  /** A settled manager stays settled when a link is added exactly when no process minds. */
  lemma AddLinkSettlesIff(c: Content, l: TopologyLink)
    requires Settled(c)
    ensures Settled(Added(c, l)) <==> NobodyMinds(c, l)
  {
    var c', d := c.(links := c.links + [l]), Added(c, l);
    AddLinkKeepsMarks(c, l);
    AddedIsApplied(c, l);
    AppliedEdges(c', [l], |c.links| + 1);
    forall r | r in c.routers
      ensures MustRun(d.routers[r].interfaces, d.routers[r].settings) <==>
              Unaffected(c.routers[r].interfaces, NewIfaces(c, [l], |c.links| + 1, r), c.routers[r].settings)
    {
      MustRunMay(c.routers[r].interfaces, c.routers[r].settings);
      ProcessesSettleIff(c', [l], |c.links| + 1, r);
    }
  }

  lemma MustRunMay(ifaces: Ifaces, s: Settings)
    requires MustRun(ifaces, s)
    ensures MayRun(ifaces, s)
  {
    forall id | id in IdsIn(s) ensures MayPick(ifaces, id) {
      OnlyPickIff(ifaces, id);
    }
  }

  // ---------------------------------------------------------------- what a snapshot shows

  ghost predicate SameShownRouter(r: Router, q: Router) {
    r.interfaces == q.interfaces && r.statics == q.statics && Stated(r.settings) == Stated(q.settings)
  }

  ghost predicate SameShownRouters(rs: map<Id, Router>, qs: map<Id, Router>) {
    rs.Keys == qs.Keys && forall r :: r in rs ==> SameShownRouter(rs[r], qs[r])
  }

  ghost predicate SameShownSwitch(sw: SwitchState, tw: SwitchState) {
    sw.ports.Keys == tw.ports.Keys && sw.vlans == tw.vlans
  }

  ghost predicate SameShownSwitches(ss: map<Id, SwitchState>, ts: map<Id, SwitchState>) {
    ss.Keys == ts.Keys && forall s :: s in ss ==> SameShownSwitch(ss[s], ts[s])
  }

  ghost predicate SameShownHosts(hs: map<Id, Host>, gs: map<Id, Host>) {
    hs.Keys == gs.Keys && forall h :: h in hs ==> SavedHost(hs[h]) == SavedHost(gs[h])
  }

  /** The two contents are alike in everything that a snapshot shows. */
  ghost predicate ShowsAs(c: Content, d: Content) {
    && c.links == d.links && SameShownRouters(c.routers, d.routers)
    && SameShownSwitches(c.switches, d.switches) && SameShownHosts(c.hosts, d.hosts)
  }

  /** Then they have the same exports. */
  lemma ShownIsExported(c: Content, d: Content, s: TopologySnapshot)
    requires ShowsAs(c, d) && Exports(c, s)
    ensures Exports(d, s)
  {
    forall r | r in s.routers ensures r.id in d.routers && ExportsRouter(d.routers[r.id], r) {
      assert SameShownRouter(c.routers[r.id], d.routers[r.id]);
    }
    forall w | w in s.switches ensures w.id in d.switches && ExportsSwitch(d.switches[w.id], w) {
      assert ExportsSwitch(c.switches[w.id], w);
    }
    forall h | h in s.hosts ensures h.id in d.hosts && RestoredHost(h) == SavedHost(d.hosts[h.id]) {
      assert SavedHost(c.hosts[h.id]) == SavedHost(d.hosts[h.id]);
    }
  }

  /** The links have left their marks on what a snapshot shows. */
  ghost predicate ShownMarks(c: Content) {
    && AllAddressed(c)
    && (forall s :: s in c.switches ==> ShownSwitchMark(c.switches[s], EndsOf(c.links, s)))
    && (forall h :: h in c.hosts ==> Uplink(c.links, h, c.hosts[h].uplink) == c.hosts[h].uplink)
  }

  ghost predicate ShownSwitchMark(sw: SwitchState, ends: set<PortId>) {
    VLAN_DEFAULT in sw.vlans && ends <= sw.ports.Keys
  }

  lemma LoadedRouterShows(c: Content, ids: map<Id, RouterIds>, r: Id)
    requires r in c.routers
    ensures r in Loaded(c, ids).routers
    ensures SameShownRouter(c.routers[r], Loaded(c, ids).routers[r]) <==>
            RouterEndsOf(c.links, c.routers.Keys, r) <= c.routers[r].interfaces.Keys
  {
    LoadedIfaces(c, ids, r);
    AppliedRecords(Saved(c, ids), c.links, |c.links|, r);
  }

  lemma LoadedRoutersShowIff(c: Content, ids: map<Id, RouterIds>)
    ensures SameShownRouters(c.routers, Loaded(c, ids).routers) <==> AllAddressed(c)
  {
    LoadedKeys(c, ids);
    forall r | r in c.routers
      ensures SameShownRouter(c.routers[r], Loaded(c, ids).routers[r])
              <==> RouterEndsOf(c.links, c.routers.Keys, r) <= c.routers[r].interfaces.Keys
    {
      LoadedRouterShows(c, ids, r);
    }
  }

  lemma LoadedSwitchShowsIff(sw: SwitchState, ends: set<PortId>)
    ensures SameShownSwitch(sw, WithPorts(SavedSwitch(sw), ends)) <==> ShownSwitchMark(sw, ends)
  {
    assert WithPorts(SavedSwitch(sw), ends).ports.Keys == ends + sw.ports.Keys;
  }

  lemma LoadedSwitchesShowIff(ss: map<Id, SwitchState>, links: seq<TopologyLink>)
    ensures SameShownSwitches(ss, LinkedSwitches(SavedSwitches(ss), links))
            <==> forall s :: s in ss ==> ShownSwitchMark(ss[s], EndsOf(links, s))
  {
    var ts := LinkedSwitches(SavedSwitches(ss), links);
    assert ts.Keys == ss.Keys;
    forall s | s in ss ensures SameShownSwitch(ss[s], ts[s]) <==> ShownSwitchMark(ss[s], EndsOf(links, s)) {
      LoadedSwitchShowsIff(ss[s], EndsOf(links, s));
    }
  }

  lemma LoadedHostsShowIff(hs: map<Id, Host>, links: seq<TopologyLink>)
    ensures SameShownHosts(hs, LinkedHosts(SavedHosts(hs), links)) <==> forall h :: h in hs ==> Uplink(links, h, hs[h].uplink) == hs[h].uplink
  {
    var gs := LinkedHosts(SavedHosts(hs), links);
    assert gs.Keys == hs.Keys;
    forall h | h in hs ensures SavedHost(hs[h]) == SavedHost(gs[h]) <==> Uplink(links, h, hs[h].uplink) == hs[h].uplink {}
  }

  /** A load shows what was saved exactly when the links have left their marks on it, whatever IDs
      are picked. */
  lemma ReloadShowsIff(c: Content, s: TopologySnapshot, ids: map<Id, RouterIds>)
    requires Sound(c) && Exports(c, s)
    ensures ShowsAs(c, Imported(s, ids)) <==> ShownMarks(c)
  {
    RestoredExport(c, s, ids);
    AppliedEdges(Saved(c, ids), c.links, |c.links|);
    LoadedRoutersShowIff(c, ids);
    LoadedSwitchesShowIff(c.switches, c.links);
    LoadedHostsShowIff(c.hosts, c.links);
  }

  /** On every snapshot: loading an export of a loaded snapshot gives the same exports again,
      although router IDs, OSPF interfaces and neighbours may change. */
  lemma ExportImportIdempotent(s: TopologySnapshot, ids: map<Id, RouterIds>, exported: TopologySnapshot, again: map<Id, RouterIds>)
    requires Exports(Imported(s, ids), exported)
    ensures forall t :: Exports(Imported(exported, again), t) <==> Exports(Imported(s, ids), t)
  {
    var c, d := Imported(s, ids), Imported(exported, again);
    ImportIsMarked(s, ids);
    MarksAreShown(c);
    ReloadShowsIff(c, exported, again);
    forall t ensures Exports(d, t) <==> Exports(c, t) {
      if Exports(c, t) {
        ShownIsExported(c, d, t);
      }
      if Exports(d, t) {
        ShownIsExported(d, c, t);
      }
    }
  }

  lemma MarksAreShown(c: Content)
    requires Plain(c) && Marked(c)
    ensures ShownMarks(c)
  {
    assert forall r :: r in c.routers ==> MarkedRouter(c, r);
    assert forall s :: s in c.switches ==> PlainSwitch(c.switches[s]);
  }

  /** The router runs nothing, or every order of its interfaces picks the same ID. */
  ghost predicate Certain(r: Router) {
    IdsIn(r.settings) != {} ==> exists id :: OnlyPick(AddressesIn(r.interfaces), id)
  }

  lemma CertainIff(ifaces: Ifaces, s: Settings)
    requires MayRun(ifaces, s)
    ensures MustRun(ifaces, s) <==> (IdsIn(s) != {} ==> exists id :: OnlyPick(AddressesIn(ifaces), id))
  {
    if x :| OnlyPick(AddressesIn(ifaces), x) {
      OnlyPickIff(ifaces, x);
    }
  }

  /** The second load settles what the first one may not have: all addresses are there before the
      processes start. It fails only where an unset address leaves the choice of an ID open. */
  lemma SecondLoadSettlesIff(s: TopologySnapshot, ids: map<Id, RouterIds>, exported: TopologySnapshot, again: map<Id, RouterIds>)
    requires Exports(Imported(s, ids), exported) && Picks(exported, again)
    ensures Settled(Imported(exported, again)) <==> forall r :: r in Imported(s, ids).routers ==> Certain(Imported(s, ids).routers[r])
  {
    var c, d := Imported(s, ids), Restored(exported, again);
    ImportIsMarked(s, ids);
    RestoredExport(c, exported, again);
    ImportSettlesIff(exported, again);
    forall r | r in c.routers ensures StartsSettled(d, exported.links, |exported.links|, r) <==> Certain(c.routers[r]) {
      RestoredMayRun(exported, again, r);
      NothingNew(c, again, r);
      SameProcesses(c.routers[r], IdsOf(again, r));
      CertainIff(d.routers[r].interfaces, d.routers[r].settings);
    }
  }

  lemma SameProcesses(r: Router, ids: RouterIds)
    ensures IdsIn(SavedRouter(r, ids).settings) == {} <==> IdsIn(r.settings) == {}
  {
    OwnIdsAreIn(r.settings);
    OwnIdsAreIn(SavedRouter(r, ids).settings);
  }

  lemma NothingNew(c: Content, ids: map<Id, RouterIds>, r: Id)
    requires r in c.routers && MarkedRouter(c, r)
    ensures r in Saved(c, ids).routers && NewIfaces(Saved(c, ids), c.links, |c.links|, r) == map[]
  {
    assert Saved(c, ids).routers.Keys == c.routers.Keys;
    LinkedAllMeaning(c.routers[r].interfaces, c.links, c.routers.Keys, r, |c.links|);
  }

  /** The same saved router: statements and static routes in order, interfaces in any order. */
  ghost predicate SameRouter(a: RouterSnapshot, b: RouterSnapshot) {
    && a.id == b.id && a.staticRoutes == b.staticRoutes && RestoredStatements(a) == RestoredStatements(b)
    && |a.interfaces| == |b.interfaces| && forall i :: i in a.interfaces <==> i in b.interfaces
  }

  lemma SameInterfaces(r: Router, a: RouterSnapshot, b: RouterSnapshot)
    requires ExportsRouter(r, a) && ExportsRouter(r, b)
    ensures forall i :: i in a.interfaces ==> i in b.interfaces
  {
    forall i | i in a.interfaces ensures i in b.interfaces {
      assert i.port in r.interfaces.Keys;
      var k :| 0 <= k < |b.interfaces| && PortOf(b.interfaces[k]) == i.port;
      assert b.interfaces[k] in b.interfaces && IfaceOf(b.interfaces[k]) == IfaceOf(i);
    }
  }

  lemma ExportsOfRouterAgree(r: Router, a: RouterSnapshot, b: RouterSnapshot)
    requires ExportsRouter(r, a) && ExportsRouter(r, b) && a.id == b.id
    ensures SameRouter(a, b)
  {
    SameInterfaces(r, a, b);
    SameInterfaces(r, b, a);
    ListedCount(a.interfaces, PortOf, r.interfaces.Keys);
    ListedCount(b.interfaces, PortOf, r.interfaces.Keys);
    assert a.staticRoutes == b.staticRoutes;
  }

  /** The same saved switch: ports and VLANs in any order. */
  ghost predicate SameSwitch(a: SwitchSnapshot, b: SwitchSnapshot) {
    && a.id == b.id && |a.ports| == |b.ports| && ElementsOf(a.ports) == ElementsOf(b.ports)
    && |a.vlans| == |b.vlans| && ElementsOf(a.vlans) == ElementsOf(b.vlans)
  }

  lemma ExportsOfSwitchAgree(sw: SwitchState, a: SwitchSnapshot, b: SwitchSnapshot)
    requires ExportsSwitch(sw, a) && ExportsSwitch(sw, b) && a.id == b.id
    ensures SameSwitch(a, b)
  {
    ListedElements(a.ports, sw.ports.Keys);
    ListedElements(b.ports, sw.ports.Keys);
    ListedElements(a.vlans, sw.vlans);
    ListedElements(b.vlans, sw.vlans);
    ListedCount(a.ports, Itself, sw.ports.Keys);
    ListedCount(b.ports, Itself, sw.ports.Keys);
    ListedCount(a.vlans, Itself, sw.vlans);
    ListedCount(b.vlans, Itself, sw.vlans);
  }

  /** Everything that the first snapshot lists, the second lists too. */
  ghost predicate Covers(s: TopologySnapshot, t: TopologySnapshot) {
    && s.links == t.links && |s.routers| == |t.routers| && |s.switches| == |t.switches| && |s.hosts| == |t.hosts|
    && (forall r :: r in s.routers ==> exists q :: q in t.routers && SameRouter(r, q))
    && (forall w :: w in s.switches ==> exists v :: v in t.switches && SameSwitch(w, v))
    && (forall h :: h in s.hosts ==> h in t.hosts)
  }

  lemma RouterIsInBoth(c: Content, s: TopologySnapshot, t: TopologySnapshot, r: RouterSnapshot) returns (q: RouterSnapshot)
    requires Exports(c, s) && Exports(c, t) && r in s.routers
    ensures q in t.routers && SameRouter(r, q)
  {
    assert r.id in c.routers.Keys;
    var k :| 0 <= k < |t.routers| && RouterName(t.routers[k]) == r.id;
    q := t.routers[k];
    assert q in t.routers;
    ExportsOfRouterAgree(c.routers[r.id], r, q);
  }

  lemma ListedSwitch(list: seq<SwitchSnapshot>, names: set<Id>, id: Id) returns (v: SwitchSnapshot)
    requires Lists(list, SwitchName, names) && id in names
    ensures v in list && v.id == id
  {
    var k :| 0 <= k < |list| && SwitchName(list[k]) == id;
    v := list[k];
  }

  lemma SwitchIsInBoth(c: Content, s: TopologySnapshot, t: TopologySnapshot, w: SwitchSnapshot) returns (v: SwitchSnapshot)
    requires Exports(c, s) && Exports(c, t) && w in s.switches
    ensures v in t.switches && SameSwitch(w, v)
  {
    v := ListedSwitch(t.switches, c.switches.Keys, w.id);
    ExportsOfSwitchAgree(c.switches[w.id], w, v);
  }

  lemma HostIsInBoth(c: Content, s: TopologySnapshot, t: TopologySnapshot, h: HostSnapshot)
    requires Exports(c, s) && Exports(c, t) && h in s.hosts
    ensures h in t.hosts
  {
    assert h.id in c.hosts.Keys;
    var k :| 0 <= k < |t.hosts| && HostName(t.hosts[k]) == h.id;
    assert t.hosts[k] in t.hosts && RestoredHost(t.hosts[k]) == RestoredHost(h);
  }

  /** Two exports of one content hold the same routers, switches, hosts and links, as sets. */
  lemma ExportsAgree(c: Content, s: TopologySnapshot, t: TopologySnapshot)
    requires Exports(c, s) && Exports(c, t)
    ensures Covers(s, t)
  {
    ListedCount(s.routers, RouterName, c.routers.Keys);
    ListedCount(t.routers, RouterName, c.routers.Keys);
    ListedCount(s.switches, SwitchName, c.switches.Keys);
    ListedCount(t.switches, SwitchName, c.switches.Keys);
    ListedCount(s.hosts, HostName, c.hosts.Keys);
    ListedCount(t.hosts, HostName, c.hosts.Keys);
    forall r | r in s.routers ensures exists q :: q in t.routers && SameRouter(r, q) {
      var q := RouterIsInBoth(c, s, t, r);
    }
    forall w | w in s.switches ensures exists v :: v in t.switches && SameSwitch(w, v) {
      var v := SwitchIsInBoth(c, s, t, w);
    }
    forall h | h in s.hosts ensures h in t.hosts {
      HostIsInBoth(c, s, t, h);
    }
  }

  // ---------------------------------------------------------------- what gets lost

  /** RIP enabled on a router that is cabled already: no neighbours are recorded. */
  function WithRip(c: Content, r: Id, id: IPAddress, networks: seq<string>): Content
    requires r in c.routers
  {
    c.(routers := c.routers[r := c.routers[r].(settings := c.routers[r].settings.(rip := Some(Rip(id, networks, map[]))))])
  }

  lemma WithRipMarks(c: Content, r: Id, id: IPAddress, networks: seq<string>, q: Id)
    requires r in c.routers && q in c.routers && MarkedRouter(c, q)
    ensures q in WithRip(c, r, id, networks).routers
    ensures MarkedRouter(WithRip(c, r, id, networks), q) <==> (q == r ==> AllMet(c, r, RemoteAddress) == map[])
  {
    assert WithRip(c, r, id, networks).routers.Keys == c.routers.Keys;
    SameIfacesIff(c.routers, WithRip(c, r, id, networks).routers);
  }

  lemma WithRipRuns(ifaces: Ifaces, s: Settings, id: IPAddress, networks: seq<string>)
    requires MustRun(ifaces, s) && s.rip.None? && OnlyPick(AddressesIn(ifaces), id)
    ensures MustRun(ifaces, s.(rip := Some(Rip(id, networks, map[]))))
  {
    assert IdsIn(s.(rip := Some(Rip(id, networks, map[])))) == IdsIn(s) + {id};
  }

  /** That keeps a manager settled exactly when no link of the router leads to an address; otherwise
      a reload adds the neighbours, and RIP starts to talk. */
  lemma EnableRipSettlesIff(c: Content, r: Id, id: IPAddress, networks: seq<string>)
    requires Settled(c) && r in c.routers && c.routers[r].settings.rip.None? && OnlyPick(AddressesIn(c.routers[r].interfaces), id)
    ensures Settled(WithRip(c, r, id, networks)) <==> AllMet(c, r, RemoteAddress) == map[]
  {
    var d := WithRip(c, r, id, networks);
    assert d.routers.Keys == c.routers.Keys;
    forall q | q in c.routers ensures MarkedRouter(d, q) <==> (q == r ==> AllMet(c, r, RemoteAddress) == map[]) {
      WithRipMarks(c, r, id, networks, q);
    }
    forall q | q in c.routers ensures MustRun(d.routers[q].interfaces, d.routers[q].settings) {
      WithRipRuns(c.routers[r].interfaces, c.routers[r].settings, id, networks);
      assert MustRun(c.routers[q].interfaces, c.routers[q].settings);
    }
  }

  /** Two routers without interfaces, with OSPF enabled and these statements. */
  function TwoBare(a: Id, b: Id, processID: int, networks: seq<OspfNetwork>): Content {
    var r := Router(map[], [], Settings(Some(Ospf(DEFAULT_ID, processID, networks, map[])), None, None, None), map[], AsNew);
    Content(map[a := r, b := r], map[], map[], [])
  }

  lemma BareIsSettled(a: Id, b: Id, processID: int, networks: seq<OspfNetwork>)
    ensures Sound(TwoBare(a, b, processID, networks)) && Settled(TwoBare(a, b, processID, networks))
  {}

  lemma FirstLink(a: Id, b: Id, processID: int, networks: seq<OspfNetwork>, l: TopologyLink)
    requires a != b && l.source.node == a && l.target.node == b
    ensures var c := Added(TwoBare(a, b, processID, networks), l);
            && a in c.routers && c.routers[a].interfaces == map[l.source.port := LinkIface(1, true)]
            && c.routers[a].settings == TwoBare(a, b, processID, networks).routers[a].settings
    ensures LinkIface(1, true).ip == V4(0x0A00_0401)
  {}

  lemma SinglePick(port: PortId, i: Iface, id: IPAddress)
    requires i.ip != UNSET
    ensures MayPick(map[port := i], id) ==> id == i.ip
  {
    MayPickIff(map[port := i], id);
    SingleAddress(port, i);
  }

  lemma SingleAddress(port: PortId, i: Iface)
    ensures AddressesIn(map[port := i]) == {i.ip}
  {
    var m := map[port := i];
    assert port in m && m[port].ip in AddressesIn(m);
  }

  /** The first link between them addresses its ends after OSPF was configured: the manager is no
      longer settled, and a load gives the first router the ID 10.0.4.1 and enables OSPF on the port
      if a statement covers that address. */
  lemma LateAddressChangesOspf(a: Id, b: Id, processID: int, networks: seq<OspfNetwork>, id: Id, p: PortId, q: PortId,
                               s: TopologySnapshot, ids: map<Id, RouterIds>)
    requires a != b
    requires Exports(Added(TwoBare(a, b, processID, networks), TopologyLink(id, End(a, p), End(b, q))), s) && Picks(s, ids)
    ensures var c, first := Added(TwoBare(a, b, processID, networks), TopologyLink(id, End(a, p), End(b, q))), V4(0x0A00_0401);
            && !Settled(c) && a in c.routers && a in Imported(s, ids).routers
            && c.routers[a].settings.ospf == Some(Ospf(DEFAULT_ID, processID, networks, map[]))
            && Imported(s, ids).routers[a].settings.ospf.Some?
            && Imported(s, ids).routers[a].settings.ospf.value.routerID == first
            && (p in Imported(s, ids).routers[a].settings.ospf.value.interfaces <==> FirstMatch(networks, first).Some?)
  {
    var bare, l := TwoBare(a, b, processID, networks), TopologyLink(id, End(a, p), End(b, q));
    var c := Added(bare, l);
    BareIsSettled(a, b, processID, networks);
    AddLinkKeepsMarks(bare, l);
    FirstLink(a, b, processID, networks, l);
    NotItsAddress(c, a, p);
    PicksOfExport(c, s, ids);
    SinglePick(p, LinkIface(1, true), IdsOf(ids, a).ospf);
    RestoredExport(c, s, ids);
    LoadedSettings(c, ids, a);
  }

  lemma NotItsAddress(c: Content, r: Id, port: PortId)
    requires r in c.routers && c.routers[r].interfaces == map[port := LinkIface(1, true)]
    requires DEFAULT_ID in IdsIn(c.routers[r].settings)
    ensures !Settled(c)
  {
    LinkAddressIsNew(1, true);
    SingleAddress(port, LinkIface(1, true));
  }

  lemma LoadedSettings(c: Content, ids: map<Id, RouterIds>, r: Id)
    requires r in c.routers
    ensures r in Loaded(c, ids).routers
    ensures c.routers[r].settings.rip.None? ==>
              Loaded(c, ids).routers[r].settings == Started(Stated(c.routers[r].settings), c.routers[r].interfaces, IdsOf(ids, r))
  {
    AppliedRecords(Saved(c, ids), c.links, |c.links|, r);
  }

  /** A manager with one host, cabled to two far ends in turn. */
  function TwiceCabled(host: Id, a: End, b: End, port: PortId, h: Host): Content {
    var one, two := TopologyLink(Id("1"), a, End(host, port)), TopologyLink(Id("2"), b, End(host, port));
    Added(Added(Content(map[], map[], map[host := h], []), one), two)
  }

  /** Adding a cable that ends at the only host moves its uplink. */
  lemma AddCable(h: Host, host: Id, links: seq<TopologyLink>, l: TopologyLink)
    requires l.target.node == host && l.source.node != host
    ensures Added(Content(map[], map[], map[host := h], links), l) == Content(map[], map[], map[host := h.(uplink := l.source.node)], links + [l])
  {
    assert [l][..0] == [];
  }

  lemma TwiceCabledIs(host: Id, a: End, b: End, port: PortId, h: Host)
    requires a.node != host && b.node != host
    ensures var one, two := TopologyLink(Id("1"), a, End(host, port)), TopologyLink(Id("2"), b, End(host, port));
            TwiceCabled(host, a, b, port, h) == Content(map[], map[], map[host := h.(uplink := b.node)], [one, two])
  {
    var one, two := TopologyLink(Id("1"), a, End(host, port)), TopologyLink(Id("2"), b, End(host, port));
    AddCable(h, host, [], one);
    AddCable(h.(uplink := a.node), host, [one], two);
    assert [] + [one] == [one] && [one] + [two] == [one, two];
  }

  lemma OneHostIsSettled(host: Id, h: Host)
    requires h.rest == AsNew
    ensures Settled(Content(map[], map[], map[host := h], []))
  {}

  lemma TwiceCabledSettles(host: Id, a: End, b: End, port: PortId, h: Host)
    requires a.node != host && b.node != host && h.rest == AsNew
    ensures Settled(TwiceCabled(host, a, b, port, h))
  {
    var one, two := TopologyLink(Id("1"), a, End(host, port)), TopologyLink(Id("2"), b, End(host, port));
    var start := Content(map[], map[], map[host := h], []);
    OneHostIsSettled(host, h);
    AddCable(h, host, [], one);
    NoRoutersSettle(start, one);
    NoRoutersSettle(Added(start, one), two);
  }

  lemma NoRoutersSettle(c: Content, l: TopologyLink)
    requires Settled(c) && c.routers == map[]
    ensures Settled(Added(c, l))
  {
    AddLinkSettlesIff(c, l);
  }

  lemma WithoutSecond(one: TopologyLink, two: TopologyLink)
    requires one.id != two.id
    ensures WithoutLink([one, two], two.id) == [one]
  {
    assert [one, two][..1] == [one] && [one][..0] == [];
    assert WithoutLink([], two.id) == [] && WithoutLink([one], two.id) == [one];
  }

  /** Then the second cable is removed: the uplink still names the far end of that cable, and a
      reload changes it. */
  lemma RemovedCableIsNotRestored(host: Id, a: End, b: End, port: PortId, h: Host, s: TopologySnapshot, ids: map<Id, RouterIds>)
    requires a.node != b.node && a.node != host && b.node != host && h.rest == AsNew
    requires Exports(Unlinked(TwiceCabled(host, a, b, port, h), Id("2")), s)
    ensures Settled(TwiceCabled(host, a, b, port, h))
    ensures Imported(s, ids) != Unlinked(TwiceCabled(host, a, b, port, h), Id("2"))
  {
    TwiceCabledIs(host, a, b, port, h);
    TwiceCabledSettles(host, a, b, port, h);
    WithoutSecond(TopologyLink(Id("1"), a, End(host, port)), TopologyLink(Id("2"), b, End(host, port)));
    StaleUplinkIsLost(Content(map[], map[], map[host := h.(uplink := b.node)], [TopologyLink(Id("1"), a, End(host, port))]), host, s, ids);
  }

  /** An uplink that is not the far end of the last link of the host does not survive. */
  lemma StaleUplinkIsLost(c: Content, host: Id, s: TopologySnapshot, ids: map<Id, RouterIds>)
    requires Sound(c) && Exports(c, s) && host in c.hosts && Uplink(c.links, host, c.hosts[host].uplink) != c.hosts[host].uplink
    ensures Imported(s, ids) != c
  {
    LoadedIff(c, s, ids);
  }

  /** Whatever export is loaded, every port that is a trunk, an access port of another VLAN or set
      down comes back with the default settings. */
  lemma PortSettingsAreLost(c: Content, s: TopologySnapshot, sw: Id, port: PortId, ids: map<Id, RouterIds>)
    requires Sound(c) && Exports(c, s) && sw in c.switches && port in c.switches[sw].ports
    ensures sw in Imported(s, ids).switches && port in Imported(s, ids).switches[sw].ports
    ensures Imported(s, ids).switches[sw].ports[port] == Switching.DEFAULT_PORT
    ensures c.switches[sw].ports[port] != Switching.DEFAULT_PORT ==> Imported(s, ids) != c
  {
    RestoredExport(c, s, ids);
    AppliedEdges(Saved(c, ids), c.links, |c.links|);
  }

  function OneTrunk(sw: Id, port: PortId, native: nat): Content {
    var trunk := Switching.DEFAULT_PORT.(mode := Switching.Trunk, nativeVlan := native);
    Content(map[], map[sw := SwitchState(map[port := trunk], {VLAN_DEFAULT}, AsNew)], map[], [])
  }

  /** A switch whose only port is a trunk is such a manager, with all its marks and with an export,
      none of which loads it back. */
  lemma TrunkIsNotRestored(sw: Id, port: PortId, native: nat)
    ensures var c := OneTrunk(sw, port, native);
            && Sound(c) && Marked(c) && !Settled(c) && (exists s :: Exports(c, s))
            && forall s, ids :: Exports(c, s) ==> Imported(s, ids) != c
  {
    var c := OneTrunk(sw, port, native);
    assert c.switches[sw].ports[port] != Switching.DEFAULT_PORT;
    var snap := SwitchSnapshot(sw, [port], [VLAN_DEFAULT]);
    var s := TopologySnapshot([], [snap], [], []);
    assert Itself(snap.ports[0]) == port && Itself(snap.vlans[0]) == VLAN_DEFAULT && SwitchName(s.switches[0]) == sw;
    assert Exports(c, s);
    forall s, ids | Exports(c, s) ensures Imported(s, ids) != c {
      PortSettingsAreLost(c, s, sw, port, ids);
    }
  }
}
