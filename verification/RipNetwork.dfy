/** RIP over a topology of routers: the wire step and the update cycle of the manager, proved
    against the distance-vector theory. Go map iteration is an arbitrary choice of key, so what
    is proved of a cycle holds for every order of routers and of ports. A ghost trace records
    the deliveries; the theory says what every legal trace achieves.
 */
module RipNetwork {
  import opened Addressing
  import opened DistanceVector
  import opened RoutingTable
  import opened Daemons
  import opened RoutedNetwork
  import opened Routers
  import opened Topology

  // ---------------------------------------------------------------- feeds

  predicate Enabled(c: Config, a: RouterId) {
    a in c.routers && c.routers[a].ripEnabled
  }

  /** A RIP frame arriving at this end is processed. */
  predicate Listens(c: Config, at: End) {
    Enabled(c, at.node) && PolicyUp(c.routers[at.node].policies, at.port)
  }

  /** The update cycle visits this port: the daemon has a neighbour recorded there. */
  predicate Visits(c: Config, at: End) {
    Enabled(c, at.node) && at.port in c.routers[at.node].ripNeighbors
  }

  /** Updates flow over `f` in every cycle: a link, both ends enabled, the receiving interface
      up, and a neighbour recorded at either end. */
  predicate IsFeed(c: Config, f: Feed) {
    var from, into := End(f.sender, f.senderPort), End(f.receiver, f.port);
    && Enabled(c, f.sender) && Listens(c, into)
    && Peer(c.links, into) == Some(from)
    && f.addr == SourceAddress(c, from)
    && (Visits(c, from) || Visits(c, into))
  }

  ghost function NetOf(c: Config): Net {
    Net(Connections(c), iset f: Feed | IsFeed(c, f))
  }

  /** The feed of a send from this end, if anybody listens at the far end. */
  function SendFeed(c: Config, at: End): Option<Feed> {
    var far := Peer(c.links, at);
    if far.Some? && Listens(c, far.value)
    then Some(Feed(at.node, at.port, SourceAddress(c, at), far.value.node, far.value.port))
    else None
  }

  /** A cable between two RIP routers that the update cycle visits. */
  predicate Active(c: Config, at: End) {
    && Peer(c.links, at).Some? && Enabled(c, at.node) && Enabled(c, Peer(c.links, at).value.node)
    && (Visits(c, at) || Visits(c, Peer(c.links, at).value))
  }

  lemma NetIsWellFormed(c: Config, db: Db)
    requires UniquePorts(c.links) && forall a :: a in c.routers ==> a in db
    ensures WellFormed(NetOf(c), db)
  {
    forall f, g | f in NetOf(c).feeds && g in NetOf(c).feeds && f.receiver == g.receiver && f.port == g.port
      ensures f == g
    {
      assert IsFeed(c, f) && IsFeed(c, g);
    }
  }

  /** The feeds in plain terms: the directions of the cables between routers that both run RIP, into
      an interface that is up, where either end has recorded the other. */
  lemma FeedIff(c: Config, f: Feed)
    requires UniquePorts(c.links)
    ensures f in NetOf(c).feeds <==>
            && f.sender in c.routers && c.routers[f.sender].ripEnabled && f.receiver in c.routers && c.routers[f.receiver].ripEnabled
            && (f.port in c.routers[f.receiver].policies ==>
                  c.routers[f.receiver].policies[f.port].up && !c.routers[f.receiver].policies[f.port].shutdown)
            && (exists l :: l in c.links && Joins(l, End(f.receiver, f.port), End(f.sender, f.senderPort)))
            && HasAddress(c, End(f.sender, f.senderPort), f.addr)
            && (f.senderPort in c.routers[f.sender].ripNeighbors || f.port in c.routers[f.receiver].ripNeighbors)
  {
    PeerIff(c.links, End(f.receiver, f.port), End(f.sender, f.senderPort));
  }

  /** In a sound state every RIP route goes to the far end of its cable. */
  lemma SoundHops(c: Config, db: Db)
    requires Sound(RIP, NetOf(c), db)
    ensures HopsAreFarEnds(c, db)
  {
    forall a, n | a in db && n in db[a] ensures HopIsFarEnd(c, a, db[a][n]) {
      assert SoundRoute(RIP, NetOf(c), db, a, n, db[a][n]);
      var f :| f in NetOf(c).feeds && Backed(RIP, NetOf(c), db, f, a, db[a][n]);
      assert IsFeed(c, f);
      assert HasAddress(c, End(f.sender, f.senderPort), f.addr);
    }
  }

  lemma SendUsesFeed(c: Config, at: End)
    requires UniquePorts(c.links) && Active(c, at) && SendFeed(c, at).Some?
    ensures SendFeed(c, at).value in NetOf(c).feeds
  {
    PeerIsSymmetric(c.links, at);
    assert IsFeed(c, SendFeed(c, at).value);
  }

  /** Every feed leaving this end is the one a send uses. */
  lemma OnlyFeedFrom(c: Config, at: End)
    requires UniquePorts(c.links)
    ensures forall f :: f in NetOf(c).feeds && f.sender == at.node && f.senderPort == at.port ==> SendFeed(c, at) == Some(f)
  {
    forall f | f in NetOf(c).feeds && f.sender == at.node && f.senderPort == at.port
      ensures SendFeed(c, at) == Some(f)
    {
      assert IsFeed(c, f);
      PeerIsSymmetric(c.links, End(f.receiver, f.port));
    }
  }

  /** Every feed arriving at this end comes from its peer, which has RIP enabled. */
  lemma OnlyFeedInto(c: Config, at: End)
    ensures forall f :: f in NetOf(c).feeds && f.receiver == at.node && f.port == at.port ==>
              Peer(c.links, at) == Some(End(f.sender, f.senderPort)) && Enabled(c, f.sender)
  {
    forall f | f in NetOf(c).feeds && f.receiver == at.node && f.port == at.port
      ensures Peer(c.links, at) == Some(End(f.sender, f.senderPort)) && Enabled(c, f.sender)
    {
      assert IsFeed(c, f);
    }
  }

  /** A port without an active cable serves no feed. */
  lemma InactiveServesNothing(c: Config, at: End, tr: Trace)
    requires UniquePorts(c.links) && Visits(c, at) && !Active(c, at)
    ensures Served(c, tr, at)
  {
    OnlyFeedFrom(c, at);
    OnlyFeedInto(c, at);
  }

  /** Every feed over the cable of this port, either way, has been used. */
  ghost predicate Served(c: Config, tr: Trace, at: End) {
    forall f :: f in NetOf(c).feeds && ((f.sender == at.node && f.senderPort == at.port) || (f.receiver == at.node && f.port == at.port)) ==>
      Uses(tr, f)
  }

  // ---------------------------------------------------------------- adding a cable

  /** AddNeighbor, as applyLinkState calls it: the far end's address is recorded at this port if
      RIP runs here and the address is set. */
  function Recorded(c: Config, at: End, far: End): Config {
    if Enabled(c, at.node) && SourceAddress(c, far) != UNSET
    then c.(routers := c.routers[at.node := c.routers[at.node].(
            ripNeighbors := c.routers[at.node].ripNeighbors[at.port := SourceAddress(c, far)])])
    else c
  }

  /** The configuration after a cable between two addressed router ports has been added. */
  function Cabled(c: Config, l: TopologyLink): Config {
    var linked := c.(links := c.links + [l]);
    Recorded(Recorded(linked, l.source, l.target), l.target, l.source)
  }

  /** The same routers, but for the neighbour recorded at this end. */
  ghost predicate SameBut(r: RouterConfig, q: RouterConfig, a: RouterId, at: End) {
    && q.addresses == r.addresses && q.policies == r.policies && q.ripEnabled == r.ripEnabled
    && forall p :: End(a, p) != at ==> (p in q.ripNeighbors <==> p in r.ripNeighbors)
  }

  lemma RecordedConfig(c: Config, at: End, far: End)
    ensures var d := Recorded(c, at, far);
            && d.links == c.links && d.routers.Keys == c.routers.Keys
            && (forall a :: a in c.routers ==> SameBut(c.routers[a], d.routers[a], a, at))
            && (Enabled(c, at.node) && SourceAddress(c, far) != UNSET ==> Visits(d, at))
            && (Visits(c, at) ==> Visits(d, at))
  {}

  /** A port of a router that runs RIP, up and with an address set. */
  predicate Ready(c: Config, at: End) {
    && at.node in c.routers && c.routers[at.node].ripEnabled
    && (at.port in c.routers[at.node].policies ==>
          c.routers[at.node].policies[at.port].up && !c.routers[at.node].policies[at.port].shutdown)
    && at.port in c.routers[at.node].addresses && c.routers[at.node].addresses[at.port] != Text("")
  }

  function AddressAt(c: Config, at: End): IPAddress
    requires Ready(c, at)
  {
    c.routers[at.node].addresses[at.port]
  }

  /** What recording the neighbours means: a cable between free ports of two routers with RIP on,
      interfaces up and addresses set adds exactly its two feeds to every later update cycle. */
  lemma CableAddsItsFeeds(c: Config, l: TopologyLink, f: Feed)
    requires UniquePorts(c.links + [l])
    requires Ready(c, l.source) && Ready(c, l.target)
    ensures f in NetOf(Cabled(c, l)).feeds <==>
            || f in NetOf(c).feeds
            || f == Feed(l.source.node, l.source.port, AddressAt(c, l.source), l.target.node, l.target.port)
            || f == Feed(l.target.node, l.target.port, AddressAt(c, l.target), l.source.node, l.source.port)
  {
    var d, links := Cabled(c, l), c.links + [l];
    var from, into := End(f.sender, f.senderPort), End(f.receiver, f.port);
    var linked := c.(links := links);
    var mid := Recorded(linked, l.source, l.target);
    RecordedConfig(linked, l.source, l.target);
    RecordedConfig(mid, l.target, l.source);
    PeerOfSnoc(c.links, l, into);
    LastIsElsewhere(links, into);
    assert links[..|links| - 1] == c.links;
    if into == l.source || into == l.target {
      assert Visits(d, into);
    } else if Peer(c.links, into) == Some(from) {
      assert UniquePorts(c.links) by {
        assert forall i :: 0 <= i < |c.links| ==> links[i] == c.links[i];
      }
      PeerIsSymmetric(c.links, into);
      LastIsElsewhere(links, from);
    }
  }

  /** Both ends have each other's address on record. */
  lemma CableIsRecorded(c: Config, l: TopologyLink)
    requires Ready(c, l.source) && Ready(c, l.target) && l.source != l.target
    ensures var d := Cabled(c, l);
            && l.source.node in d.routers && l.target.node in d.routers
            && l.source.port in d.routers[l.source.node].ripNeighbors && l.target.port in d.routers[l.target.node].ripNeighbors
            && d.routers[l.source.node].ripNeighbors[l.source.port] == c.routers[l.target.node].addresses[l.target.port]
            && d.routers[l.target.node].ripNeighbors[l.target.port] == c.routers[l.source.node].addresses[l.source.port]
  {}

  lemma CabledHasUniquePorts(c: Config, l: TopologyLink)
    ensures Cabled(c, l).links == c.links + [l] && Cabled(c, l).routers.Keys == c.routers.Keys
    ensures forall a :: a in c.routers ==> ConnectedTo(Cabled(c, l).routers[a]) == ConnectedTo(c.routers[a])
  {}

  /** A new cable keeps every route sound, so forwarding stays free of loops at once, and fourteen
      more cycles converge the larger network. */
  lemma CableReconverges(c: Config, l: TopologyLink, run: seq<Db>, k: nat)
    requires UniquePorts(c.links + [l])
    requires Ready(c, l.source) && Ready(c, l.target)
    requires k < |run| && run[0].Keys == c.routers.Keys && Sound(RIP, NetOf(c), run[0])
    requires Cycles(RIP, NetOf(Cabled(c, l)), run)
    ensures Sound(RIP, NetOf(Cabled(c, l)), run[0])
    ensures k >= 14 ==> Converged(RIP, NetOf(Cabled(c, l)), run[k])
  {
    var d := Cabled(c, l);
    CabledHasUniquePorts(c, l);
    NetIsWellFormed(d, run[0]);
    forall f | f in NetOf(c).feeds ensures f in NetOf(d).feeds {
      assert IsFeed(c, f);
      CableAddsItsFeeds(c, l, f);
    }
    forall r, n | Connected(NetOf(c), r, n) ensures Connected(NetOf(d), r, n) {
      assert Connections(d)[r] == ConnectedTo(d.routers[r]);
    }
    SoundSurvivesGrowth(RIP, NetOf(c), NetOf(d), run[0]);
    if k >= 14 {
      RipConvergedAfter14(NetOf(d), run, k);
    }
  }

  // ---------------------------------------------------------------- turns

  lemma ServedByBoth(c: Config, at: End, far: End, between: Trace, tr: Trace)
    requires UniquePorts(c.links) && Peer(c.links, at) == Some(far)
    requires Extends(tr, between)
    requires SendFeed(c, at).Some? ==> Uses(between, SendFeed(c, at).value)
    requires SendFeed(c, far).Some? ==> Uses(tr, SendFeed(c, far).value)
    ensures Served(c, tr, at)
  {
    OnlyFeedFrom(c, at);
    OnlyFeedFrom(c, far);
    OnlyFeedInto(c, at);
    ExtensionKeeps(RIP, NetOf(c), tr, between);
  }

  /** The router has been taken off the list and visits this port on its turn. */
  ghost predicate TurnTaken(c: Config, todo: set<RouterId>, id: RouterId, p: PortId) {
    Enabled(c, id) && id !in todo && p in c.routers[id].ripNeighbors
  }

  ghost predicate TurnsServed(c: Config, tr: Trace, todo: set<RouterId>) {
    forall id, p :: TurnTaken(c, todo, id, p) ==> Served(c, tr, End(id, p))
  }

  ghost predicate PortsServed(c: Config, tr: Trace, id: RouterId, ports: set<PortId>) {
    forall p :: p in ports ==> Served(c, tr, End(id, p))
  }

  /** One more port of a turn has been served. */
  lemma PortServed(c: Config, first: Trace, before: Trace, tr: Trace, id: RouterId, update: seq<Entry>, served: set<PortId>, port: PortId)
    requires Extends(before, first) && Extends(tr, before)
    requires WasAdvertised(RIP, NetOf(c), before, id, update) && PortsServed(c, before, id, served) && Served(c, tr, End(id, port))
    ensures Extends(tr, first) && WasAdvertised(RIP, NetOf(c), tr, id, update) && PortsServed(c, tr, id, served + {port})
  {
    ExtensionKeeps(RIP, NetOf(c), tr, before);
  }

  lemma TurnsGrow(c: Config, tr: Trace, past: Trace, todo: set<RouterId>, id: RouterId)
    requires TurnsServed(c, past, todo) && Extends(tr, past)
    requires Enabled(c, id) ==> PortsServed(c, tr, id, c.routers[id].ripNeighbors.Keys)
    ensures TurnsServed(c, tr, todo - {id})
  {
    ExtensionKeeps(RIP, NetOf(c), tr, past);
    forall a, p | TurnTaken(c, todo - {id}, a, p) ensures Served(c, tr, End(a, p)) {
      if a != id {
        assert TurnTaken(c, todo, a, p);
      }
    }
  }

  lemma AllTurnsUseAllFeeds(c: Config, tr: Trace)
    requires TurnsServed(c, tr, {})
    ensures forall f :: f in NetOf(c).feeds ==> Uses(tr, f)
  {
    forall f | f in NetOf(c).feeds ensures Uses(tr, f) {
      assert IsFeed(c, f);
      if Visits(c, End(f.sender, f.senderPort)) {
        assert TurnTaken(c, {}, f.sender, f.senderPort);
      } else {
        assert TurnTaken(c, {}, f.receiver, f.port);
      }
    }
  }

  /** Every router at most `k` and 14 links from a network holds it at metric 1 + its true distance. */
  ghost predicate KnowsWithin14(net: Net, db: Db, k: nat) {
    forall r, n, j: nat :: Shortest(net, r, n, j) && j <= k && j <= 14 ==> r in db && n in db[r] && db[r][n].metric == 1 + j
  }

  /** What `k` cycles in a row achieve; fourteen always suffice, and so do as many as there are routers. */
  lemma RipAfterCycles(net: Net, run: seq<Db>, db: Db, k: nat)
    requires Reached(RIP, net, run, db, k)
    ensures KnowsWithin14(net, db, k)
    ensures k >= 14 || k >= |db| ==> Converged(RIP, net, db)
  {
    KnowsShortest(RIP, net, run, db, k);
    forall r, n, j: nat | Shortest(net, r, n, j) && j <= k && j <= 14 ensures r in db && n in db[r] && db[r][n].metric == 1 + j {
      RipMetric(j);
    }
    if k >= 14 {
      RipConvergedAfter14(net, run, k);
    } else if k >= |db| {
      ConvergedAfterRouters(RIP, net, run, db, k);
    }
  }

  /** The part of the manager that RIP works on: the configuration of its routers and cables,
      and for every router the routes of its RIP process and its forwarding table. A step loads
      a router from these, runs on the object and stores what it changed. */
  class Manager {
    const config: Config
    var db: Db
    var rows: Rows

    constructor (c: Config)
      ensures Valid() && config == c
      ensures forall a :: a in db ==> db[a] == map[] && rows[a] == []
    {
      config := c;
      db := map a | a in c.routers :: map[];
      rows := map a | a in c.routers :: [];
    }

    ghost predicate Valid()
      reads this
    {
      ValidState(config.routers.Keys, db, rows)
    }

    ghost predicate Traced(net: Net, initial: Rows, tr: Trace)
      reads this
    {
      UniquePorts(config.links) && net == NetOf(config) && TracedState(RIP, FromRip, net, db, rows, initial, tr)
    }

    method Load(id: RouterId) returns (router: Router, daemon: RipDaemon)
      requires Valid() && id in db
      ensures fresh(router) && fresh(daemon) && router.Rip == daemon && daemon.Enabled && daemon.Routes == db[id]
      ensures router.RoutingTable == rows[id] && router.ConnectedNetworks() == ConnectedTo(config.routers[id])
    {
      daemon := new RipDaemon.Running(db[id]);
      router := new Router.Running(id, config.routers[id].addresses, config.routers[id].masks, rows[id], daemon, null);
    }

    /** HandleWireRIP on the router at this end. */
    method HandleWireRip(at: End, wire: seq<Entry>, senderIP: IPAddress, simTime: int)
      requires Valid() && at.node in db
      modifies this`db, this`rows
      ensures db == old(db)[at.node := Learn(RIP, old(db)[at.node], wire, senderIP, at.port, simTime)]
      ensures rows == old(rows)[at.node := Install(old(rows)[at.node], Learned(RIP, old(db)[at.node], wire, senderIP, at.port, simTime), FromRip)]
    {
      var router, daemon := Load(at.node);
      router.HandleWireRip(at.port, wire, senderIP, simTime);
      db, rows := db[at.node := daemon.Routes], rows[at.node := router.RoutingTable];
    }

    /** The response of a router at this moment: connected networks at metric 1, then every
        learned route, in map order. */
    method BuildResponse(id: RouterId) returns (update: seq<Entry>)
      requires Valid() && id in db
      ensures IsAdvertisement(RIP, ConnectedTo(config.routers[id]), db[id], update)
    {
      var router, daemon := Load(id);
      update := router.BuildRipUpdate();
    }

    /** SendRipUpdateOnWire: 16-bit metrics, the sender's port address as source, immediate
        delivery to the far end of the cable, where a router with RIP off or the interface down
        drops the frame. */
    method SendRipUpdateOnWire(at: End, update: seq<Entry>, simTime: int, ghost net: Net, ghost initial: Rows, ghost tr: Trace)
      returns (ghost tr': Trace)
      requires Valid() && Traced(net, initial, tr) && Active(config, at)
      requires WasAdvertised(RIP, net, tr, at.node, update)
      modifies this`db, this`rows
      ensures Valid() && Traced(net, initial, tr')
      ensures tr' == match SendFeed(config, at)
                     case None => tr
                     case Some(f) => Then(tr, f, update, simTime)
    {
      tr' := tr;
      var ifaceIP := SourceAddress(config, at);
      var far := FindNeighborOnPort(config.links, at);
      if far.Some? && Listens(config, far.value) {
        ghost var f := SendFeed(config, at).value;
        SendUsesFeed(config, at);
        DeliveryKeepsValid(RIP, FromRip, config.routers.Keys, db, rows, f, OnWire(RIP, update), simTime);
        DeliveryGrowsTrace(RIP, FromRip, net, db, rows, initial, tr, f, update, simTime);
        HandleWireRip(far.value, OnWire(RIP, update), ifaceIP, simTime);
        tr' := Then(tr, f, update, simTime);
      }
    }

    /** One port of a turn: an update out, and the neighbour's own response back. */
    method ExchangeOnPort(at: End, update: seq<Entry>, simTime: int, ghost net: Net, ghost initial: Rows, ghost tr: Trace)
      returns (ghost tr': Trace)
      requires Valid() && Traced(net, initial, tr) && Visits(config, at)
      requires WasAdvertised(RIP, net, tr, at.node, update)
      modifies this`db, this`rows
      ensures Valid() && Traced(net, initial, tr') && Extends(tr', tr) && Served(config, tr', at)
    {
      tr' := tr;
      var far := FindNeighborOnPort(config.links, at);
      if far.None? || !Enabled(config, far.value.node) {
        InactiveServesNothing(config, at, tr);
        return;
      }
      tr' := SendRipUpdateOnWire(at, update, simTime, net, initial, tr);
      ghost var between := tr';
      var reply := BuildResponse(far.value.node);
      JustAdvertised(RIP, FromRip, net, db, rows, initial, tr', far.value.node, reply);
      PeerIsSymmetric(config.links, at);
      tr' := SendRipUpdateOnWire(far.value, reply, simTime, net, initial, tr');
      ServedByBoth(config, at, far.value, between, tr');
    }

    /** Every port with a recorded neighbour is served, in any order. */
    method ServePorts(id: RouterId, update: seq<Entry>, simTime: int, ghost net: Net, ghost initial: Rows, ghost tr: Trace)
      returns (ghost tr': Trace)
      requires Valid() && Traced(net, initial, tr) && Enabled(config, id)
      requires WasAdvertised(RIP, net, tr, id, update)
      modifies this`db, this`rows
      ensures Valid() && Traced(net, initial, tr') && Extends(tr', tr)
      ensures PortsServed(config, tr', id, config.routers[id].ripNeighbors.Keys)
    {
      tr' := tr;
      var todo := config.routers[id].ripNeighbors.Keys;
      ghost var served := {};
      while todo != {}
        invariant Valid() && Traced(net, initial, tr') && Extends(tr', tr)
        invariant served + todo == config.routers[id].ripNeighbors.Keys
        invariant WasAdvertised(RIP, net, tr', id, update) && PortsServed(config, tr', id, served)
        decreases todo
      {
        var portID :| portID in todo;
        todo := todo - {portID};
        ghost var before := tr';
        tr' := ExchangeOnPort(End(id, portID), update, simTime, net, initial, tr');
        PortServed(config, tr, before, tr', id, update, served, portID);
        served := served + {portID};
      }
      assert served == config.routers[id].ripNeighbors.Keys;
    }

    /** One router's turn: one snapshot of its routes serves all its ports. */
    method RunTurn(id: RouterId, simTime: int, ghost net: Net, ghost initial: Rows, ghost tr: Trace)
      returns (ghost tr': Trace)
      requires Valid() && Traced(net, initial, tr) && Enabled(config, id)
      modifies this`db, this`rows
      ensures Valid() && Traced(net, initial, tr') && Extends(tr', tr)
      ensures PortsServed(config, tr', id, config.routers[id].ripNeighbors.Keys)
    {
      var update := BuildResponse(id);
      JustAdvertised(RIP, FromRip, net, db, rows, initial, tr, id, update);
      tr' := ServePorts(id, update, simTime, net, initial, tr);
    }

    /** RunRipUpdateCycle: every enabled router takes a turn, in any order. The deliveries form a
        legal trace from the old state that uses every feed. */
    method RunRipUpdateCycle(simTime: int) returns (ghost tr: Trace)
      requires Valid() && UniquePorts(config.links)
      modifies this`db, this`rows
      ensures Valid() && Traced(NetOf(config), old(rows), tr)
      ensures Origin(tr) == old(db)
      ensures forall f :: f in NetOf(config).feeds ==> Uses(tr, f)
    {
      ghost var net, initial, begin := NetOf(config), rows, Begin(db);
      tr := begin;
      var todo := config.routers.Keys;
      while todo != {}
        invariant Valid() && Traced(net, initial, tr) && Extends(tr, begin)
        invariant todo <= config.routers.Keys
        invariant TurnsServed(config, tr, todo)
        decreases todo
      {
        var id :| id in todo;
        ghost var before, left := tr, todo;
        if Enabled(config, id) {
          tr := RunTurn(id, simTime, net, initial, tr);
          ExtensionKeeps(RIP, NetOf(config), tr, before);
        }
        TurnsGrow(config, tr, before, left, id);
        todo := todo - {id};
      }
      ExtensionKeeps(RIP, NetOf(config), tr, begin);
      AllTurnsUseAllFeeds(config, tr);
    }

    /** The RIP timer: one cycle on a sound network keeps it sound, profits over every feed from
        what was advertised at the start, changes nothing once converged, and keeps forwarding
        tables and databases in agreement. */
    method HandleRipTimer(simTime: int)
      requires Valid() && UniquePorts(config.links)
      modifies this`db, this`rows
      ensures Valid()
      ensures Sound(RIP, NetOf(config), old(db)) ==>
                Sound(RIP, NetOf(config), db) && Cycled(RIP, NetOf(config), old(db), db)
      ensures Sound(RIP, NetOf(config), old(db)) ==> HopsAreFarEnds(config, db)
      ensures Sound(RIP, NetOf(config), old(db)) && Converged(RIP, NetOf(config), old(db)) ==> db == old(db)
      ensures Sound(RIP, NetOf(config), old(db)) && CanonicalNets(NetOf(config)) && AllAgree(old(rows), old(db), FromRip) ==>
                AllAgree(rows, db, FromRip)
    {
      ghost var net, start, initial := NetOf(config), db, rows;
      ghost var tr := RunRipUpdateCycle(simTime);
      if Sound(RIP, net, start) {
        FullTraceIsCycle(RIP, net, tr);
        SoundHops(config, db);
        if Converged(RIP, net, start) {
          ConvergedStays(RIP, net, tr);
        }
        if CanonicalNets(net) && AllAgree(initial, start, FromRip) {
          TraceKeepsAgreement(RIP, FromRip, net, initial, tr);
        }
      }
    }

    /** The timer fires at these times. From any sound databases, empty ones among them, and
        whatever the orders of the turns, every router whose shortest chain of cables to a network
        has j at most 14 links then holds it at metric 1 + j, if the timer has fired j times. */
    method FireRipTimer(times: seq<int>)
      requires Valid() && UniquePorts(config.links) && Sound(RIP, NetOf(config), db)
      modifies this`db, this`rows
      ensures Valid() && Sound(RIP, NetOf(config), db) && HopsAreFarEnds(config, db)
      ensures KnowsWithin14(NetOf(config), db, |times|)
      ensures |times| >= 14 || |times| >= |config.routers| ==> Converged(RIP, NetOf(config), db)
    {
      ghost var net, run := NetOf(config), [db];
      for i := 0 to |times|
        invariant Valid() && Reached(RIP, net, run, db, i)
      {
        ghost var before := db;
        HandleRipTimer(times[i]);
        CyclesGrow(RIP, net, run, before, db, i);
        run := run + [db];
      }
      RipAfterCycles(net, run, db, |times|);
      SoundHops(config, db);
      assert |db.Keys| == |config.routers.Keys|;
    }
  }
}
