/** EIGRP over a topology of routers: the update cycle of the manager. Updates go straight to the
    neighbour's process, one way per turn, whatever the state of the interfaces.
 */
module EigrpNetwork {
  import opened Addressing
  import opened DistanceVector
  import opened RoutingTable
  import opened Daemons
  import opened RoutedNetwork
  import opened Routers
  import opened Topology

  predicate Enabled(c: Config, a: RouterId) {
    a in c.routers && c.routers[a].eigrpEnabled
  }

  /** Updates flow over `f` in every cycle: a link between two enabled routers, leaving by a port
      that has an address. */
  predicate IsFeed(c: Config, f: Feed) {
    && Enabled(c, f.sender) && Enabled(c, f.receiver)
    && Peer(c.links, End(f.sender, f.senderPort)) == Some(End(f.receiver, f.port))
    && f.senderPort in c.routers[f.sender].addresses
    && f.addr == c.routers[f.sender].addresses[f.senderPort]
  }

  ghost function NetOf(c: Config): Net {
    Net(Connections(c), iset f: Feed | IsFeed(c, f))
  }

  /** The feeds in plain terms: the directions of the cables between routers that both run EIGRP, out
      of a port that has an address. */
  lemma FeedIff(c: Config, f: Feed)
    requires UniquePorts(c.links)
    ensures f in NetOf(c).feeds <==>
            && f.sender in c.routers && c.routers[f.sender].eigrpEnabled && f.receiver in c.routers && c.routers[f.receiver].eigrpEnabled
            && (exists l :: l in c.links && Joins(l, End(f.sender, f.senderPort), End(f.receiver, f.port)))
            && f.senderPort in c.routers[f.sender].addresses && f.addr == c.routers[f.sender].addresses[f.senderPort]
  {
    PeerIff(c.links, End(f.sender, f.senderPort), End(f.receiver, f.port));
  }

  /** In a sound state every EIGRP route goes to the far end of its cable. */
  lemma SoundHops(c: Config, db: Db)
    requires UniquePorts(c.links) && Sound(EIGRP, NetOf(c), db)
    ensures HopsAreFarEnds(c, db)
  {
    forall a, n | a in db && n in db[a] ensures HopIsFarEnd(c, a, db[a][n]) {
      assert SoundRoute(EIGRP, NetOf(c), db, a, n, db[a][n]);
      var f :| f in NetOf(c).feeds && Backed(EIGRP, NetOf(c), db, f, a, db[a][n]);
      assert IsFeed(c, f);
      PeerIsSymmetric(c.links, End(f.sender, f.senderPort));
      assert HasAddress(c, End(f.sender, f.senderPort), f.addr);
    }
  }

  lemma NetIsWellFormed(c: Config, db: Db)
    requires UniquePorts(c.links) && forall a :: a in c.routers ==> a in db
    ensures WellFormed(NetOf(c), db)
  {
    forall f, g | f in NetOf(c).feeds && g in NetOf(c).feeds && f.receiver == g.receiver && f.port == g.port
      ensures f == g
    {
      assert IsFeed(c, f) && IsFeed(c, g);
      PeerIsInjective(c.links, End(f.sender, f.senderPort), End(g.sender, g.senderPort));
    }
  }

  /** Every feed leaving `id` by a port outside `todo` has been used. */
  ghost predicate PortsServed(net: Net, tr: Trace, id: RouterId, todo: set<PortId>) {
    forall f :: f in net.feeds && f.sender == id && f.senderPort !in todo ==> Uses(tr, f)
  }

  ghost predicate TurnsServed(net: Net, tr: Trace, todo: set<RouterId>) {
    forall f :: f in net.feeds && f.sender !in todo ==> Uses(tr, f)
  }

  /** Every feed leaving by this port has been used. */
  ghost predicate PortServed(net: Net, tr: Trace, at: End) {
    forall f :: f in net.feeds && f.sender == at.node && f.senderPort == at.port ==> Uses(tr, f)
  }

  /** One more port of a turn has been served. */
  lemma TurnGoesOn(net: Net, first: Trace, before: Trace, tr: Trace, id: RouterId, advert: seq<Entry>, todo: set<PortId>, port: PortId)
    requires Extends(before, first) && Extends(tr, before)
    requires WasAdvertised(EIGRP, net, before, id, advert) && PortsServed(net, before, id, todo) && PortServed(net, tr, End(id, port))
    ensures Extends(tr, first) && WasAdvertised(EIGRP, net, tr, id, advert) && PortsServed(net, tr, id, todo - {port})
  {
    ExtensionKeeps(EIGRP, net, tr, before);
  }

  /** One more router has taken its turn. */
  lemma CycleGoesOn(net: Net, first: Trace, before: Trace, tr: Trace, todo: set<RouterId>, id: RouterId)
    requires Extends(before, first) && Extends(tr, before)
    requires TurnsServed(net, before, todo) && PortsServed(net, tr, id, {})
    ensures Extends(tr, first) && TurnsServed(net, tr, todo - {id})
  {
    ExtensionKeeps(EIGRP, net, tr, before);
  }

  /** A router that is disabled, or has no ports left, has nothing to send. */
  lemma DisabledSendsNothing(c: Config, tr: Trace, id: RouterId)
    requires !Enabled(c, id)
    ensures PortsServed(NetOf(c), tr, id, {})
  {}

  /** Ports without an address feed nobody. */
  lemma PortsWithoutAddress(c: Config, tr: Trace, id: RouterId)
    requires Enabled(c, id)
    ensures PortsServed(NetOf(c), tr, id, c.routers[id].addresses.Keys)
  {}

  lemma {:induction false} NoWire(entries: seq<Entry>)
    ensures OnWire(EIGRP, entries) == entries
  {
    if entries != [] {
      NoWire(entries[1..]);
    }
  }

  /** Every router at most `k` links from a network holds it at metric 100 + 100000 times its true distance. */
  ghost predicate KnowsWithin(net: Net, db: Db, k: nat) {
    forall r, n, j: nat :: Shortest(net, r, n, j) && j <= k ==> r in db && n in db[r] && db[r][n].metric == 100 + 100_000 * j
  }

  /** What `k` cycles in a row achieve; as many as there are routers suffice. */
  lemma EigrpAfterCycles(net: Net, run: seq<Db>, db: Db, k: nat)
    requires Reached(EIGRP, net, run, db, k)
    ensures KnowsWithin(net, db, k)
    ensures k >= |db| ==> Converged(EIGRP, net, db)
  {
    KnowsShortest(EIGRP, net, run, db, k);
    forall r, n, j: nat | Shortest(net, r, n, j) && j <= k ensures r in db && n in db[r] && db[r][n].metric == 100 + 100_000 * j {
      EigrpMetric(j);
    }
    if k >= |db| {
      ConvergedAfterRouters(EIGRP, net, run, db, k);
    }
  }

  class Manager {
    const config: Config
    var db: Db
    var rows: Rows

    constructor (c: Config)
      ensures Valid() && config == c
      ensures forall a :: a in db ==> db[a] == map[] && rows[a] == []
    {
      config := c;
      db := map a | a in c.routers :: map[];
      rows := map a | a in c.routers :: [];
    }

    ghost predicate Valid()
      reads this
    {
      ValidState(config.routers.Keys, db, rows)
    }

    ghost predicate Traced(net: Net, initial: Rows, tr: Trace)
      reads this
    {
      UniquePorts(config.links) && net == NetOf(config) && TracedState(EIGRP, FromEigrp, net, db, rows, initial, tr)
    }

    method Load(id: RouterId) returns (router: Router, daemon: EigrpDaemon)
      requires Valid() && id in db
      ensures fresh(router) && fresh(daemon) && router.Eigrp == daemon && daemon.Routes == db[id]
      ensures router.RoutingTable == rows[id] && router.ConnectedNetworks() == ConnectedTo(config.routers[id])
    {
      daemon := new EigrpDaemon.Running(db[id]);
      router := new Router.Running(id, config.routers[id].addresses, config.routers[id].masks, rows[id], null, daemon);
    }

    /** ProcessUpdate on the neighbour, then AddRoute for every updated route, in order. */
    method DeliverUpdate(at: End, advert: seq<Entry>, senderIP: IPAddress, simTime: int)
      requires Valid() && at.node in db
      modifies this`db, this`rows
      ensures db == old(db)[at.node := Learn(EIGRP, old(db)[at.node], advert, senderIP, at.port, simTime)]
      ensures rows == old(rows)[at.node := Install(old(rows)[at.node], Learned(EIGRP, old(db)[at.node], advert, senderIP, at.port, simTime), FromEigrp)]
    {
      var router, daemon := Load(at.node);
      router.HandleEigrpUpdate(at.port, advert, senderIP, simTime);
      db, rows := db[at.node := daemon.Routes], rows[at.node := router.RoutingTable];
    }

    /** Connected networks at metric 100, then every learned route, in map order. */
    method BuildAdvertisement(id: RouterId) returns (advert: seq<Entry>)
      requires Valid() && id in db
      ensures IsAdvertisement(EIGRP, ConnectedTo(config.routers[id]), db[id], advert)
    {
      var router, daemon := Load(id);
      advert := router.BuildEigrpUpdate();
    }

    /** One port of a turn: the advertisement goes to the router at the far end, if enabled. */
    method SendOnPort(at: End, advert: seq<Entry>, simTime: int, ghost net: Net, ghost initial: Rows, ghost tr: Trace)
      returns (ghost tr': Trace)
      requires Valid() && Traced(net, initial, tr)
      requires Enabled(config, at.node) && at.port in config.routers[at.node].addresses
      requires WasAdvertised(EIGRP, net, tr, at.node, advert)
      modifies this`db, this`rows
      ensures Valid() && Traced(net, initial, tr')
      ensures Extends(tr', tr) && PortServed(net, tr', at)
    {
      tr' := tr;
      var far := FindNeighborOnPort(config.links, at);
      if far.None? || !Enabled(config, far.value.node) {
        return;
      }
      var senderIP := config.routers[at.node].addresses[at.port];
      ghost var f := Feed(at.node, at.port, senderIP, far.value.node, far.value.port);
      NoWire(advert);
      DeliveryKeepsValid(EIGRP, FromEigrp, config.routers.Keys, db, rows, f, advert, simTime);
      DeliveryGrowsTrace(EIGRP, FromEigrp, net, db, rows, initial, tr, f, advert, simTime);
      DeliverUpdate(far.value, advert, senderIP, simTime);
      tr' := Then(tr, f, advert, simTime);
    }

    /** The advertisement goes out on every port with an address, in any order. */
    method ServePorts(id: RouterId, advert: seq<Entry>, simTime: int, ghost net: Net, ghost initial: Rows, ghost tr: Trace)
      returns (ghost tr': Trace)
      requires Valid() && Traced(net, initial, tr) && Enabled(config, id)
      requires WasAdvertised(EIGRP, net, tr, id, advert)
      modifies this`db, this`rows
      ensures Valid() && Traced(net, initial, tr') && Extends(tr', tr) && PortsServed(net, tr', id, {})
    {
      tr' := tr;
      var todo := config.routers[id].addresses.Keys;
      PortsWithoutAddress(config, tr, id);
      while todo != {}
        invariant Valid() && Traced(net, initial, tr') && Extends(tr', tr)
        invariant todo <= config.routers[id].addresses.Keys
        invariant WasAdvertised(EIGRP, net, tr', id, advert) && PortsServed(net, tr', id, todo)
        decreases todo
      {
        var portID :| portID in todo;
        ghost var before := tr';
        tr' := SendOnPort(End(id, portID), advert, simTime, net, initial, tr');
        TurnGoesOn(net, tr, before, tr', id, advert, todo, portID);
        todo := todo - {portID};
      }
    }

    /** One router's turn: one advertisement serves all its ports. */
    method RunTurn(id: RouterId, simTime: int, ghost net: Net, ghost initial: Rows, ghost tr: Trace)
      returns (ghost tr': Trace)
      requires Valid() && Traced(net, initial, tr) && Enabled(config, id)
      modifies this`db, this`rows
      ensures Valid() && Traced(net, initial, tr') && Extends(tr', tr) && PortsServed(net, tr', id, {})
    {
      var advert := BuildAdvertisement(id);
      JustAdvertised(EIGRP, FromEigrp, net, db, rows, initial, tr, id, advert);
      tr' := ServePorts(id, advert, simTime, net, initial, tr);
    }

    /** RunEigrpUpdateCycle: every enabled router takes a turn, in any order; the deliveries form a
        legal trace that uses every feed, so the distance-vector theorems apply. */
    method RunEigrpUpdateCycle(simTime: int) returns (ghost tr: Trace)
      requires Valid() && UniquePorts(config.links)
      modifies this`db, this`rows
      ensures Valid() && Traced(NetOf(config), old(rows), tr) && Origin(tr) == old(db)
      ensures forall f :: f in NetOf(config).feeds ==> Uses(tr, f)
    {
      ghost var net, initial, begin := NetOf(config), rows, Begin(db);
      tr := begin;
      var todo := config.routers.Keys;
      while todo != {}
        invariant Valid() && Traced(net, initial, tr) && Extends(tr, begin)
        invariant todo <= config.routers.Keys && TurnsServed(net, tr, todo)
        decreases todo
      {
        var id :| id in todo;
        ghost var before := tr;
        if Enabled(config, id) {
          tr := RunTurn(id, simTime, net, initial, tr);
        } else {
          DisabledSendsNothing(config, tr, id);
        }
        CycleGoesOn(net, begin, before, tr, todo, id);
        todo := todo - {id};
      }
      ExtensionKeeps(EIGRP, net, tr, begin);
    }

    /** The EIGRP timer: one cycle keeps a sound network sound, profits over every feed from what
        was advertised at the start, changes nothing once converged, and keeps forwarding tables
        and databases in agreement. */
    method HandleEigrpTimer(simTime: int)
      requires Valid() && UniquePorts(config.links)
      modifies this`db, this`rows
      ensures Valid()
      ensures Sound(EIGRP, NetOf(config), old(db)) ==>
                Sound(EIGRP, NetOf(config), db) && Cycled(EIGRP, NetOf(config), old(db), db)
      ensures Sound(EIGRP, NetOf(config), old(db)) ==> HopsAreFarEnds(config, db)
      ensures Sound(EIGRP, NetOf(config), old(db)) && Converged(EIGRP, NetOf(config), old(db)) ==> db == old(db)
      ensures Sound(EIGRP, NetOf(config), old(db)) && CanonicalNets(NetOf(config)) && AllAgree(old(rows), old(db), FromEigrp) ==>
                AllAgree(rows, db, FromEigrp)
    {
      ghost var net, start, initial := NetOf(config), db, rows;
      ghost var tr := RunEigrpUpdateCycle(simTime);
      if Sound(EIGRP, net, start) {
        FullTraceIsCycle(EIGRP, net, tr);
        SoundHops(config, db);
        if Converged(EIGRP, net, start) {
          ConvergedStays(EIGRP, net, tr);
        }
        if CanonicalNets(net) && AllAgree(initial, start, FromEigrp) {
          TraceKeepsAgreement(EIGRP, FromEigrp, net, initial, tr);
        }
      }
    }

    /** The timer fires at these times. From any sound databases, empty ones among them, and
        whatever the orders of the turns, every router whose shortest chain of cables to a network has j links then holds it at
        metric 100 + 100000 j, if the timer has fired j times; as many firings as there are
        routers converge the network. */
    method FireEigrpTimer(times: seq<int>)
      requires Valid() && UniquePorts(config.links) && Sound(EIGRP, NetOf(config), db)
      modifies this`db, this`rows
      ensures Valid() && Sound(EIGRP, NetOf(config), db) && HopsAreFarEnds(config, db)
      ensures KnowsWithin(NetOf(config), db, |times|)
      ensures |times| >= |config.routers| ==> Converged(EIGRP, NetOf(config), db)
    {
      ghost var net, run := NetOf(config), [db];
      for i := 0 to |times|
        invariant Valid() && Reached(EIGRP, net, run, db, i)
      {
        ghost var before := db;
        HandleEigrpTimer(times[i]);
        CyclesGrow(EIGRP, net, run, before, db, i);
        run := run + [db];
      }
      EigrpAfterCycles(net, run, db, |times|);
      SoundHops(config, db);
      assert |db.Keys| == |config.routers.Keys|;
    }
  }
}
