/** The OSPF process: hello exchange, link-state database, and runs of a whole network. */
module Ospf {
  import opened Addressing
  import opened Spf

  datatype NeighborState = Down | Init | TwoWay | Full

  datatype Neighbor = Neighbor(state: NeighborState, lastSeen: int, iface: PortId)

  type Neighbors = map<Id, Neighbor>

  datatype Hello = Hello(routerID: Id, active: seq<Id>)

  const DEAD_INTERVAL := 40_000_000_000

  /** The neighbours a hello lists: those in 2-WAY or FULL. */
  predicate Listed(n: Neighbor) {
    n.state == Full || n.state == TwoWay
  }

  ghost predicate IsHelloOf(rid: Id, nbrs: Neighbors, h: Hello) {
    h.routerID == rid && forall a :: a in h.active <==> a in nbrs && Listed(nbrs[a])
  }

  /** The neighbour table after a hello. */
  function Hear(rid: Id, nbrs: Neighbors, iface: PortId, h: Hello, now: int): Neighbors {
    if h.routerID !in nbrs then nbrs[h.routerID := Neighbor(Init, now, iface)]
    else
      var n := nbrs[h.routerID];
      var state :=
        if rid !in h.active then Init
        else if n.state == Init || n.state == TwoWay then Full
        else n.state;
      nbrs[h.routerID := Neighbor(state, now, n.iface)]
  }

  /** The neighbour table without those silent for longer than the dead interval. */
  function Expire(nbrs: Neighbors, now: int): Neighbors {
    map a | a in nbrs && now - nbrs[a].lastSeen <= DEAD_INTERVAL :: nbrs[a]
  }

  /** Merging one LSA: a stored sequence number that is as high wins. */
  function Merge(lsdb: Lsdb, lsa: RouterLsa): Lsdb {
    if lsa.routerID in lsdb && lsdb[lsa.routerID].sequence >= lsa.sequence then lsdb else lsdb[lsa.routerID := lsa]
  }

  function MergeAll(lsdb: Lsdb, lsas: seq<RouterLsa>): Lsdb
    decreases |lsas|
  {
    if lsas == [] then lsdb else Merge(MergeAll(lsdb, lsas[..|lsas| - 1]), lsas[|lsas| - 1])
  }

  /** What GenerateRouterLsa yields: a link of cost 1 to every FULL neighbour, a stub link for
      every connected subnet, and a sequence number that is always 1. */
  ghost predicate IsLsaOf(rid: Id, nbrs: Neighbors, connectedSubnets: map<Id, int>, lsa: RouterLsa) {
    && lsa.routerID == rid && lsa.sequence == 1
    && forall l :: l in lsa.links <==>
                     (l.connectedID in nbrs && nbrs[l.connectedID].state == Full && l.cost == 1)
                     || (l.connectedID in connectedSubnets && l.cost == connectedSubnets[l.connectedID])
  }

  class OspfDaemon {
    const RouterID: Id
    var Neighbors: Neighbors
    var LSDB: Lsdb

    constructor (routerID: Id)
      ensures RouterID == routerID && Neighbors == map[] && LSDB == map[]
    {
      RouterID, Neighbors, LSDB := routerID, map[], map[];
    }

    method GenerateHello() returns (hello: Hello)
      ensures IsHelloOf(RouterID, Neighbors, hello) && hello.routerID == RouterID
      ensures forall a :: a in hello.active <==> a in Neighbors && Neighbors[a].state in {TwoWay, Full}
      ensures forall i, j :: 0 <= i < j < |hello.active| ==> hello.active[i] != hello.active[j]
    {
      var list := [];
      var todo := Neighbors.Keys;
      while todo != {}
        invariant todo <= Neighbors.Keys
        invariant forall a :: a in list <==> a in Neighbors && a !in todo && Listed(Neighbors[a])
        invariant forall i, j :: 0 <= i < j < |list| ==> list[i] != list[j]
        decreases todo
      {
        var rID :| rID in todo;
        if Neighbors[rID].state == Full || Neighbors[rID].state == TwoWay {
          list := list + [rID];
        }
        todo := todo - {rID};
      }
      hello := Hello(RouterID, list);
    }

    method HandleIncomingHello(incomingIface: PortId, hello: Hello, simTime: int) returns (state: NeighborState)
      modifies this`Neighbors
      ensures Neighbors == Hear(RouterID, old(Neighbors), incomingIface, hello, simTime)
      ensures hello.routerID in Neighbors && state == Neighbors[hello.routerID].state
      ensures Neighbors.Keys == old(Neighbors).Keys + {hello.routerID} && Neighbors[hello.routerID].lastSeen == simTime
      ensures forall a :: a in old(Neighbors) && a != hello.routerID ==> Neighbors[a] == old(Neighbors)[a]
      ensures hello.routerID !in old(Neighbors) || RouterID !in hello.active ==> state == Init
      ensures hello.routerID in old(Neighbors) && RouterID in hello.active ==>
                state == (if old(Neighbors)[hello.routerID].state == Down then Down else Full)
      ensures Neighbors[hello.routerID].iface ==
              if hello.routerID in old(Neighbors) then old(Neighbors)[hello.routerID].iface else incomingIface
    {
      if hello.routerID !in Neighbors {
        Neighbors := Neighbors[hello.routerID := Neighbor(Init, simTime, incomingIface)];
        return Init;
      }
      var neighbor := Neighbors[hello.routerID].(lastSeen := simTime);
      var weAreSeen := false;
      for i := 0 to |hello.active|
        invariant weAreSeen <==> RouterID in hello.active[..i]
      {
        if hello.active[i] == RouterID {
          weAreSeen := true;
          assert RouterID in hello.active;
          break;
        }
      }
      assert weAreSeen <==> RouterID in hello.active;
      if weAreSeen {
        if neighbor.state == Init {
          neighbor := neighbor.(state := TwoWay);
        }
        if neighbor.state == TwoWay {
          neighbor := neighbor.(state := Full);
        }
      } else {
        neighbor := neighbor.(state := Init);
      }
      Neighbors := Neighbors[hello.routerID := neighbor];
      return neighbor.state;
    }

    method CheckDeadInterval(simTime: int) returns (dead: seq<Id>)
      modifies this`Neighbors
      ensures Neighbors == Expire(old(Neighbors), simTime)
      ensures forall a :: a in Neighbors <==> a in old(Neighbors) && simTime - old(Neighbors)[a].lastSeen <= 40_000_000_000
      ensures forall a :: a in Neighbors ==> Neighbors[a] == old(Neighbors)[a]
      ensures forall a :: a in dead <==> a in old(Neighbors) && a !in Neighbors
    {
      dead := [];
      var todo := Neighbors.Keys;
      while todo != {}
        invariant todo <= Neighbors.Keys <= old(Neighbors).Keys
        invariant forall a :: a in Neighbors <==>
                    a in old(Neighbors) && (a in todo || simTime - old(Neighbors)[a].lastSeen <= DEAD_INTERVAL)
        invariant forall a :: a in Neighbors ==> Neighbors[a] == old(Neighbors)[a]
        invariant forall a :: a in dead <==> a in old(Neighbors) && a !in Neighbors
        decreases todo
      {
        var id :| id in todo;
        todo := todo - {id};
        if simTime - Neighbors[id].lastSeen > DEAD_INTERVAL {
          dead := dead + [id];
          Neighbors := Neighbors - {id};
        }
      }
    }

    method UpdateLSDB(lsa: RouterLsa) returns (changed: bool)
      modifies this`LSDB
      ensures LSDB == Merge(old(LSDB), lsa)
      ensures changed <==> lsa.routerID !in old(LSDB) || old(LSDB)[lsa.routerID].sequence < lsa.sequence
    {
      if lsa.routerID in LSDB && LSDB[lsa.routerID].sequence >= lsa.sequence {
        return false;
      }
      LSDB := LSDB[lsa.routerID := lsa];
      return true;
    }

    /** Router links to FULL neighbours, then the stub links. */
    method GenerateRouterLsa(connectedSubnets: map<Id, int>) returns (lsa: RouterLsa)
      ensures IsLsaOf(RouterID, Neighbors, connectedSubnets, lsa) && lsa.routerID == RouterID && lsa.sequence == 1
      ensures forall l :: l in lsa.links <==>
                || (l.cost == 1 && l.connectedID in Neighbors && Neighbors[l.connectedID].state == Full)
                || (l.connectedID in connectedSubnets && l.cost == connectedSubnets[l.connectedID])
    {
      var links: seq<LsaLink> := [];
      var todo := Neighbors.Keys;
      while todo != {}
        invariant todo <= Neighbors.Keys
        invariant forall l :: l in links <==> l.connectedID in Neighbors && l.connectedID !in todo && Neighbors[l.connectedID].state == Full && l.cost == 1
        decreases todo
      {
        var id :| id in todo;
        if Neighbors[id].state == Full {
          links := links + [LsaLink(id, 1)];
        }
        todo := todo - {id};
      }
      var rest := connectedSubnets.Keys;
      while rest != {}
        invariant rest <= connectedSubnets.Keys
        invariant forall l :: l in links <==>
                    (l.connectedID in Neighbors && Neighbors[l.connectedID].state == Full && l.cost == 1)
                    || (l.connectedID in connectedSubnets && l.connectedID !in rest && l.cost == connectedSubnets[l.connectedID])
        decreases rest
      {
        var subnet :| subnet in rest;
        links := links + [LsaLink(subnet, connectedSubnets[subnet])];
        rest := rest - {subnet};
      }
      lsa := RouterLsa(RouterID, 1, links);
    }
  }

  // ---------------------------------------------------------------- merging is order-independent

  /** No LSA of this router in the list has a higher sequence number. */
  ghost predicate IsTop(lsas: seq<RouterLsa>, lsa: RouterLsa) {
    lsa in lsas && forall x :: x in lsas && x.routerID == lsa.routerID ==> x.sequence <= lsa.sequence
  }

  /** Among the LSAs received, the highest sequence number of a router determines the LSA. */
  ghost predicate TopsAgree(lsas: seq<RouterLsa>) {
    forall a, b :: IsTop(lsas, a) && IsTop(lsas, b) && a.routerID == b.routerID ==> a == b
  }

  ghost predicate SameLsas(a: seq<RouterLsa>, b: seq<RouterLsa>) {
    forall x :: x in a <==> x in b
  }

  /** The database holds, for each router heard of, an LSA of highest sequence number. */
  lemma {:induction false} MergeHoldsTops(lsas: seq<RouterLsa>)
    ensures forall x :: x in lsas ==> x.routerID in MergeAll(map[], lsas)
    ensures forall r :: r in MergeAll(map[], lsas) ==>
              MergeAll(map[], lsas)[r].routerID == r && IsTop(lsas, MergeAll(map[], lsas)[r])
    decreases |lsas|
  {
    if lsas != [] {
      var front, lsa := lsas[..|lsas| - 1], lsas[|lsas| - 1];
      MergeHoldsTops(front);
      assert forall x :: x in lsas <==> x in front || x == lsa;
      var before := MergeAll(map[], front);
      forall r | r in MergeAll(map[], lsas)
        ensures MergeAll(map[], lsas)[r].routerID == r && IsTop(lsas, MergeAll(map[], lsas)[r])
      {
        if r in before {
          assert IsTop(front, before[r]);
        }
      }
    }
  }

  /** Any order and any duplication give the same database when tops agree. */
  lemma MergeIsOrderIndependent(a: seq<RouterLsa>, b: seq<RouterLsa>)
    requires SameLsas(a, b) && TopsAgree(a)
    ensures MergeAll(map[], a) == MergeAll(map[], b)
  {
    MergeHoldsTops(a);
    MergeHoldsTops(b);
    var da, db := MergeAll(map[], a), MergeAll(map[], b);
    forall r ensures r in da <==> r in db {
      if r in da {
        assert da[r] in b;
      }
      if r in db {
        assert db[r] in a;
      }
    }
    forall r | r in da ensures da[r] == db[r] {
      assert IsTop(a, da[r]) && IsTop(b, db[r]);
      assert IsTop(a, db[r]);
    }
  }

  lemma {:induction false} FirstTopWins(lsas: seq<RouterLsa>, lsa: RouterLsa)
    requires lsas != [] && lsas[0] == lsa && IsTop(lsas, lsa)
    ensures lsa.routerID in MergeAll(map[], lsas) && MergeAll(map[], lsas)[lsa.routerID] == lsa
    decreases |lsas|
  {
    var front := lsas[..|lsas| - 1];
    if |lsas| == 1 {
      assert front == [];
    } else {
      assert forall x :: x in front ==> x in lsas;
      assert front[0] in front;
      FirstTopWins(front, lsa);
      assert lsas[|lsas| - 1] in lsas;
    }
  }

  ghost predicate OrderImmaterial(lsas: seq<RouterLsa>) {
    forall other :: SameLsas(lsas, other) ==> MergeAll(map[], other) == MergeAll(map[], lsas)
  }

  lemma OrderMatters(lsas: seq<RouterLsa>, a: RouterLsa, b: RouterLsa)
    requires IsTop(lsas, a) && IsTop(lsas, b) && a.routerID == b.routerID && a != b
    ensures !OrderImmaterial(lsas)
  {
    var x, y := [a] + lsas, [b] + lsas;
    assert SameLsas(lsas, x) && SameLsas(lsas, y);
    FirstTopWins(x, a);
    FirstTopWins(y, b);
    assert MergeAll(map[], x)[a.routerID] != MergeAll(map[], y)[a.routerID];
  }

  /** The exact condition: the order of arrival is immaterial iff tops agree. */
  lemma MergeOrderIff(lsas: seq<RouterLsa>)
    ensures TopsAgree(lsas) <==> OrderImmaterial(lsas)
  {
    if TopsAgree(lsas) {
      forall other | SameLsas(lsas, other) ensures MergeAll(map[], other) == MergeAll(map[], lsas) {
        MergeIsOrderIndependent(lsas, other);
      }
    } else {
      var a, b :| IsTop(lsas, a) && IsTop(lsas, b) && a.routerID == b.routerID && a != b;
      OrderMatters(lsas, a, b);
    }
  }

  /** A stored sequence number never decreases, and an LSA is never dropped. */
  lemma {:induction false} SequencesNeverDecrease(lsdb: Lsdb, lsas: seq<RouterLsa>, r: Id)
    requires r in lsdb
    ensures r in MergeAll(lsdb, lsas) && MergeAll(lsdb, lsas)[r].sequence >= lsdb[r].sequence
    decreases |lsas|
  {
    if lsas != [] {
      SequencesNeverDecrease(lsdb, lsas[..|lsas| - 1], r);
    }
  }

  /** Since every generated LSA has sequence number 1, the first one a database stores for a
      router is final: later changes of its links never get in. */
  lemma {:induction false} FirstLsaIsFinal(lsdb: Lsdb, lsas: seq<RouterLsa>, r: Id)
    requires r in lsdb && lsdb[r].sequence >= 1 && forall x :: x in lsas ==> x.sequence == 1
    ensures r in MergeAll(lsdb, lsas) && MergeAll(lsdb, lsas)[r] == lsdb[r]
    decreases |lsas|
  {
    if lsas != [] {
      var front := lsas[..|lsas| - 1];
      assert forall x :: x in front ==> x in lsas;
      FirstLsaIsFinal(lsdb, front, r);
      assert lsas[|lsas| - 1] in lsas;
    }
  }

  // ---------------------------------------------------------------- runs of a network

  /** Router names, their OSPF router IDs, neighbour tables and databases, and every hello sent. */
  datatype Network = Network(ids: map<Id, Id>, tables: map<Id, Neighbors>, sent: set<Hello>, lsdbs: map<Id, Lsdb>)

  datatype Event =
    | Send(router: Id, hello: Hello)
    | Receive(router: Id, hello: Hello, iface: PortId, now: int)
    | Age(router: Id, now: int)
    | Flood(router: Id, subnets: map<Id, int>, lsa: RouterLsa, receivers: set<Id>)

  /** A text with a slash, as every connected subnet has one and no address does. */
  predicate HasSlash(a: Id) {
    '/' in a.name
  }

  /** What GetConnectedSubnets yields: texts of ipToCIDR, all at cost 0. */
  ghost predicate AreSubnets(subnets: map<Id, int>) {
    forall s :: s in subnets ==> HasSlash(s) && subnets[s] == 0
  }

  /** Hellos and LSAs are only ever made by the daemon. Hellos may be delayed, repeated or
      reordered; an LSA reaches any set of routers at once. */
  ghost predicate Possible(n: Network, e: Event) {
    && e.router in n.ids && e.router in n.tables
    && match e
       case Send(d, h) => IsHelloOf(n.ids[d], n.tables[d], h)
       case Receive(d, h, _, _) => h in n.sent
       case Age(_, _) => true
       case Flood(d, subnets, lsa, _) => AreSubnets(subnets) && IsLsaOf(n.ids[d], n.tables[d], subnets, lsa)
  }

  function Happen(n: Network, e: Event): Network
    requires e.router in n.ids && e.router in n.tables
  {
    match e
    case Send(d, h) => n.(sent := n.sent + {h})
    case Receive(d, h, i, now) => n.(tables := n.tables[d := Hear(n.ids[d], n.tables[d], i, h, now)])
    case Age(d, now) => n.(tables := n.tables[d := Expire(n.tables[d], now)])
    case Flood(_, _, lsa, receivers) =>
      n.(lsdbs := map d | d in n.lsdbs :: if d in receivers then Merge(n.lsdbs[d], lsa) else n.lsdbs[d])
  }

  datatype Run = Begin(network: Network) | Then(past: Run, event: Event)

  ghost predicate Legal(run: Run) {
    match run
    case Begin(n) => n.sent == {}
    case Then(past, e) => Legal(past) && Possible(Now(past), e)
  }

  function Start(run: Run): Network {
    match run
    case Begin(n) => n
    case Then(past, _) => Start(past)
  }

  ghost function Now(run: Run): Network {
    match run
    case Begin(n) => n
    case Then(past, e) => if e.router in Now(past).ids && e.router in Now(past).tables then Happen(Now(past), e) else Now(past)
  }

  /** Every neighbour of every router is in INIT. */
  ghost predicate AllInit(n: Network) {
    forall d, a :: d in n.tables && a in n.tables[d] ==> n.tables[d][a].state == Init
  }

  /** When all hellos come from GenerateHello the adjacency has no base case: from empty tables
      no neighbour ever leaves INIT, and no hello ever lists anybody. */
  lemma {:induction false} NobodyLeavesInit(run: Run)
    requires Legal(run) && AllInit(Start(run))
    ensures AllInit(Now(run)) && forall h, a :: h in Now(run).sent ==> a !in h.active
  {
    match run
    case Begin(_) =>
    case Then(past, e) =>
      NobodyLeavesInit(past);
      var n := Now(past);
      match e {
        case Send(d, h) =>
          assert forall a :: a in n.tables[d] ==> !Listed(n.tables[d][a]);
        case Receive(d, h, i, now) =>
          assert n.ids[d] !in h.active;
        case Age(_, _) =>
        case Flood(_, _, _, _) =>
      }
  }

  /** When router `d` last heard from `q`, and on which port it first did: nothing before the first
      hello, and nothing again once it was more than 40 seconds silent at a check. */
  function Heard(run: Run, d: Id, q: Id): Option<(int, PortId)> {
    match run
    case Begin(_) => None
    case Then(past, e) =>
      var was := Heard(past, d, q);
      match e
      case Receive(r, h, port, now) =>
        if r != d || h.routerID != q then was
        else if was.Some? then Some((now, was.value.1))
        else Some((now, port))
      case Age(r, now) => if r == d && was.Some? && now - was.value.0 > 40_000_000_000 then None else was
      case _ => was
  }

  /** No router has a neighbour. */
  ghost predicate Alone(n: Network) {
    forall r :: r in n.tables ==> n.tables[r].Keys == {}
  }

  ghost predicate IsAsHeard(nbrs: Neighbors, q: Id, heard: Option<(int, PortId)>) {
    && (q in nbrs <==> heard.Some?)
    && (q in nbrs ==> heard == Some((nbrs[q].lastSeen, nbrs[q].iface)))
  }

  /** Over every run from empty tables, the neighbours of a router are exactly those it has heard
      from, with the time of their last hello: nobody is dropped early and nobody is kept late. */
  lemma {:induction false} NeighborsAreHeard(run: Run, d: Id, q: Id)
    requires Legal(run) && Alone(Start(run)) && d in Now(run).tables
    ensures IsAsHeard(Now(run).tables[d], q, Heard(run, d, q))
  {
    if run.Then? {
      var n, e := Now(run.past), run.event;
      assert Start(run) == Start(run.past);
      NeighborsAreHeard(run.past, d, q);
      if e.router == d {
        match e
        case Receive(_, _, _, _) =>
        case Age(_, _) =>
        case _ => assert Now(run).tables == n.tables;
      } else {
        assert Now(run).tables[d] == n.tables[d];
      }
    }
  }

  /** At some moment of the run a router with ID `rid` listed `a` as 2-WAY or FULL. */
  ghost predicate EverListed(run: Run, rid: Id, a: Id) {
    || (exists d :: ListsNow(Now(run), d, rid, a))
    || (run.Then? && EverListed(run.past, rid, a))
  }

  ghost predicate ListsNow(n: Network, d: Id, rid: Id, a: Id) {
    d in n.ids && d in n.tables && n.ids[d] == rid && a in n.tables[d] && Listed(n.tables[d][a])
  }

  /** Whoever a hello lists was listed by its sender when, or before, it was sent. */
  lemma {:induction false} HellosAreCaused(run: Run, h: Hello, a: Id)
    requires Legal(run) && h in Now(run).sent && a in h.active
    ensures EverListed(run, h.routerID, a)
  {
    match run
    case Begin(_) =>
    case Then(past, e) =>
      if h in Now(past).sent {
        HellosAreCaused(past, h, a);
      } else {
        assert ListsNow(Now(past), e.router, h.routerID, a);
        assert EverListed(past, h.routerID, a);
      }
  }

  ghost predicate IsFull(n: Network, d: Id, q: Id) {
    d in n.tables && q in n.tables[d] && n.tables[d][q].state == Full
  }

  /** Causality over whole runs: a router holds a neighbour FULL only if it did so from the start
      or after that neighbour held it in 2-WAY or FULL. */
  lemma {:induction false} FullIsCaused(run: Run, d: Id, q: Id)
    requires Legal(run) && IsFull(Now(run), d, q) && d in Now(run).ids
    ensures IsFull(Start(run), d, q) || EverListed(run, q, Now(run).ids[d])
  {
    match run
    case Begin(_) =>
    case Then(past, e) =>
      IdsAreFixed(run);
      IdsAreFixed(past);
      if IsFull(Now(past), d, q) {
        FullIsCaused(past, d, q);
      } else {
        assert e.Receive? && e.router == d && e.hello.routerID == q && Now(past).ids[d] in e.hello.active;
        HellosAreCaused(past, e.hello, Now(past).ids[d]);
      }
  }

  lemma {:induction false} IdsAreFixed(run: Run)
    ensures Now(run).ids == Start(run).ids
  {
    if run.Then? {
      IdsAreFixed(run.past);
    }
  }

  /** 2-WAY is never a resting state: it is entered and left within one hello. */
  lemma {:induction false} TwoWayNeverRests(run: Run, d: Id, q: Id)
    requires Legal(run) && d in Now(run).tables && q in Now(run).tables[d] && Now(run).tables[d][q].state == TwoWay
    ensures d in Start(run).tables && q in Start(run).tables[d] && Start(run).tables[d][q].state == TwoWay
  {
    if run.Then? {
      TwoWayNeverRests(run.past, d, q);
    }
  }

  // ---------------------------------------------------------------- what the databases hold

  /** Router IDs are addresses: not empty, and without a slash. */
  ghost predicate PlainIds(n: Network) {
    forall d :: d in n.ids ==> !HasSlash(n.ids[d]) && n.ids[d] != NOBODY
  }

  /** Every key is the ID of a router, and no cost is negative. */
  ghost predicate FromRouters(lsdb: Lsdb) {
    forall u :: u in lsdb ==> !HasSlash(u) && u != NOBODY && forall l :: l in lsdb[u].links ==> l.cost >= 0
  }

  /** Every link leads to a subnet. */
  ghost predicate OnlyStubs(lsdb: Lsdb) {
    forall u, l :: u in lsdb && l in lsdb[u].links ==> HasSlash(l.connectedID)
  }

  /** Flooding keeps every database keyed by router IDs, whatever the neighbour states are. */
  lemma {:induction false} FloodingKeepsKeys(run: Run)
    requires Legal(run) && PlainIds(Start(run))
    requires forall d :: d in Start(run).lsdbs ==> FromRouters(Start(run).lsdbs[d])
    ensures forall d :: d in Now(run).lsdbs ==> FromRouters(Now(run).lsdbs[d])
  {
    match run
    case Begin(_) =>
    case Then(past, e) =>
      FloodingKeepsKeys(past);
      IdsAreFixed(past);
  }

  /** From empty neighbour tables no database ever holds anything but stub links. */
  lemma {:induction false} OnlyStubsAreFlooded(run: Run)
    requires Legal(run) && AllInit(Start(run))
    requires forall d :: d in Start(run).lsdbs ==> OnlyStubs(Start(run).lsdbs[d])
    ensures forall d :: d in Now(run).lsdbs ==> OnlyStubs(Now(run).lsdbs[d])
  {
    match run
    case Begin(_) =>
    case Then(past, e) =>
      OnlyStubsAreFlooded(past);
      NobodyLeavesInit(past);
      if e.Flood? {
        assert forall l :: l in e.lsa.links ==> HasSlash(l.connectedID);
      }
  }

  lemma PathsEndOutside(lsdb: Lsdb, root: Id, path: seq<LsaLink>)
    requires IsPath(lsdb, root, path) && FromRouters(lsdb) && OnlyStubs(lsdb)
    ensures path == [] || Last(root, path) !in lsdb
  {
    if path != [] {
      assert path[|path| - 1] in lsdb[Last(root, path[..|path| - 1])].links;
    }
  }

  /** Consequence for routing: in every reachable state of a network that starts with empty tables
      and databases, the shortest-path results of every router are empty. */
  lemma SpfStaysEmpty(run: Run, d: Id, results: map<Id, SpfResult>)
    requires Legal(run) && AllInit(Start(run)) && PlainIds(Start(run))
    requires forall r :: r in Start(run).lsdbs ==> Start(run).lsdbs[r] == map[]
    requires d in Now(run).ids && d in Now(run).lsdbs
    requires Correct(Now(run).lsdbs[d], Now(run).ids[d], results)
    ensures results == map[]
  {
    FloodingKeepsKeys(run);
    OnlyStubsAreFlooded(run);
    var lsdb, root := Now(run).lsdbs[d], Now(run).ids[d];
    forall path | IsPath(lsdb, root, path) ensures path == [] || Last(root, path) !in lsdb {
      PathsEndOutside(lsdb, root, path);
    }
    assert forall x :: x in lsdb && x != root ==> !Reachable(lsdb, root, x);
  }
}
