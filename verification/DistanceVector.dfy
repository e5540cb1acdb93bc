/** Distance-vector routing over a fixed network, for any base metric, step and infinity.

    RIP (1, 1, 16) and EIGRP (100, 100000, none) are the two instances. A database gives every
    router its learned routes; a feed is one direction of a link over which updates travel.
    The invariant `Sound` is kept by every single delivery, in any order and interleaving.
 */
module DistanceVector {
  import opened Addressing

  /** `width` is the number of values of the metric field on the wire, if updates cross one. */
  datatype Protocol = Protocol(base: nat, step: nat, infinity: Option<nat>, width: Option<nat>)

  const RIP := Protocol(1, 1, Some(16), Some(0x1_0000))
  const EIGRP := Protocol(100, 100_000, None, None)

  /** Steps are positive, the base is in range, and the wire field holds every metric in range. */
  predicate Sane(p: Protocol) {
    && p.step >= 1 && InRange(p, p.base)
    && (p.width.Some? ==> p.infinity.Some? && p.infinity.value <= p.width.value)
  }

  datatype Route = Route(network: Cidr, nextHop: IPAddress, iface: PortId, metric: int, learned: int)

  /** One advertised (network, metric) pair. */
  datatype Entry = Entry(network: Cidr, metric: int)

  type Table = map<Cidr, Route>
  type Db = map<RouterId, Table>

  /** Updates leaving `sender` by `senderPort`, with source address `addr`, reach `receiver` on `port`. */
  datatype Feed = Feed(sender: RouterId, senderPort: PortId, addr: IPAddress, receiver: RouterId, port: PortId)

  datatype Net = Net(connected: map<RouterId, set<Cidr>>, feeds: iset<Feed>)

  // ---------------------------------------------------------------- one update

  predicate InRange(p: Protocol, metric: int) {
    p.infinity.None? || metric < p.infinity.value
  }

  /** The metric field of a wire route truncates. */
  function WireMetric(p: Protocol, m: int): int {
    if p.width.Some? && p.width.value > 0 then m % p.width.value else m
  }

  function OnWire(p: Protocol, entries: seq<Entry>): seq<Entry> {
    if entries == [] then []
    else [Entry(entries[0].network, WireMetric(p, entries[0].metric))] + OnWire(p, entries[1..])
  }

  predicate Accepts(p: Protocol, t: Table, e: Entry) {
    var m := e.metric + p.step;
    InRange(p, m) && (e.network !in t || m < t[e.network].metric)
  }

  /** The table after the entries, from first to last. */
  function Learn(p: Protocol, t: Table, entries: seq<Entry>, sender: IPAddress, iface: PortId, now: int): Table
    decreases |entries|
  {
    if entries == [] then t
    else
      var before := Learn(p, t, entries[..|entries| - 1], sender, iface, now);
      var e := entries[|entries| - 1];
      if Accepts(p, before, e)
      then before[e.network := Route(e.network, sender, iface, e.metric + p.step, now)]
      else before
  }

  /** The routes reported as updated, in order; a network improved twice appears twice. */
  function Learned(p: Protocol, t: Table, entries: seq<Entry>, sender: IPAddress, iface: PortId, now: int): seq<Route>
    decreases |entries|
  {
    if entries == [] then []
    else
      var front := entries[..|entries| - 1];
      var before := Learn(p, t, front, sender, iface, now);
      var e := entries[|entries| - 1];
      Learned(p, t, front, sender, iface, now)
      + (if Accepts(p, before, e) then [Route(e.network, sender, iface, e.metric + p.step, now)] else [])
  }

  /** A route of the new table that was not in the old one came from an accepted entry. */
  ghost predicate CameFrom(p: Protocol, entries: seq<Entry>, sender: IPAddress, iface: PortId, now: int, n: Cidr, r: Route) {
    exists e :: e in entries && e.network == n && InRange(p, e.metric + p.step)
                && r == Route(n, sender, iface, e.metric + p.step, now)
  }

  /** No route is lost or worsened. */
  /** The two protocols in plain terms: the 16-bit field of a RIP frame, and which offers are taken. */
  lemma ProtocolsMeaning(t: Table, e: Entry)
    ensures WireMetric(RIP, e.metric) == e.metric % 65_536 && WireMetric(EIGRP, e.metric) == e.metric
    ensures Accepts(RIP, t, e) <==> e.metric + 1 < 16 && (e.network in t ==> e.metric + 1 < t[e.network].metric)
    ensures Accepts(EIGRP, t, e) <==> (e.network in t ==> e.metric + 100_000 < t[e.network].metric)
  {}

  ghost predicate TableLeq(t: Table, t': Table) {
    forall n :: n in t ==> n in t' && t'[n].metric <= t[n].metric
  }

  /** The entry for `n` is the old one, or comes from the update and is strictly better. */
  ghost predicate Explained(p: Protocol, t: Table, t': Table, entries: seq<Entry>, sender: IPAddress, iface: PortId, now: int, n: Cidr)
    requires n in t'
  {
    (n in t && t'[n] == t[n])
    || (CameFrom(p, entries, sender, iface, now, n, t'[n]) && (n in t ==> t'[n].metric < t[n].metric))
  }

  /** What an update means, network by network: the minimum of the old metric and the offers. */
  lemma {:induction false} LearnMeaning(p: Protocol, t: Table, entries: seq<Entry>, sender: IPAddress, iface: PortId, now: int)
    ensures var t' := Learn(p, t, entries, sender, iface, now);
            && TableLeq(t, t')
            && (forall n :: n in t' ==> Explained(p, t, t', entries, sender, iface, now, n))
            && (forall e :: e in entries && InRange(p, e.metric + p.step) ==>
                  e.network in t' && t'[e.network].metric <= e.metric + p.step)
    decreases |entries|
  {
    if entries != [] {
      var front := entries[..|entries| - 1];
      var e := entries[|entries| - 1];
      LearnMeaning(p, t, front, sender, iface, now);
      var before := Learn(p, t, front, sender, iface, now);
      var t' := Learn(p, t, entries, sender, iface, now);
      assert e in entries && forall x :: x in front ==> x in entries;
      forall n | n in t' ensures Explained(p, t, t', entries, sender, iface, now, n) {
        if !(Accepts(p, before, e) && n == e.network) {
          assert Explained(p, t, before, front, sender, iface, now, n);
        }
      }
      assert forall x :: x in entries ==> x in front || x == e;
    }
  }

  ghost predicate Keyed(t: Table) {
    forall n :: n in t ==> t[n].network == n
  }

  lemma {:induction false} LearnKeepsKeyed(p: Protocol, t: Table, entries: seq<Entry>, sender: IPAddress, iface: PortId, now: int)
    requires Keyed(t)
    ensures Keyed(Learn(p, t, entries, sender, iface, now))
    decreases |entries|
  {
    if entries != [] {
      LearnKeepsKeyed(p, t, entries[..|entries| - 1], sender, iface, now);
    }
  }

  // ---------------------------------------------------------------- the network

  ghost predicate Connected(net: Net, r: RouterId, n: Cidr) {
    r in net.connected && n in net.connected[r]
  }

  /** Some chain of exactly `j` feeds leads from a router connected to `n` to `r`. */
  ghost predicate Walk(net: Net, r: RouterId, n: Cidr, j: nat)
    decreases j
  {
    if j == 0 then Connected(net, r, n)
    else exists f :: f in net.feeds && f.receiver == r && Walk(net, f.sender, n, j - 1)
  }

  /** The metric of a network `j` feeds away: base + j * step. */
  function MetricOf(p: Protocol, j: nat): (m: nat)
    ensures m >= p.base
  {
    if j == 0 then p.base else MetricOf(p, j - 1) + p.step
  }

  /** Feeds join routers of the database, and a port hears one sender only. */
  ghost predicate WellFormed(net: Net, db: Db) {
    && (forall f :: f in net.feeds ==> f.sender in db && f.receiver in db)
    && (forall f, g :: f in net.feeds && g in net.feeds && f.receiver == g.receiver && f.port == g.port ==> f == g)
  }

  /** The next hop of a route is connected to the network or holds a metric lower by a step. */
  ghost predicate Backed(p: Protocol, net: Net, db: Db, f: Feed, r: RouterId, rt: Route) {
    && f.receiver == r && f.port == rt.iface && f.addr == rt.nextHop
    && (Connected(net, f.sender, rt.network)
        || (f.sender in db && rt.network in db[f.sender]
            && db[f.sender][rt.network].metric + p.step <= rt.metric))
  }

  ghost predicate HasWalk(p: Protocol, net: Net, r: RouterId, n: Cidr, metric: int) {
    exists j: nat :: j >= 1 && metric == MetricOf(p, j) && Walk(net, r, n, j)
  }

  ghost predicate SoundRoute(p: Protocol, net: Net, db: Db, r: RouterId, n: Cidr, rt: Route) {
    && rt.network == n
    && InRange(p, rt.metric)
    && HasWalk(p, net, r, n, rt.metric)
    && exists f :: f in net.feeds && Backed(p, net, db, f, r, rt)
  }

  ghost predicate Sound(p: Protocol, net: Net, db: Db) {
    && WellFormed(net, db)
    && forall r, n :: r in db && n in db[r] ==> SoundRoute(p, net, db, r, n, db[r][n])
  }

  /** An advertised entry: true to some metric the sender had now or earlier. */
  ghost predicate HonestEntry(p: Protocol, net: Net, db: Db, q: RouterId, e: Entry) {
    && InRange(p, e.metric)
    && (exists i: nat :: e.metric == MetricOf(p, i) && Walk(net, q, e.network, i))
    && (Connected(net, q, e.network)
        || (q in db && e.network in db[q] && db[q][e.network].metric <= e.metric))
  }

  ghost predicate Honest(p: Protocol, net: Net, db: Db, q: RouterId, entries: seq<Entry>) {
    forall e :: e in entries ==> HonestEntry(p, net, db, q, e)
  }

  lemma {:induction false} NarrowSurvivesWire(p: Protocol, entries: seq<Entry>)
    requires forall e :: e in entries ==> WireMetric(p, e.metric) == e.metric
    ensures OnWire(p, entries) == entries
  {
    if entries != [] {
      assert forall e :: e in entries[1..] ==> e in entries;
      NarrowSurvivesWire(p, entries[1..]);
    }
  }

  /** An honest update is never truncated. */
  lemma HonestSurvivesWire(p: Protocol, net: Net, db: Db, q: RouterId, entries: seq<Entry>)
    requires Sane(p) && Honest(p, net, db, q, entries)
    ensures OnWire(p, entries) == entries
  {
    forall e | e in entries ensures WireMetric(p, e.metric) == e.metric {
      assert HonestEntry(p, net, db, q, e) && 0 <= e.metric;
    }
    NarrowSurvivesWire(p, entries);
  }

  ghost predicate DbLeq(db: Db, db': Db) {
    && db.Keys == db'.Keys
    && forall r :: r in db ==> TableLeq(db[r], db'[r])
  }

  lemma DbLeqTransitive(a: Db, b: Db, c: Db)
    requires DbLeq(a, b) && DbLeq(b, c)
    ensures DbLeq(a, c)
  {
    forall r | r in a ensures TableLeq(a[r], c[r]) {
      assert TableLeq(a[r], b[r]) && TableLeq(b[r], c[r]);
    }
  }

  /** An update assembled earlier stays honest while the sender's own metrics improve. */
  lemma HonestPersists(p: Protocol, net: Net, db: Db, db': Db, q: RouterId, entries: seq<Entry>)
    requires Honest(p, net, db, q, entries) && DbLeq(db, db')
    ensures Honest(p, net, db', q, entries)
  {
    forall e | e in entries ensures HonestEntry(p, net, db', q, e) {
      assert HonestEntry(p, net, db, q, e);
      if !Connected(net, q, e.network) {
        assert TableLeq(db[q], db'[q]);
      }
    }
  }

  function Deliver(p: Protocol, db: Db, f: Feed, entries: seq<Entry>, now: int): Db
    requires f.receiver in db
  {
    db[f.receiver := Learn(p, db[f.receiver], entries, f.addr, f.port, now)]
  }

  lemma DeliverMonotone(p: Protocol, db: Db, f: Feed, entries: seq<Entry>, now: int)
    requires f.receiver in db
    ensures DbLeq(db, Deliver(p, db, f, entries, now))
  {
    LearnMeaning(p, db[f.receiver], entries, f.addr, f.port, now);
    var db' := Deliver(p, db, f, entries, now);
    forall r | r in db ensures TableLeq(db[r], db'[r]) {}
  }

  /** A sound route stays sound when metrics improve elsewhere. */
  lemma SoundPersists(p: Protocol, net: Net, db: Db, db': Db, r: RouterId, n: Cidr, rt: Route)
    requires SoundRoute(p, net, db, r, n, rt) && DbLeq(db, db')
    ensures SoundRoute(p, net, db', r, n, rt)
  {
    var f :| f in net.feeds && Backed(p, net, db, f, r, rt);
    if !Connected(net, f.sender, rt.network) {
      assert TableLeq(db[f.sender], db'[f.sender]);
    }
    assert Backed(p, net, db', f, r, rt);
  }

  lemma WalkExtends(net: Net, f: Feed, n: Cidr, i: nat)
    requires f in net.feeds && Walk(net, f.sender, n, i)
    ensures Walk(net, f.receiver, n, i + 1)
  {}

  /** The route an honest entry produces is sound. */
  lemma FreshRouteSound(p: Protocol, net: Net, db: Db, f: Feed, e: Entry, now: int)
    requires f in net.feeds && HonestEntry(p, net, db, f.sender, e) && InRange(p, e.metric + p.step)
    ensures SoundRoute(p, net, db, f.receiver, e.network, Route(e.network, f.addr, f.port, e.metric + p.step, now))
  {
    var rt := Route(e.network, f.addr, f.port, e.metric + p.step, now);
    var i: nat :| e.metric == MetricOf(p, i) && Walk(net, f.sender, e.network, i);
    WalkExtends(net, f, e.network, i);
    assert rt.metric == MetricOf(p, i + 1);
    assert Backed(p, net, db, f, f.receiver, rt);
  }

  /** Every single delivery of an honest update keeps the invariant: the safety step. */
  lemma DeliverSound(p: Protocol, net: Net, db: Db, f: Feed, entries: seq<Entry>, now: int)
    requires Sound(p, net, db) && f in net.feeds && f.receiver in db
    requires Honest(p, net, db, f.sender, entries)
    ensures Sound(p, net, Deliver(p, db, f, entries, now))
  {
    var db' := Deliver(p, db, f, entries, now);
    DeliverMonotone(p, db, f, entries, now);
    forall r, n | r in db' && n in db'[r]
      ensures SoundRoute(p, net, db', r, n, db'[r][n])
    {
      DeliveredRouteSound(p, net, db, f, entries, now, r, n);
    }
  }

  lemma DeliveredRouteSound(p: Protocol, net: Net, db: Db, f: Feed, entries: seq<Entry>, now: int, r: RouterId, n: Cidr)
    requires f in net.feeds && f.receiver in db && Honest(p, net, db, f.sender, entries)
    requires forall m :: r in db && m in db[r] ==> SoundRoute(p, net, db, r, m, db[r][m])
    requires r in db && n in Deliver(p, db, f, entries, now)[r]
    ensures SoundRoute(p, net, Deliver(p, db, f, entries, now), r, n, Deliver(p, db, f, entries, now)[r][n])
  {
    var db' := Deliver(p, db, f, entries, now);
    DeliverMonotone(p, db, f, entries, now);
    var rt := db'[r][n];
    if !(n in db[r] && rt == db[r][n]) {
      LearnMeaning(p, db[r], entries, f.addr, f.port, now);
      assert Explained(p, db[r], db'[r], entries, f.addr, f.port, now, n);
      var e :| e in entries && e.network == n && InRange(p, e.metric + p.step)
               && rt == Route(n, f.addr, f.port, e.metric + p.step, now);
      assert HonestEntry(p, net, db, f.sender, e);
      FreshRouteSound(p, net, db, f, e, now);
    }
    SoundPersists(p, net, db, db', r, n, rt);
  }

  /** Sound states carry routes: on one cable, the first delivery of a connected network is learned. */
  lemma FirstRouteIsSound(p: Protocol, f: Feed, n: Cidr, now: int)
    requires Sane(p) && f.sender != f.receiver && InRange(p, p.base + p.step)
    ensures var net := Net(map[f.sender := {n}, f.receiver := {}], iset{f});
            var db := Deliver(p, map[f.sender := map[], f.receiver := map[]], f, [Entry(n, p.base)], now);
            Sound(p, net, db) && n in db[f.receiver] && db[f.receiver][n].metric == p.base + p.step
  {
    var net := Net(map[f.sender := {n}, f.receiver := {}], iset{f});
    var start: Db, update := map[f.sender := map[], f.receiver := map[]], [Entry(n, p.base)];
    assert Walk(net, f.sender, n, 0) && MetricOf(p, 0) == p.base;
    assert Honest(p, net, start, f.sender, update);
    DeliverSound(p, net, start, f, update, now);
    LearnMeaning(p, start[f.receiver], update, f.addr, f.port, now);
    assert update[..0] == [] && Learn(p, map[], [], f.addr, f.port, now) == map[];
  }

  // ---------------------------------------------------------------- loop freedom

  /** Following next hops for `n`: every router but the last forwards to the following one. */
  ghost predicate ForwardingPath(net: Net, db: Db, n: Cidr, path: seq<RouterId>) {
    && path != []
    && forall i :: 0 <= i < |path| - 1 ==> Hop(net, db, n, path[i], path[i + 1])
  }

  /** `q` is the far end of the port of `r`'s route; a connected router delivers locally. */
  ghost predicate Hop(net: Net, db: Db, n: Cidr, r: RouterId, q: RouterId) {
    && !Connected(net, r, n) && r in db && n in db[r]
    && exists f :: f in net.feeds && f.receiver == r && f.port == db[r][n].iface && f.sender == q
  }

  /** The height that decreases along next hops: zero where the network is connected. */
  ghost function Height(p: Protocol, net: Net, db: Db, n: Cidr, r: RouterId): int
    requires Connected(net, r, n) || (r in db && n in db[r])
  {
    if Connected(net, r, n) then p.base else db[r][n].metric
  }

  /** Next hops lead somewhere, and downwards. */
  lemma HopDescends(p: Protocol, net: Net, db: Db, n: Cidr, r: RouterId, q: RouterId)
    requires Sound(p, net, db) && Hop(net, db, n, r, q)
    ensures Connected(net, q, n) || (q in db && n in db[q])
    ensures Height(p, net, db, n, q) + p.step <= Height(p, net, db, n, r)
  {
    var rt := db[r][n];
    assert SoundRoute(p, net, db, r, n, rt);
    var g :| g in net.feeds && Backed(p, net, db, g, r, rt);
    assert g.sender == q;
    var j: nat :| j >= 1 && rt.metric == MetricOf(p, j) && Walk(net, r, n, j);
    assert MetricOf(p, j) >= p.base + p.step;
  }

  lemma {:induction false} PathDescends(p: Protocol, net: Net, db: Db, n: Cidr, path: seq<RouterId>, i: nat, k: nat)
    requires Sound(p, net, db) && ForwardingPath(net, db, n, path)
    requires i <= k < |path| && p.step >= 1
    requires Connected(net, path[i], n) || (path[i] in db && n in db[path[i]])
    ensures Connected(net, path[k], n) || (path[k] in db && n in db[path[k]])
    ensures Height(p, net, db, n, path[k]) + (k - i) <= Height(p, net, db, n, path[i])
    decreases k - i
  {
    if i < k {
      PathDescends(p, net, db, n, path, i, k - 1);
      assert Hop(net, db, n, path[k - 1], path[k - 1 + 1]);
      HopDescends(p, net, db, n, path[k - 1], path[k]);
    }
  }

  /** Loop freedom: in any sound state a chain of next hops visits no router twice. */
  lemma NoRevisit(p: Protocol, net: Net, db: Db, n: Cidr, path: seq<RouterId>, i: nat, k: nat)
    requires Sound(p, net, db) && ForwardingPath(net, db, n, path) && p.step >= 1
    requires i < k < |path|
    ensures path[i] != path[k]
  {
    assert Hop(net, db, n, path[i], path[i + 1]);
    PathDescends(p, net, db, n, path, i, k);
  }

  /** A chain from a router with a route can be continued until it reaches a connected router. */
  lemma Progress(p: Protocol, net: Net, db: Db, n: Cidr, r: RouterId)
    requires Sound(p, net, db) && r in db && n in db[r] && !Connected(net, r, n)
    ensures exists q :: Hop(net, db, n, r, q) && (Connected(net, q, n) || (q in db && n in db[q]))
  {
    var rt := db[r][n];
    assert SoundRoute(p, net, db, r, n, rt);
    var g :| g in net.feeds && Backed(p, net, db, g, r, rt);
    assert Hop(net, db, n, r, g.sender);
  }

  /** Every router with a route reaches the network: the chain ends at a connected router. */
  lemma {:induction false} Arrives(p: Protocol, net: Net, db: Db, n: Cidr, r: RouterId) returns (path: seq<RouterId>)
    requires Sound(p, net, db) && p.step >= 1
    requires Connected(net, r, n) || (r in db && n in db[r])
    ensures ForwardingPath(net, db, n, path) && path[0] == r && Connected(net, path[|path| - 1], n)
    ensures |path| <= Height(p, net, db, n, r) - p.base + 1
    decreases Height(p, net, db, n, r) - p.base
  {
    if Connected(net, r, n) {
      path := [r];
    } else {
      Progress(p, net, db, n, r);
      var q :| Hop(net, db, n, r, q) && (Connected(net, q, n) || (q in db && n in db[q]));
      HopDescends(p, net, db, n, r, q);
      RouteAboveBase(p, net, db, n, r);
      RouteAboveBase(p, net, db, n, q);
      var rest := Arrives(p, net, db, n, q);
      PathGrows(net, db, n, r, rest);
      path := [r] + rest;
    }
  }

  lemma PathGrows(net: Net, db: Db, n: Cidr, r: RouterId, rest: seq<RouterId>)
    requires ForwardingPath(net, db, n, rest) && Hop(net, db, n, r, rest[0])
    ensures ForwardingPath(net, db, n, [r] + rest) && ([r] + rest)[|rest|] == rest[|rest| - 1]
  {
    var path := [r] + rest;
    forall i | 0 <= i < |path| - 1 ensures Hop(net, db, n, path[i], path[i + 1]) {
      if i > 0 {
        assert Hop(net, db, n, rest[i - 1], rest[i - 1 + 1]);
      }
    }
  }

  lemma RouteAboveBase(p: Protocol, net: Net, db: Db, n: Cidr, r: RouterId)
    requires Sound(p, net, db)
    requires Connected(net, r, n) || (r in db && n in db[r])
    ensures Height(p, net, db, n, r) >= p.base
  {
    if !Connected(net, r, n) {
      assert SoundRoute(p, net, db, r, n, db[r][n]);
    }
  }

  // ---------------------------------------------------------------- convergence

  /** `q` advertises `n` at metric `m`: its connected base, or its learned route. */
  ghost predicate Advertises(p: Protocol, net: Net, db: Db, q: RouterId, n: Cidr, m: int) {
    (Connected(net, q, n) && m == p.base) || (q in db && n in db[q] && m == db[q][n].metric)
  }

  /** What a whole update cycle achieves, whatever the order of its turns: over every feed,
      the receiver ends at most one step above anything the sender advertised at the start. */
  ghost predicate Cycled(p: Protocol, net: Net, db: Db, db': Db) {
    && DbLeq(db, db')
    && forall f, n, m :: f in net.feeds && Advertises(p, net, db, f.sender, n, m) && InRange(p, m + p.step) ==>
         Holds(db', f.receiver, n, m + p.step)
  }

  ghost predicate Holds(db: Db, r: RouterId, n: Cidr, bound: int) {
    r in db && n in db[r] && db[r][n].metric <= bound
  }

  /** Successive states, each a whole update cycle after the one before. */
  ghost predicate Cycles(p: Protocol, net: Net, run: seq<Db>) {
    forall k :: 0 <= k < |run| - 1 ==> Cycled(p, net, run[k], run[k + 1])
  }

  lemma CycleStep(p: Protocol, net: Net, db: Db, db': Db, f: Feed, n: Cidr, j: nat)
    requires Cycled(p, net, db, db') && f in net.feeds && InRange(p, MetricOf(p, j + 1))
    requires if j == 0 then Connected(net, f.sender, n) else Holds(db, f.sender, n, MetricOf(p, j))
    ensures Holds(db', f.receiver, n, MetricOf(p, j + 1))
  {
    var m := if j == 0 then p.base else db[f.sender][n].metric;
    assert Advertises(p, net, db, f.sender, n, m);
    assert Holds(db', f.receiver, n, m + p.step);
  }

  lemma {:induction false} UpperBound(p: Protocol, net: Net, run: seq<Db>, k: nat, r: RouterId, n: Cidr, j: nat)
    requires Cycles(p, net, run) && 1 <= j <= k < |run|
    requires Walk(net, r, n, j) && InRange(p, MetricOf(p, j))
    ensures Holds(run[k], r, n, MetricOf(p, j))
    decreases k
  {
    var f :| f in net.feeds && f.receiver == r && Walk(net, f.sender, n, j - 1);
    assert Cycled(p, net, run[k - 1], run[k - 1 + 1]);
    if j > 1 {
      UpperBound(p, net, run, k - 1, f.sender, n, j - 1);
    }
    CycleStep(p, net, run[k - 1], run[k], f, n, j - 1);
  }

  /** The update mentions everything `q` advertised in `db`, at no worse a metric. */
  ghost predicate Complete(p: Protocol, net: Net, db: Db, q: RouterId, entries: seq<Entry>) {
    forall n, m :: Advertises(p, net, db, q, n, m) ==> Mentions(entries, n, m)
  }

  ghost predicate Mentions(entries: seq<Entry>, n: Cidr, m: int) {
    exists e :: e in entries && e.network == n && e.metric <= m
  }

  /** The receiver of `f` has profited from everything the sender advertised in `start`. */
  ghost predicate Fed(p: Protocol, net: Net, start: Db, db: Db, f: Feed) {
    forall n, m :: Advertises(p, net, start, f.sender, n, m) && InRange(p, m + p.step) ==>
      Holds(db, f.receiver, n, m + p.step)
  }

  lemma FedPersists(p: Protocol, net: Net, start: Db, db: Db, db': Db, f: Feed)
    requires Fed(p, net, start, db, f) && DbLeq(db, db')
    ensures Fed(p, net, start, db', f)
  {
    forall n, m | Advertises(p, net, start, f.sender, n, m) && InRange(p, m + p.step)
      ensures Holds(db', f.receiver, n, m + p.step)
    {
      assert Holds(db, f.receiver, n, m + p.step);
      assert TableLeq(db[f.receiver], db'[f.receiver]);
    }
  }

  /** Delivering a complete update over a feed feeds it. */
  lemma DeliverFeeds(p: Protocol, net: Net, start: Db, db: Db, f: Feed, entries: seq<Entry>, now: int)
    requires f.receiver in db && Complete(p, net, start, f.sender, entries)
    ensures Fed(p, net, start, Deliver(p, db, f, entries, now), f)
  {
    LearnMeaning(p, db[f.receiver], entries, f.addr, f.port, now);
    forall n, m | Advertises(p, net, start, f.sender, n, m) && InRange(p, m + p.step)
      ensures Holds(Deliver(p, db, f, entries, now), f.receiver, n, m + p.step)
    {
      assert Mentions(entries, n, m);
      var e :| e in entries && e.network == n && e.metric <= m;
      assert InRange(p, e.metric + p.step);
    }
  }

  lemma AllFedIsCycled(p: Protocol, net: Net, db: Db, db': Db)
    requires DbLeq(db, db') && forall f :: f in net.feeds ==> Fed(p, net, db, db', f)
    ensures Cycled(p, net, db, db')
  {
    forall f, n, m | f in net.feeds && Advertises(p, net, db, f.sender, n, m) && InRange(p, m + p.step)
      ensures Holds(db', f.receiver, n, m + p.step)
    {
      assert Fed(p, net, db, db', f);
    }
  }

  /** An update listing the connected networks at the base metric and every learned route. */
  ghost predicate IsAdvertisement(p: Protocol, nets: set<Cidr>, t: Table, entries: seq<Entry>) {
    && (forall n :: n in nets ==> Entry(n, p.base) in entries)
    && (forall n :: n in t ==> Entry(n, t[n].metric) in entries)
    && (forall e :: e in entries ==> (e.network in nets && e.metric == p.base)
                                     || (e.network in t && e.metric == t[e.network].metric))
  }

  /** Such an update is honest, and complete for this and every earlier state of the run. */
  lemma AdvertisementIsHonest(p: Protocol, net: Net, start: Db, db: Db, q: RouterId, entries: seq<Entry>)
    requires Sound(p, net, db) && DbLeq(start, db) && InRange(p, p.base)
    requires q in db && q in net.connected && IsAdvertisement(p, net.connected[q], db[q], entries)
    ensures Honest(p, net, db, q, entries) && Complete(p, net, start, q, entries)
  {
    forall e | e in entries ensures HonestEntry(p, net, db, q, e) {
      if e.network in net.connected[q] && e.metric == p.base {
        assert Walk(net, q, e.network, 0) && e.metric == MetricOf(p, 0);
      } else {
        assert SoundRoute(p, net, db, q, e.network, db[q][e.network]);
      }
    }
    forall n, m | Advertises(p, net, start, q, n, m) ensures Mentions(entries, n, m) {
      if Connected(net, q, n) && m == p.base {
        assert Entry(n, p.base) in entries;
      } else {
        assert TableLeq(start[q], db[q]);
        assert Entry(n, db[q][n].metric) in entries;
      }
    }
  }

  /** Networks reachable by a walk are networks somebody is connected to. */
  lemma {:induction false} WalkStartsConnected(net: Net, r: RouterId, n: Cidr, j: nat)
    requires Walk(net, r, n, j)
    ensures exists q :: Connected(net, q, n)
    decreases j
  {
    if j > 0 {
      var f :| f in net.feeds && f.receiver == r && Walk(net, f.sender, n, j - 1);
      WalkStartsConnected(net, f.sender, n, j - 1);
    } else {
      assert Connected(net, r, n);
    }
  }

  ghost predicate CanonicalNets(net: Net) {
    forall q, n :: Connected(net, q, n) ==> Canonical(n)
  }

  lemma SoundTablesAreCanonical(p: Protocol, net: Net, db: Db, r: RouterId, n: Cidr)
    requires Sound(p, net, db) && CanonicalNets(net) && r in db && n in db[r]
    ensures Canonical(n)
  {
    assert SoundRoute(p, net, db, r, n, db[r][n]);
    var j: nat :| j >= 1 && db[r][n].metric == MetricOf(p, j) && Walk(net, r, n, j);
    WalkStartsConnected(net, r, n, j);
  }

  /** `j` is the least positive number of feeds from a router connected to `n` to `r`. */
  ghost predicate Shortest(net: Net, r: RouterId, n: Cidr, j: nat) {
    j >= 1 && Walk(net, r, n, j) && forall i: nat :: 1 <= i < j ==> !Walk(net, r, n, i)
  }

  lemma {:induction false} MetricMonotone(p: Protocol, i: nat, j: nat)
    requires i <= j
    ensures MetricOf(p, i) <= MetricOf(p, j)
    decreases j
  {
    if i < j {
      MetricMonotone(p, i, j - 1);
    }
  }

  /** A sound route is never better than the shortest walk. */
  lemma LowerBound(p: Protocol, net: Net, db: Db, r: RouterId, n: Cidr, j: nat)
    requires Sound(p, net, db) && r in db && n in db[r] && Shortest(net, r, n, j)
    ensures MetricOf(p, j) <= db[r][n].metric
  {
    assert SoundRoute(p, net, db, r, n, db[r][n]);
    var i: nat :| i >= 1 && db[r][n].metric == MetricOf(p, i) && Walk(net, r, n, i);
    MetricMonotone(p, j, i);
  }

  /** Convergence: after k cycles every router at distance j <= k holds exactly the true metric. */
  lemma Convergence(p: Protocol, net: Net, run: seq<Db>, k: nat, r: RouterId, n: Cidr, j: nat)
    requires Cycles(p, net, run) && j <= k < |run| && Sound(p, net, run[k])
    requires Shortest(net, r, n, j) && InRange(p, MetricOf(p, j))
    ensures r in run[k] && n in run[k][r] && run[k][r][n].metric == MetricOf(p, j)
  {
    UpperBound(p, net, run, k, r, n, j);
    LowerBound(p, net, run[k], r, n, j);
  }

  /** No offer the network can make improves any table. */
  ghost predicate Converged(p: Protocol, net: Net, db: Db) {
    forall r, n, j: nat :: j >= 1 && Walk(net, r, n, j) && InRange(p, MetricOf(p, j)) ==> Holds(db, r, n, MetricOf(p, j))
  }

  lemma {:induction false} RipMetric(j: nat)
    ensures MetricOf(RIP, j) == 1 + j
  {
    if j > 0 {
      RipMetric(j - 1);
    }
  }

  lemma {:induction false} EigrpMetric(j: nat)
    ensures MetricOf(EIGRP, j) == 100 + 100_000 * j
  {
    if j > 0 {
      EigrpMetric(j - 1);
    }
  }

  /** Fourteen RIP cycles suffice, on any network. */
  lemma RipConvergedAfter14(net: Net, run: seq<Db>, k: nat)
    requires Cycles(RIP, net, run) && 14 <= k < |run|
    ensures Converged(RIP, net, run[k])
  {
    forall r, n, j: nat | j >= 1 && Walk(net, r, n, j) && InRange(RIP, MetricOf(RIP, j))
      ensures Holds(run[k], r, n, MetricOf(RIP, j))
    {
      RipMetric(j);
      UpperBound(RIP, net, run, k, r, n, j);
    }
  }

  lemma RouteHasWalk(net: Net, db: Db, r: RouterId, n: Cidr) returns (j: nat)
    requires Sound(RIP, net, db) && r in db && n in db[r]
    ensures 1 <= j <= 14 && Walk(net, r, n, j) && db[r][n].metric == 1 + j
  {
    assert SoundRoute(RIP, net, db, r, n, db[r][n]);
    j :| j >= 1 && db[r][n].metric == MetricOf(RIP, j) && Walk(net, r, n, j);
    RipMetric(j);
  }

  /** RIP metrics lie in 2..15, so a packet crosses at most 14 links. */
  lemma RipMetricRange(net: Net, db: Db, r: RouterId, n: Cidr)
    requires Sound(RIP, net, db) && r in db && n in db[r]
    ensures 2 <= db[r][n].metric <= 15
  {
    var j := RouteHasWalk(net, db, r, n);
  }

  ghost predicate WithinRipReach(net: Net, r: RouterId, n: Cidr) {
    exists j: nat :: 1 <= j <= 14 && Walk(net, r, n, j)
  }

  lemma RouteOnlyWithinReach(net: Net, db: Db, r: RouterId, n: Cidr)
    requires Sound(RIP, net, db) && r in db && n in db[r]
    ensures WithinRipReach(net, r, n)
  {
    var j := RouteHasWalk(net, db, r, n);
  }

  lemma ReachHasRoute(net: Net, db: Db, r: RouterId, n: Cidr)
    requires Converged(RIP, net, db) && WithinRipReach(net, r, n)
    ensures r in db && n in db[r]
  {
    var j: nat :| 1 <= j <= 14 && Walk(net, r, n, j);
    RipMetric(j);
    assert Holds(db, r, n, MetricOf(RIP, j));
  }

  /** Once converged a router has a RIP route exactly when the network is 1 to 14 feeds away. */
  lemma RipReachability(net: Net, db: Db, r: RouterId, n: Cidr)
    requires Converged(RIP, net, db) && Sound(RIP, net, db)
    ensures (r in db && n in db[r]) <==> WithinRipReach(net, r, n)
  {
    if r in db && n in db[r] {
      RouteOnlyWithinReach(net, db, r, n);
    } else if WithinRipReach(net, r, n) {
      ReachHasRoute(net, db, r, n);
    }
  }

  /** In a converged state an honest update changes nothing: not one route is replaced. */
  lemma {:induction false} ConvergedIsStable(p: Protocol, net: Net, db: Db, f: Feed, entries: seq<Entry>, now: int)
    requires Converged(p, net, db) && f in net.feeds && f.receiver in db
    requires Honest(p, net, db, f.sender, entries)
    ensures Learn(p, db[f.receiver], entries, f.addr, f.port, now) == db[f.receiver]
    decreases |entries|
  {
    if entries != [] {
      var front := entries[..|entries| - 1];
      var e := entries[|entries| - 1];
      assert forall x :: x in front ==> x in entries;
      ConvergedIsStable(p, net, db, f, front, now);
      assert HonestEntry(p, net, db, f.sender, e);
      var i: nat :| e.metric == MetricOf(p, i) && Walk(net, f.sender, e.network, i);
      WalkExtends(net, f, e.network, i);
      assert MetricOf(p, i + 1) == e.metric + p.step;
      if InRange(p, e.metric + p.step) {
        assert Holds(db, f.receiver, e.network, MetricOf(p, i + 1));
      }
    }
  }

  // ---------------------------------------------------------------- traces

  /** A history of deliveries, in any order and interleaving. */
  datatype Trace = Begin(db: Db) | Then(past: Trace, f: Feed, entries: seq<Entry>, now: int)

  function Origin(tr: Trace): Db {
    match tr
    case Begin(db) => db
    case Then(past, _, _, _) => Origin(past)
  }

  function After(p: Protocol, tr: Trace): Db {
    match tr
    case Begin(db) => db
    case Then(past, f, entries, now) =>
      var db := After(p, past);
      if f.receiver in db then Deliver(p, db, f, OnWire(p, entries), now) else db
  }

  /** The entries are what `q` had to advertise at some moment of the trace. */
  ghost predicate WasAdvertised(p: Protocol, net: Net, tr: Trace, q: RouterId, entries: seq<Entry>) {
    || (q in net.connected && q in After(p, tr) && IsAdvertisement(p, net.connected[q], After(p, tr)[q], entries))
    || (tr.Then? && WasAdvertised(p, net, tr.past, q, entries))
  }

  /** Every delivery travels over a feed and carries a present or past advertisement of its sender. */
  ghost predicate Legal(p: Protocol, net: Net, tr: Trace) {
    match tr
    case Begin(_) => true
    case Then(past, f, entries, _) =>
      Legal(p, net, past) && f in net.feeds && f.receiver in After(p, past) && WasAdvertised(p, net, past, f.sender, entries)
  }

  predicate Uses(tr: Trace, f: Feed) {
    tr.Then? && (tr.f == f || Uses(tr.past, f))
  }

  /** The trace goes on from an earlier one. */
  ghost predicate Extends(tr: Trace, past: Trace) {
    tr == past || (tr.Then? && Extends(tr.past, past))
  }

  lemma {:induction false} ExtensionKeeps(p: Protocol, net: Net, tr: Trace, past: Trace)
    requires Extends(tr, past)
    ensures Origin(tr) == Origin(past)
    ensures forall f :: Uses(past, f) ==> Uses(tr, f)
    ensures forall q, entries :: WasAdvertised(p, net, past, q, entries) ==> WasAdvertised(p, net, tr, q, entries)
    ensures forall older :: Extends(past, older) ==> Extends(tr, older)
  {
    if tr != past {
      ExtensionKeeps(p, net, tr.past, past);
    }
  }

  /** What was advertised at some moment is still honest, and complete for the origin. */
  lemma {:induction false} AdvertisedIsHonest(p: Protocol, net: Net, tr: Trace, q: RouterId, entries: seq<Entry>)
    requires Sane(p) && Sound(p, net, Origin(tr)) && Legal(p, net, tr) && WasAdvertised(p, net, tr, q, entries)
    ensures Honest(p, net, After(p, tr), q, entries) && Complete(p, net, Origin(tr), q, entries)
    decreases tr, 1
  {
    LegalIsSound(p, net, tr);
    if q in net.connected && q in After(p, tr) && IsAdvertisement(p, net.connected[q], After(p, tr)[q], entries) {
      AdvertisementIsHonest(p, net, Origin(tr), After(p, tr), q, entries);
    } else {
      AdvertisedIsHonest(p, net, tr.past, q, entries);
      DeliverMonotone(p, After(p, tr.past), tr.f, OnWire(p, tr.entries), tr.now);
      HonestPersists(p, net, After(p, tr.past), After(p, tr), q, entries);
    }
  }

  /** Safety over whole runs: every state of every legal trace is sound, and never worse. */
  lemma {:induction false} LegalIsSound(p: Protocol, net: Net, tr: Trace)
    requires Sane(p) && Sound(p, net, Origin(tr)) && Legal(p, net, tr)
    ensures Sound(p, net, After(p, tr)) && DbLeq(Origin(tr), After(p, tr))
    decreases tr, 0
  {
    if tr.Then? {
      LegalIsSound(p, net, tr.past);
      AdvertisedIsHonest(p, net, tr.past, tr.f.sender, tr.entries);
      HonestSurvivesWire(p, net, After(p, tr.past), tr.f.sender, tr.entries);
      DeliverSound(p, net, After(p, tr.past), tr.f, tr.entries, tr.now);
      DeliverMonotone(p, After(p, tr.past), tr.f, tr.entries, tr.now);
      DbLeqTransitive(Origin(tr), After(p, tr.past), After(p, tr));
    }
  }

  /** A feed used anywhere in a legal trace is fed at its end. */
  lemma {:induction false} UsedIsFed(p: Protocol, net: Net, tr: Trace, f: Feed)
    requires Sane(p) && Sound(p, net, Origin(tr)) && Legal(p, net, tr) && Uses(tr, f)
    ensures Fed(p, net, Origin(tr), After(p, tr), f)
  {
    AdvertisedIsHonest(p, net, tr.past, tr.f.sender, tr.entries);
    HonestSurvivesWire(p, net, After(p, tr.past), tr.f.sender, tr.entries);
    if tr.f == f {
      DeliverFeeds(p, net, Origin(tr), After(p, tr.past), f, tr.entries, tr.now);
    } else {
      UsedIsFed(p, net, tr.past, f);
      DeliverMonotone(p, After(p, tr.past), tr.f, tr.entries, tr.now);
      FedPersists(p, net, Origin(tr), After(p, tr.past), After(p, tr), f);
    }
  }

  /** A legal trace that uses every feed at least once is an update cycle. */
  lemma FullTraceIsCycle(p: Protocol, net: Net, tr: Trace)
    requires Sane(p) && Sound(p, net, Origin(tr)) && Legal(p, net, tr)
    requires forall f :: f in net.feeds ==> Uses(tr, f)
    ensures Sound(p, net, After(p, tr)) && Cycled(p, net, Origin(tr), After(p, tr))
  {
    LegalIsSound(p, net, tr);
    forall f | f in net.feeds ensures Fed(p, net, Origin(tr), After(p, tr), f) {
      UsedIsFed(p, net, tr, f);
    }
    AllFedIsCycled(p, net, Origin(tr), After(p, tr));
  }

  /** From a converged state no legal trace changes a single route. */
  lemma {:induction false} ConvergedStays(p: Protocol, net: Net, tr: Trace)
    requires Sane(p) && Sound(p, net, Origin(tr)) && Legal(p, net, tr) && Converged(p, net, Origin(tr))
    ensures After(p, tr) == Origin(tr)
  {
    if tr.Then? {
      ConvergedStays(p, net, tr.past);
      AdvertisedIsHonest(p, net, tr.past, tr.f.sender, tr.entries);
      HonestSurvivesWire(p, net, After(p, tr.past), tr.f.sender, tr.entries);
      ConvergedIsStable(p, net, After(p, tr.past), tr.f, tr.entries, tr.now);
    }
  }

  // ---------------------------------------------------------------- the network changes

  /** Every connection and feed of the one is in the other. */
  ghost predicate Within(net: Net, more: Net) {
    net.feeds <= more.feeds && forall r, n :: Connected(net, r, n) ==> Connected(more, r, n)
  }

  lemma {:induction false} WalkGrows(net: Net, more: Net, r: RouterId, n: Cidr, j: nat)
    requires Within(net, more) && Walk(net, r, n, j)
    ensures Walk(more, r, n, j)
    decreases j
  {
    if j > 0 {
      var f :| f in net.feeds && f.receiver == r && Walk(net, f.sender, n, j - 1);
      WalkGrows(net, more, f.sender, n, j - 1);
    }
  }

  /** New cables and networks cost nothing: a sound state stays sound, so no loop appears. */
  lemma SoundSurvivesGrowth(p: Protocol, net: Net, more: Net, db: Db)
    requires Sound(p, net, db) && Within(net, more) && WellFormed(more, db)
    ensures Sound(p, more, db)
  {
    forall r, n | r in db && n in db[r] ensures SoundRoute(p, more, db, r, n, db[r][n]) {
      assert SoundRoute(p, net, db, r, n, db[r][n]);
      var j: nat :| j >= 1 && db[r][n].metric == MetricOf(p, j) && Walk(net, r, n, j);
      WalkGrows(net, more, r, n, j);
      var f :| f in net.feeds && Backed(p, net, db, f, r, db[r][n]);
      assert Backed(p, more, db, f, r, db[r][n]);
    }
  }

  lemma {:induction false} LegalWithin(p: Protocol, less: Net, net: Net, tr: Trace)
    requires less.feeds <= net.feeds && less.connected == net.connected && Legal(p, less, tr)
    ensures Legal(p, net, tr)
    ensures forall q, entries :: WasAdvertised(p, less, tr, q, entries) ==> WasAdvertised(p, net, tr, q, entries)
  {
    if tr.Then? {
      LegalWithin(p, less, net, tr.past);
    }
  }

  /** A lost cable is never noticed: from a converged state, no run of deliveries over the cables
      that are left withdraws or replaces a single route. */
  lemma LossGoesUnnoticed(p: Protocol, net: Net, less: Net, tr: Trace)
    requires Sane(p) && Sound(p, net, Origin(tr)) && Converged(p, net, Origin(tr))
    requires less.feeds <= net.feeds && less.connected == net.connected && Legal(p, less, tr)
    ensures After(p, tr) == Origin(tr)
  {
    LegalWithin(p, less, net, tr);
    ConvergedStays(p, net, tr);
  }

  /** A feed arrives on the port of the route from its next hop. */
  ghost predicate Carries(net: Net, r: RouterId, rt: Route) {
    exists f :: f in net.feeds && f.receiver == r && f.port == rt.iface && f.addr == rt.nextHop
  }

  ghost predicate AllCarried(net: Net, db: Db) {
    forall r, n :: r in db && n in db[r] ==> Carries(net, r, db[r][n])
  }

  lemma BackingIsKept(p: Protocol, net: Net, less: Net, db: Db, r: RouterId, n: Cidr) returns (f: Feed)
    requires Sound(p, net, db) && less.feeds <= net.feeds && r in db && n in db[r] && Carries(less, r, db[r][n])
    ensures f in less.feeds && Backed(p, net, db, f, r, db[r][n])
  {
    assert SoundRoute(p, net, db, r, n, db[r][n]);
    f :| f in net.feeds && Backed(p, net, db, f, r, db[r][n]);
    var g :| g in less.feeds && g.receiver == r && g.port == db[r][n].iface && g.addr == db[r][n].nextHop;
    assert g in net.feeds;
  }

  lemma ConvergedExactly(p: Protocol, net: Net, db: Db, r: RouterId, n: Cidr, j: nat, i: nat)
    requires p.step >= 1 && Converged(p, net, db) && r in db && n in db[r] && db[r][n].metric == MetricOf(p, j) && InRange(p, db[r][n].metric)
    requires i >= 1 && Walk(net, r, n, i) && MetricOf(p, i) <= MetricOf(p, j)
    ensures j == i
  {
    assert Holds(db, r, n, MetricOf(p, i));
    if i < j {
      MetricGrows(p, i, j);
    } else if j < i {
      MetricGrows(p, j, i);
    }
  }

  lemma {:induction false} MetricGrows(p: Protocol, i: nat, j: nat)
    requires p.step >= 1 && i < j
    ensures MetricOf(p, i) < MetricOf(p, j)
  {
    if i < j - 1 {
      MetricGrows(p, i, j - 1);
    }
  }

  /** In a converged state the next hop is nearer by exactly one feed. */
  lemma BackingIsExact(p: Protocol, net: Net, db: Db, f: Feed, r: RouterId, n: Cidr, j: nat) returns (i: nat)
    requires p.step >= 1 && Sound(p, net, db) && Converged(p, net, db)
    requires r in db && n in db[r] && db[r][n].metric == MetricOf(p, j) && f in net.feeds && Backed(p, net, db, f, r, db[r][n])
    ensures j == i + 1
    ensures if i == 0 then Connected(net, f.sender, n) else f.sender in db && n in db[f.sender] && db[f.sender][n].metric == MetricOf(p, i)
  {
    if Connected(net, f.sender, n) {
      i := 0;
      FirstFeedIsExact(p, net, db, f, r, n, j);
    } else {
      i := SenderWalk(p, net, db, f.sender, n);
      assert InRange(p, db[r][n].metric) by {
        assert SoundRoute(p, net, db, r, n, db[r][n]);
      }
      LaterFeedIsExact(p, net, db, f, r, n, j, i);
    }
  }

  lemma LaterFeedIsExact(p: Protocol, net: Net, db: Db, f: Feed, r: RouterId, n: Cidr, j: nat, i: nat)
    requires p.step >= 1 && Converged(p, net, db) && r in db && n in db[r] && db[r][n].metric == MetricOf(p, j) && InRange(p, db[r][n].metric)
    requires f in net.feeds && f.receiver == r && Walk(net, f.sender, n, i) && MetricOf(p, i) + p.step <= MetricOf(p, j)
    ensures j == i + 1
  {
    WalkExtends(net, f, n, i);
    ConvergedExactly(p, net, db, r, n, j, i + 1);
  }

  lemma SenderWalk(p: Protocol, net: Net, db: Db, q: RouterId, n: Cidr) returns (i: nat)
    requires Sound(p, net, db) && q in db && n in db[q]
    ensures i >= 1 && db[q][n].metric == MetricOf(p, i) && Walk(net, q, n, i)
  {
    assert SoundRoute(p, net, db, q, n, db[q][n]);
    i :| i >= 1 && db[q][n].metric == MetricOf(p, i) && Walk(net, q, n, i);
  }

  lemma FirstFeedIsExact(p: Protocol, net: Net, db: Db, f: Feed, r: RouterId, n: Cidr, j: nat)
    requires p.step >= 1 && Sound(p, net, db) && Converged(p, net, db)
    requires r in db && n in db[r] && db[r][n].metric == MetricOf(p, j)
    requires f in net.feeds && f.receiver == r && Connected(net, f.sender, n)
    ensures j == 1
  {
    var k := SenderWalk(p, net, db, r, n);
    assert SoundRoute(p, net, db, r, n, db[r][n]);
    assert Walk(net, f.sender, n, 0);
    WalkExtends(net, f, n, 0);
    MetricMonotone(p, 1, k);
    ConvergedExactly(p, net, db, r, n, j, 1);
  }

  lemma {:induction false} CarriedHasWalk(p: Protocol, net: Net, less: Net, db: Db, r: RouterId, n: Cidr, j: nat)
    requires p.step >= 1 && Sound(p, net, db) && Converged(p, net, db)
    requires less.feeds <= net.feeds && less.connected == net.connected && AllCarried(less, db)
    requires r in db && n in db[r] && db[r][n].metric == MetricOf(p, j)
    ensures Walk(less, r, n, j)
    decreases j
  {
    var f := BackingIsKept(p, net, less, db, r, n);
    var i := BackingIsExact(p, net, db, f, r, n, j);
    if i > 0 {
      CarriedHasWalk(p, net, less, db, f.sender, n, i);
    }
    assert Walk(less, f.sender, n, i);
    WalkExtends(less, f, n, i);
  }

  /** The exact condition for a loss to do no harm in a converged state: what is left keeps every
      route sound if and only if it carries every route. */
  lemma LossKeepsSoundIff(p: Protocol, net: Net, less: Net, db: Db)
    requires p.step >= 1 && Sound(p, net, db) && Converged(p, net, db)
    requires less.feeds <= net.feeds && less.connected == net.connected
    ensures Sound(p, less, db) <==> AllCarried(less, db)
  {
    if Sound(p, less, db) {
      forall r, n | r in db && n in db[r] ensures Carries(less, r, db[r][n]) {
        assert SoundRoute(p, less, db, r, n, db[r][n]);
        var f :| f in less.feeds && Backed(p, less, db, f, r, db[r][n]);
      }
    }
    if AllCarried(less, db) {
      forall r, n | r in db && n in db[r] ensures SoundRoute(p, less, db, r, n, db[r][n]) {
        var f := BackingIsKept(p, net, less, db, r, n);
        assert Backed(p, less, db, f, r, db[r][n]);
        assert SoundRoute(p, net, db, r, n, db[r][n]);
        var j: nat :| j >= 1 && db[r][n].metric == MetricOf(p, j) && Walk(net, r, n, j);
        CarriedHasWalk(p, net, less, db, r, n, j);
      }
    }
  }
}
