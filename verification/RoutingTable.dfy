/** The forwarding table: a list of rows, at most one per (network, protocol), queried by longest
    prefix and then administrative distance. These are the specification functions; the methods
    of `Router` are proved against them.
 */
module RoutingTable {
  import opened Addressing
  import opened DistanceVector

  datatype RouteProtocol = FromConnected | FromStatic | FromOspf | FromRip | FromEigrp | FromBgp

  datatype RouteEntry = RouteEntry(
    network: IPNet, nextHop: IPAddress, iface: PortId, metric: int, proto: RouteProtocol, adminDist: int)

  /** The distance every caller in the engine passes for its protocol. */
  function AdminDistance(proto: RouteProtocol): int {
    match proto
    case FromConnected => 0
    case FromStatic => 1
    case FromBgp => 20
    case FromEigrp => 90
    case FromOspf => 110
    case FromRip => 120
  }

  predicate SameKey(a: RouteEntry, b: RouteEntry) {
    a.network == b.network && a.proto == b.proto
  }

  // ---------------------------------------------------------------- insertion

  /** Overwrites the first row with the same key in place, or appends. */
  function Insert(t: seq<RouteEntry>, e: RouteEntry): seq<RouteEntry> {
    if t == [] then [e]
    else if SameKey(t[0], e) then [e] + t[1..]
    else [t[0]] + Insert(t[1..], e)
  }

  /** The rows of every protocol but one, in order. */
  function Without(t: seq<RouteEntry>, proto: RouteProtocol): seq<RouteEntry> {
    if t == [] then []
    else (if t[0].proto == proto then [] else [t[0]]) + Without(t[1..], proto)
  }

  ghost predicate UniqueKeys(t: seq<RouteEntry>) {
    forall i, j :: 0 <= i < j < |t| ==> !SameKey(t[i], t[j])
  }

  ghost predicate MaskedNet(net: IPNet) {
    Canonical(Print(net))
  }

  /** What every run of the engine keeps: unique keys, masked networks, fixed distances. */
  ghost predicate TableOk(t: seq<RouteEntry>) {
    && UniqueKeys(t)
    && forall e :: e in t ==> MaskedNet(e.network) && e.adminDist == AdminDistance(e.proto)
  }

  /** Insertion replaces exactly the rows with the new key. */
  lemma {:induction false} InsertRows(t: seq<RouteEntry>, e: RouteEntry)
    requires UniqueKeys(t)
    ensures UniqueKeys(Insert(t, e))
    ensures forall x :: x in Insert(t, e) <==> x == e || (x in t && !(x.network == e.network && x.proto == e.proto))
  {
    if t != [] {
      assert t == [t[0]] + t[1..];
      if SameKey(t[0], e) {
        assert forall x :: x in t[1..] ==> !SameKey(t[0], x);
      } else {
        InsertRows(t[1..], e);
        var rest := Insert(t[1..], e);
        assert forall k :: 0 <= k < |rest| ==> rest[k] in rest;
      }
    }
  }

  /** Insertion at the first row with the same key is an update in place. */
  lemma {:induction false} InsertAt(t: seq<RouteEntry>, e: RouteEntry, i: nat)
    requires i < |t| && SameKey(t[i], e)
    requires forall k :: 0 <= k < i ==> !SameKey(t[k], e)
    ensures Insert(t, e) == t[i := e]
  {
    if i > 0 {
      assert t[1..][i - 1] == t[i];
      InsertAt(t[1..], e, i - 1);
      assert t[i := e] == [t[0]] + t[1..][i - 1 := e];
    }
  }

  lemma {:induction false} InsertNew(t: seq<RouteEntry>, e: RouteEntry)
    requires forall k :: 0 <= k < |t| ==> !SameKey(t[k], e)
    ensures Insert(t, e) == t + [e]
  {
    if t != [] {
      InsertNew(t[1..], e);
    }
  }

  lemma {:induction false} WithoutRows(t: seq<RouteEntry>, proto: RouteProtocol)
    ensures forall x :: x in Without(t, proto) <==> x in t && x.proto != proto
    ensures UniqueKeys(t) ==> UniqueKeys(Without(t, proto))
  {
    if t != [] {
      WithoutRows(t[1..], proto);
      var rest := Without(t[1..], proto);
      assert forall k :: 0 <= k < |rest| ==> rest[k] in rest;
      assert forall x :: x in t <==> x == t[0] || x in t[1..];
    }
  }

  /** The other rows keep their order. */
  lemma {:induction false} WithoutInOrder(a: seq<RouteEntry>, b: seq<RouteEntry>, proto: RouteProtocol)
    ensures Without(a + b, proto) == Without(a, proto) + Without(b, proto)
  {
    if a == [] {
      assert a + b == b;
    } else {
      var first, rest := if a[0].proto == proto then [] else [a[0]], a[1..] + b;
      WithoutInOrder(a[1..], b, proto);
      assert (a + b)[0] == a[0] && (a + b)[1..] == rest;
      assert first + (Without(a[1..], proto) + Without(b, proto)) == (first + Without(a[1..], proto)) + Without(b, proto);
    }
  }

  lemma {:induction false} WithoutAppend(a: seq<RouteEntry>, e: RouteEntry, proto: RouteProtocol)
    ensures Without(a + [e], proto) == Without(a, proto) + (if e.proto == proto then [] else [e])
  {
    if a != [] {
      assert (a + [e])[1..] == a[1..] + [e];
      WithoutAppend(a[1..], e, proto);
    }
  }

  // ---------------------------------------------------------------- whole runs

  datatype TableOp =
    | AddRoute(cidr: Cidr, nextHop: IPAddress, iface: PortId, metric: int, proto: RouteProtocol)
    | RemoveByProtocol(proto: RouteProtocol)

  function Apply(t: seq<RouteEntry>, op: TableOp): seq<RouteEntry> {
    match op
    case AddRoute(c, nh, i, m, p) =>
      if ParseCidr(c).None? then t
      else Insert(t, RouteEntry(ParseCidr(c).value, nh, i, m, p, AdminDistance(p)))
    case RemoveByProtocol(p) => Without(t, p)
  }

  function ApplyAll(t: seq<RouteEntry>, ops: seq<TableOp>): seq<RouteEntry>
    decreases |ops|
  {
    if ops == [] then t else Apply(ApplyAll(t, ops[..|ops| - 1]), ops[|ops| - 1])
  }

  lemma ApplyKeepsTableOk(t: seq<RouteEntry>, op: TableOp)
    requires TableOk(t)
    ensures TableOk(Apply(t, op))
  {
    match op
    case AddRoute(c, nh, i, m, p) =>
      if ParseCidr(c).Some? {
        PrintedIsCanonical(c);
        InsertRows(t, RouteEntry(ParseCidr(c).value, nh, i, m, p, AdminDistance(p)));
      }
    case RemoveByProtocol(p) => WithoutRows(t, p);
  }

  /** (network, protocol) pairs stay unique over any run of table operations. */
  lemma {:induction false} RunKeepsTableOk(ops: seq<TableOp>)
    ensures TableOk(ApplyAll([], ops))
    decreases |ops|
  {
    if ops != [] {
      RunKeepsTableOk(ops[..|ops| - 1]);
      ApplyKeepsTableOk(ApplyAll([], ops[..|ops| - 1]), ops[|ops| - 1]);
    }
  }

  // ---------------------------------------------------------------- longest prefix match

  /** `a` is preferred to `b`: a longer prefix, or the same length and a smaller distance. */
  predicate Preferred(a: RouteEntry, b: RouteEntry) {
    a.network.ones > b.network.ones || (a.network.ones == b.network.ones && a.adminDist < b.adminDist)
  }

  /** The scan keeps the first candidate that nothing after it is preferred to. */
  function Scan(t: seq<RouteEntry>, dest: nat): Option<RouteEntry>
    decreases |t|
  {
    if t == [] then None
    else
      var best := Scan(t[..|t| - 1], dest);
      var e := t[|t| - 1];
      if Contains(e.network, dest) && (best.None? || Preferred(e, best.value)) then Some(e) else best
  }

  /** The definition of the right answer: a row containing the address that none is preferred to. */
  ghost predicate IsBest(t: seq<RouteEntry>, dest: nat, e: RouteEntry) {
    && e in t && Contains(e.network, dest)
    && forall x :: x in t && Contains(x.network, dest) ==> !Preferred(x, e)
  }

  lemma {:induction false} ScanIsBest(t: seq<RouteEntry>, dest: nat)
    ensures Scan(t, dest).None? <==> forall x :: x in t ==> !Contains(x.network, dest)
    ensures Scan(t, dest).Some? ==> IsBest(t, dest, Scan(t, dest).value)
    decreases |t|
  {
    if t != [] {
      var front, e := t[..|t| - 1], t[|t| - 1];
      ScanIsBest(front, dest);
      assert forall x :: x in t <==> x in front || x == e;
      assert e in t;
    }
  }

  /** Two rows of one length that contain the same address are for the same network. */
  lemma BestIsUnique(t: seq<RouteEntry>, dest: nat, a: RouteEntry, b: RouteEntry)
    requires TableOk(t) && IsBest(t, dest, a) && IsBest(t, dest, b)
    ensures a == b
  {
    assert !Preferred(a, b) && !Preferred(b, a);
    assert a.network == b.network;
    assert a.proto == b.proto;
    var i :| 0 <= i < |t| && t[i] == a;
    var j :| 0 <= j < |t| && t[j] == b;
    assert SameKey(t[i], t[j]);
  }

  /** The match is the single best row, and none exactly when no row contains the address. */
  lemma MatchRefinesSpec(t: seq<RouteEntry>, dest: nat, e: RouteEntry)
    requires TableOk(t)
    ensures Scan(t, dest) == Some(e) <==> IsBest(t, dest, e)
  {
    ScanIsBest(t, dest);
    if IsBest(t, dest, e) {
      BestIsUnique(t, dest, e, Scan(t, dest).value);
    }
  }

  lemma RowContainsIff(t: seq<RouteEntry>, e: RouteEntry, dest: nat)
    requires TableOk(t) && e in t
    ensures Contains(e.network, dest) <==> InBlock(e.network, dest)
  {
    ContainsIff(Print(e.network), dest);
  }

  /** The answer in plain terms: the row with the longest prefix whose block holds the address, and
      of rows of one length the one with the smallest distance; none exactly when no block does. */
  lemma LongestPrefixWins(t: seq<RouteEntry>, dest: nat)
    requires TableOk(t)
    ensures match Scan(t, dest)
            case None => forall x :: x in t ==> !InBlock(x.network, dest)
            case Some(e) =>
              && e in t && InBlock(e.network, dest)
              && forall x :: x in t && InBlock(x.network, dest) && x != e ==>
                   x.network.ones < e.network.ones || (x.network.ones == e.network.ones && e.adminDist < x.adminDist)
  {
    ScanIsBest(t, dest);
    forall x | x in t ensures Contains(x.network, dest) <==> InBlock(x.network, dest) {
      RowContainsIff(t, x, dest);
    }
    if Scan(t, dest).Some? {
      var e := Scan(t, dest).value;
      forall x | x in t && InBlock(x.network, dest) && x != e
        ensures x.network.ones < e.network.ones || (x.network.ones == e.network.ones && e.adminDist < x.adminDist)
      {
        if x.network.ones == e.network.ones && x.adminDist == e.adminDist {
          assert IsBest(t, dest, x);
          BestIsUnique(t, dest, x, e);
        }
      }
    }
  }

  /** What a 10.0.0.0/24 row answers, and nothing else: 10.0.0.0 to 10.0.0.255. */
  lemma OneRowAnswers(e: RouteEntry, dest: nat)
    requires e.network == IPNet(0x0A00_0000, 24)
    ensures Scan([e], dest) == if 0x0A00_0000 <= dest <= 0x0A00_00FF then Some(e) else None
  {
    PowersOfTwo();
    var c := Block(0x0A00_0000, 24);
    var k := ParsedBlock(c);
    assert k == 0x000A_0000 by {
      assert BlockSize(24) == 256;
      assert k * 256 <= 0x0A00_0000 < k * 256 + 256;
    }
    ContainsIff(c, dest);
    assert [e][..0] == [];
  }

  /** The distances of well-formed rows, so that of one network's rows connected ones win, then
      static, BGP, EIGRP, OSPF and RIP. */
  lemma DistancesOfRows(t: seq<RouteEntry>, e: RouteEntry)
    requires TableOk(t) && e in t
    ensures e.adminDist == match e.proto
                           case FromConnected => 0
                           case FromStatic => 1
                           case FromBgp => 20
                           case FromEigrp => 90
                           case FromOspf => 110
                           case FromRip => 120
  {}

  /** The order of the rows does not matter. */
  lemma MatchIsOrderIndependent(t: seq<RouteEntry>, u: seq<RouteEntry>, dest: nat)
    requires TableOk(t) && multiset(t) == multiset(u)
    ensures Scan(t, dest) == Scan(u, dest)
  {
    SameRows(t, u);
    ScanIsBest(t, dest);
    ScanIsBest(u, dest);
    if Scan(t, dest).Some? {
      assert IsBest(t, dest, Scan(u, dest).value);
      BestIsUnique(t, dest, Scan(t, dest).value, Scan(u, dest).value);
    }
  }

  lemma SameRows(t: seq<RouteEntry>, u: seq<RouteEntry>)
    requires multiset(t) == multiset(u)
    ensures forall x :: x in t <==> x in u
  {
    forall x ensures x in t <==> x in u {
      assert x in t <==> x in multiset(t);
      assert x in u <==> x in multiset(u);
    }
  }

  /** Without injective distances the row order decides: two equal candidates, two answers. */
  lemma EqualDistancesDependOnOrder()
    ensures exists t, u, dest :: UniqueKeys(t) && multiset(t) == multiset(u) && Scan(t, dest) != Scan(u, dest)
  {
    var net := IPNet(0, 32);
    var a := RouteEntry(net, UNSET, Id("a"), 0, FromStatic, 1);
    var b := RouteEntry(net, UNSET, Id("b"), 0, FromRip, 1);
    assert Contains(net, 0);
    assert [a, b][..1] == [a] && [b, a][..1] == [b];
    assert [a][..0] == [] && [b][..0] == [];
    assert Scan([a], 0) == Some(a) && Scan([b], 0) == Some(b);
    assert Scan([a, b], 0) == Some(a);
    assert Scan([b, a], 0) == Some(b);
    assert multiset([a, b]) == multiset([b, a]);
    assert UniqueKeys([a, b]);
  }

  // ---------------------------------------------------------------- agreement with a protocol's database

  function LearnedRow(rt: Route, proto: RouteProtocol): RouteEntry
    requires ParseCidr(rt.network).Some?
  {
    RouteEntry(ParseCidr(rt.network).value, rt.nextHop, rt.iface, rt.metric, proto, AdminDistance(proto))
  }

  /** One routing-table step for a learned route: an unparsable network is skipped. */
  function InstallOne(t: seq<RouteEntry>, rt: Route, proto: RouteProtocol): seq<RouteEntry> {
    Apply(t, AddRoute(rt.network, rt.nextHop, rt.iface, rt.metric, proto))
  }

  function Install(t: seq<RouteEntry>, routes: seq<Route>, proto: RouteProtocol): seq<RouteEntry>
    decreases |routes|
  {
    if routes == [] then t
    else InstallOne(Install(t, routes[..|routes| - 1], proto), routes[|routes| - 1], proto)
  }

  /** Row and route describe the same path to the same written network. */
  predicate Mirrors(e: RouteEntry, n: Cidr, rt: Route, proto: RouteProtocol) {
    && e.proto == proto && Print(e.network) == n
    && e.nextHop == rt.nextHop && e.iface == rt.iface && e.metric == rt.metric
  }

  /** The rows of the protocol are exactly the routes of its daemon. */
  ghost predicate Agrees(t: seq<RouteEntry>, db: Table, proto: RouteProtocol) {
    && (forall n :: n in db ==> exists e :: e in t && Mirrors(e, n, db[n], proto))
    && (forall e :: e in t && e.proto == proto ==>
          Print(e.network) in db && Mirrors(e, Print(e.network), db[Print(e.network)], proto))
  }

  ghost predicate AllCanonical(db: Table) {
    forall n :: n in db ==> Canonical(n)
  }

  /** Agreement forces every network of the database to be canonical. */
  lemma AgreementNeedsCanonical(t: seq<RouteEntry>, db: Table, proto: RouteProtocol)
    requires TableOk(t) && Agrees(t, db, proto)
    ensures AllCanonical(db)
  {
    forall n | n in db ensures Canonical(n) {
      var e :| e in t && Mirrors(e, n, db[n], proto);
    }
  }

  lemma InstallKeepsAgreement(t: seq<RouteEntry>, db: Table, rt: Route, proto: RouteProtocol)
    requires TableOk(t) && Agrees(t, db, proto) && Canonical(rt.network)
    ensures TableOk(InstallOne(t, rt, proto))
    ensures Agrees(InstallOne(t, rt, proto), db[rt.network := rt], proto)
  {
    var row := LearnedRow(rt, proto);
    var t' := Insert(t, row);
    var db' := db[rt.network := rt];
    InsertRows(t, row);
    ApplyKeepsTableOk(t, AddRoute(rt.network, rt.nextHop, rt.iface, rt.metric, proto));
    forall n | n in db' ensures exists e :: e in t' && Mirrors(e, n, db'[n], proto) {
      if n == rt.network {
        assert row in t' && Mirrors(row, n, rt, proto);
      } else {
        var e :| e in t && Mirrors(e, n, db[n], proto);
        assert e in t';
      }
    }
  }

  /** One update keeps table and database in step, even when it improves a network twice. */
  lemma {:induction false} UpdateKeepsAgreement(
      p: Protocol, proto: RouteProtocol, t: seq<RouteEntry>, db: Table, entries: seq<Entry>, sender: IPAddress, iface: PortId, now: int)
    requires TableOk(t) && Agrees(t, db, proto)
    requires AllCanonical(Learn(p, db, entries, sender, iface, now))
    ensures var t' := Install(t, Learned(p, db, entries, sender, iface, now), proto);
            TableOk(t') && Agrees(t', Learn(p, db, entries, sender, iface, now), proto)
    decreases |entries|
  {
    if entries != [] {
      var front, e := entries[..|entries| - 1], entries[|entries| - 1];
      var before := Learn(p, db, front, sender, iface, now);
      var after := Learn(p, db, entries, sender, iface, now);
      var reported := Learned(p, db, front, sender, iface, now);
      assert before.Keys <= after.Keys;
      UpdateKeepsAgreement(p, proto, t, db, front, sender, iface, now);
      if Accepts(p, before, e) {
        var rt := Route(e.network, sender, iface, e.metric + p.step, now);
        assert e.network in after;
        InstallKeepsAgreement(Install(t, reported, proto), before, rt, proto);
        assert (reported + [rt])[..|reported + [rt]| - 1] == reported;
      } else {
        assert reported + [] == reported;
      }
    }
  }

  /** Every entry that the metric limit lets in names its network canonically. */
  ghost predicate OffersCanonical(p: Protocol, entries: seq<Entry>) {
    forall e :: e in entries && InRange(p, e.metric + p.step) ==> Canonical(e.network)
  }

  /** A canonical database stays canonical exactly under such an update. */
  lemma LearnsCanonicalIff(p: Protocol, db: Table, entries: seq<Entry>, sender: IPAddress, iface: PortId, now: int)
    requires AllCanonical(db)
    ensures AllCanonical(Learn(p, db, entries, sender, iface, now)) <==> OffersCanonical(p, entries)
  {
    var db' := Learn(p, db, entries, sender, iface, now);
    LearnMeaning(p, db, entries, sender, iface, now);
    forall e | e in entries && InRange(p, e.metric + p.step) ensures e.network in db' {}
    forall n | n in db' && n !in db ensures exists e :: e in entries && InRange(p, e.metric + p.step) && e.network == n {
      assert Explained(p, db, db', entries, sender, iface, now, n);
    }
  }

  /** The exact condition: table and database agree after an update if and only if every entry
      within the metric limit writes its network canonically. */
  lemma AgreementIffCanonical(
      p: Protocol, proto: RouteProtocol, t: seq<RouteEntry>, db: Table, entries: seq<Entry>, sender: IPAddress, iface: PortId, now: int)
    requires TableOk(t) && Agrees(t, db, proto)
    ensures var t' := Install(t, Learned(p, db, entries, sender, iface, now), proto);
            Agrees(t', Learn(p, db, entries, sender, iface, now), proto) <==> OffersCanonical(p, entries)
  {
    var db' := Learn(p, db, entries, sender, iface, now);
    var t' := Install(t, Learned(p, db, entries, sender, iface, now), proto);
    InstallKeepsTableOk(t, Learned(p, db, entries, sender, iface, now), proto);
    AgreementNeedsCanonical(t, db, proto);
    LearnsCanonicalIff(p, db, entries, sender, iface, now);
    if AllCanonical(db') {
      UpdateKeepsAgreement(p, proto, t, db, entries, sender, iface, now);
    } else if Agrees(t', db', proto) {
      AgreementNeedsCanonical(t', db', proto);
    }
  }

  /** It happens: a router whose mask does not parse advertises its address with host bits and
      "/24", and its neighbour's table and database part. */
  lemma BadMaskBreaksAgreement(mask: string, sender: IPAddress, iface: PortId, now: int)
    ensures var update := [Entry(IpToCidr(V4(0x0A00_0001), Unparsable(mask)), 1)];
            Agrees([], map[], FromRip)
            && !Agrees(Install([], Learned(RIP, map[], update, sender, iface, now), FromRip),
                       Learn(RIP, map[], update, sender, iface, now), FromRip)
  {
    var update := [Entry(IpToCidr(V4(0x0A00_0001), Unparsable(mask)), 1)];
    OddIsNotMasked(0x0A00_0001, 8);
    assert update[0] in update && !Canonical(update[0].network);
    AgreementIffCanonical(RIP, FromRip, [], map[], update, sender, iface, now);
  }

  lemma OddIsNotMasked(addr: nat, host: nat)
    requires addr % 2 == 1 && host > 0
    ensures ClearLow(addr, host) != addr
  {}

  lemma {:induction false} InstallKeepsTableOk(t: seq<RouteEntry>, routes: seq<Route>, proto: RouteProtocol)
    requires TableOk(t)
    ensures TableOk(Install(t, routes, proto))
    decreases |routes|
  {
    if routes != [] {
      InstallKeepsTableOk(t, routes[..|routes| - 1], proto);
      var rt := routes[|routes| - 1];
      ApplyKeepsTableOk(Install(t, routes[..|routes| - 1], proto),
                        AddRoute(rt.network, rt.nextHop, rt.iface, rt.metric, proto));
    }
  }

  /** Operations of the other protocols leave the protocol's rows alone. */
  lemma OtherProtocolsKeepAgreement(t: seq<RouteEntry>, db: Table, proto: RouteProtocol, op: TableOp)
    requires TableOk(t) && Agrees(t, db, proto) && op.proto != proto
    ensures Agrees(Apply(t, op), db, proto)
  {
    match op
    case AddRoute(c, nh, i, m, p) =>
      if ParseCidr(c).Some? {
        var row := RouteEntry(ParseCidr(c).value, nh, i, m, p, AdminDistance(p));
        InsertRows(t, row);
        forall n | n in db ensures exists e :: e in Insert(t, row) && Mirrors(e, n, db[n], proto) {
          var e :| e in t && Mirrors(e, n, db[n], proto);
          assert e in Insert(t, row);
        }
      }
    case RemoveByProtocol(p) =>
      WithoutRows(t, p);
      forall n | n in db ensures exists e :: e in Without(t, p) && Mirrors(e, n, db[n], proto) {
        var e :| e in t && Mirrors(e, n, db[n], proto);
        assert e in Without(t, p);
      }
  }

  // A router's life as far as one protocol and its table are concerned.
  datatype RouterEvent =
    | WireUpdate(entries: seq<Entry>, sender: IPAddress, port: PortId, now: int)
    | Other(op: TableOp)

  datatype RibState = RibState(rows: seq<RouteEntry>, db: Table)

  function React(p: Protocol, proto: RouteProtocol, s: RibState, ev: RouterEvent): RibState {
    match ev
    case WireUpdate(es, a, i, now) =>
      RibState(Install(s.rows, Learned(p, s.db, es, a, i, now), proto), Learn(p, s.db, es, a, i, now))
    case Other(op) => RibState(Apply(s.rows, op), s.db)
  }

  function ReactAll(p: Protocol, proto: RouteProtocol, evs: seq<RouterEvent>): RibState
    decreases |evs|
  {
    if evs == [] then RibState([], map[]) else React(p, proto, ReactAll(p, proto, evs[..|evs| - 1]), evs[|evs| - 1])
  }

  /** Every update offers canonical networks only, and nothing else writes the protocol's rows. */
  ghost predicate Orderly(p: Protocol, proto: RouteProtocol, ev: RouterEvent) {
    match ev
    case WireUpdate(es, _, _, _) => OffersCanonical(p, es)
    case Other(op) => op.proto != proto
  }

  /** Over any run the protocol's rows of the forwarding table are exactly the daemon's routes. */
  lemma {:induction false} AgreementOverRuns(p: Protocol, proto: RouteProtocol, evs: seq<RouterEvent>)
    requires forall ev :: ev in evs ==> Orderly(p, proto, ev)
    ensures var s := ReactAll(p, proto, evs);
            TableOk(s.rows) && Agrees(s.rows, s.db, proto)
    decreases |evs|
  {
    if evs != [] {
      var front, ev := evs[..|evs| - 1], evs[|evs| - 1];
      AgreementOverRuns(p, proto, front);
      assert ev in evs && Orderly(p, proto, ev);
      var s := ReactAll(p, proto, front);
      match ev
      case WireUpdate(es, a, i, now) =>
        InstallKeepsTableOk(s.rows, Learned(p, s.db, es, a, i, now), proto);
        AgreementIffCanonical(p, proto, s.rows, s.db, es, a, i, now);
      case Other(op) =>
        ApplyKeepsTableOk(s.rows, op);
        OtherProtocolsKeepAgreement(s.rows, s.db, proto, op);
    }
  }

  // ---------------------------------------------------------------- a network of routers

  type Rows = map<RouterId, seq<RouteEntry>>

  /** The forwarding tables at the end of a trace: every updated route is installed. */
  function RowsAfter(p: Protocol, proto: RouteProtocol, rows: Rows, tr: Trace): Rows {
    match tr
    case Begin(_) => rows
    case Then(past, f, entries, now) =>
      var before, db := RowsAfter(p, proto, rows, past), After(p, past);
      if f.receiver in before && f.receiver in db then
        before[f.receiver := Install(before[f.receiver], Learned(p, db[f.receiver], OnWire(p, entries), f.addr, f.port, now), proto)]
      else before
  }
}
