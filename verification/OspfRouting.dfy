/** Manager.RunOspfSPF: from the link-state database to rows of the forwarding table. */
module OspfRouting {
  import opened Addressing
  import opened RoutingTable
  import opened Routers
  import opened Spf
  import opened Ospf

  /** How a text reads as a CIDR block; net.ParseCIDR refuses one without a slash. */
  ghost predicate ReadsBlocks(read: Id -> Cidr) {
    forall a :: !HasSlash(a) ==> ParseCidr(read(a)).None?
  }

  /** The destination is a block, and its next hop is on some port. */
  predicate Usable(r: SpfResult, read: Id -> Cidr, resolve: Id -> Option<(IPAddress, PortId)>) {
    ParseCidr(read(r.destination)).Some? && resolve(r.nextHop).Some?
  }

  function RowOf(r: SpfResult, read: Id -> Cidr, resolve: Id -> Option<(IPAddress, PortId)>): RouteEntry
    requires Usable(r, read, resolve)
  {
    RouteEntry(ParseCidr(read(r.destination)).value, resolve(r.nextHop).value.0, resolve(r.nextHop).value.1,
               r.metric, FromOspf, AdminDistance(FromOspf))
  }

  /** The rows of the results that pass both filters. */
  ghost function RowsOf(results: map<Id, SpfResult>, read: Id -> Cidr, resolve: Id -> Option<(IPAddress, PortId)>): set<RouteEntry> {
    set d | d in results && Usable(results[d], read, resolve) :: RowOf(results[d], read, resolve)
  }

  ghost predicate HasKey(t: seq<RouteEntry>, row: RouteEntry) {
    exists e :: e in t && SameKey(e, row)
  }

  /** Every OSPF row is one of these, and each of these has a row; rows of one network share it. */
  ghost predicate HoldsRows(t: seq<RouteEntry>, rows: set<RouteEntry>) {
    && (forall e :: e in t && e.proto == FromOspf ==> e in rows)
    && (forall row :: row in rows ==> HasKey(t, row))
  }

  /** The table after a run: correct results, their rows, and every other row as it was. */
  ghost predicate Installed(lsdb: Lsdb, root: Id, before: seq<RouteEntry>, after: seq<RouteEntry>,
                            read: Id -> Cidr, resolve: Id -> Option<(IPAddress, PortId)>) {
    && Without(after, FromOspf) == Without(before, FromOspf)
    && exists results: map<Id, SpfResult> ::
         Correct(lsdb, root, results) && HoldsRows(after, RowsOf(results, read, resolve))
  }

  /** The row is the one of this result. */
  predicate RowSays(e: RouteEntry, r: SpfResult, read: Id -> Cidr, resolve: Id -> Option<(IPAddress, PortId)>) {
    && ParseCidr(read(r.destination)) == Some(e.network) && resolve(r.nextHop) == Some((e.nextHop, e.iface))
    && e.metric == r.metric && e.proto == FromOspf && e.adminDist == 110
  }

  /** What such a table holds, row by row and result by result. */
  lemma RowsAndResults(t: seq<RouteEntry>, results: map<Id, SpfResult>, read: Id -> Cidr, resolve: Id -> Option<(IPAddress, PortId)>)
    requires HoldsRows(t, RowsOf(results, read, resolve))
    ensures forall e :: e in t && e.proto == FromOspf ==> exists d :: d in results && RowSays(e, results[d], read, resolve)
    ensures forall d :: d in results && ParseCidr(read(results[d].destination)).Some? && resolve(results[d].nextHop).Some? ==>
              exists e :: e in t && e.proto == FromOspf && ParseCidr(read(results[d].destination)) == Some(e.network)
  {
    forall e | e in t && e.proto == FromOspf ensures exists d :: d in results && RowSays(e, results[d], read, resolve) {
      var d :| d in results && Usable(results[d], read, resolve) && e == RowOf(results[d], read, resolve);
      assert RowSays(e, results[d], read, resolve);
    }
    forall d | d in results && ParseCidr(read(results[d].destination)).Some? && resolve(results[d].nextHop).Some?
      ensures exists e :: e in t && e.proto == FromOspf && ParseCidr(read(results[d].destination)) == Some(e.network)
    {
      var row := RowOf(results[d], read, resolve);
      assert row in RowsOf(results, read, resolve);
      var e :| e in t && SameKey(e, row);
    }
  }

  lemma {:induction false} InsertIsLocal(t: seq<RouteEntry>, e: RouteEntry)
    ensures Without(Insert(t, e), e.proto) == Without(t, e.proto)
    ensures e in Insert(t, e) && forall x :: x in Insert(t, e) ==> x == e || x in t
    ensures forall x :: x in t && !SameKey(x, e) ==> x in Insert(t, e)
  {
    if t == [] {
      assert [e][1..] == [];
    } else if SameKey(t[0], e) {
      assert ([e] + t[1..])[1..] == t[1..];
      assert t == [t[0]] + t[1..];
    } else {
      InsertIsLocal(t[1..], e);
      assert ([t[0]] + Insert(t[1..], e))[1..] == Insert(t[1..], e);
      assert t == [t[0]] + t[1..];
    }
  }

  lemma InsertHoldsRow(t: seq<RouteEntry>, rows: set<RouteEntry>, row: RouteEntry)
    requires HoldsRows(t, rows) && row.proto == FromOspf
    ensures HoldsRows(Insert(t, row), rows + {row})
    ensures Without(Insert(t, row), FromOspf) == Without(t, FromOspf)
  {
    InsertIsLocal(t, row);
    forall r | r in rows + {row} ensures HasKey(Insert(t, row), r) {
      if r in rows {
        var e :| e in t && SameKey(e, r);
        assert e in Insert(t, row) || SameKey(row, r);
      } else {
        assert SameKey(row, r);
      }
    }
  }

  lemma {:induction false} WithoutNone(t: seq<RouteEntry>, proto: RouteProtocol)
    requires forall e :: e in t ==> e.proto != proto
    ensures Without(t, proto) == t
  {
    if t != [] {
      WithoutNone(t[1..], proto);
    }
  }

  ghost function Except(results: map<Id, SpfResult>, todo: set<Id>): map<Id, SpfResult> {
    map d | d in results && d !in todo :: results[d]
  }

  lemma RowsOfOneMore(results: map<Id, SpfResult>, todo: set<Id>, dest: Id,
                      read: Id -> Cidr, resolve: Id -> Option<(IPAddress, PortId)>)
    requires dest in todo && todo <= results.Keys
    ensures RowsOf(Except(results, todo - {dest}), read, resolve) ==
            RowsOf(Except(results, todo), read, resolve)
            + if Usable(results[dest], read, resolve) then {RowOf(results[dest], read, resolve)} else {}
  {
    var old', new' := Except(results, todo), Except(results, todo - {dest});
    assert forall d :: d in new' <==> d in old' || d == dest;
    forall d | d in old' && Usable(old'[d], read, resolve)
      ensures RowOf(old'[d], read, resolve) in RowsOf(new', read, resolve)
    {
      assert d in new';
    }
    if Usable(results[dest], read, resolve) {
      assert dest in new';
    }
  }

  /** One result: skipped when it is no block or its next hop is on no port. */
  method InstallResult(router: Router, spf: SpfResult, read: Id -> Cidr, resolve: Id -> Option<(IPAddress, PortId)>)
    modifies router`RoutingTable
    ensures router.RoutingTable ==
            if Usable(spf, read, resolve) then Insert(old(router.RoutingTable), RowOf(spf, read, resolve))
            else old(router.RoutingTable)
  {
    if ParseCidr(read(spf.destination)).None? {
      return;
    }
    var hop := resolve(spf.nextHop);
    if hop.None? {
      return;
    }
    var _ := router.AddRoute(read(spf.destination), hop.value.0, hop.value.1, spf.metric, FromOspf, 110);
  }

  /** The loop over the results. */
  method InstallResults(router: Router, results: map<Id, SpfResult>,
                        read: Id -> Cidr, resolve: Id -> Option<(IPAddress, PortId)>)
    requires forall d :: d in results ==> results[d].destination == d
    requires forall e :: e in router.RoutingTable ==> e.proto != FromOspf
    modifies router`RoutingTable
    ensures Without(router.RoutingTable, FromOspf) == old(router.RoutingTable)
    ensures HoldsRows(router.RoutingTable, RowsOf(results, read, resolve))
  {
    WithoutNone(router.RoutingTable, FromOspf);
    var todo := results.Keys;
    while todo != {}
      invariant todo <= results.Keys
      invariant Without(router.RoutingTable, FromOspf) == old(router.RoutingTable)
      invariant HoldsRows(router.RoutingTable, RowsOf(Except(results, todo), read, resolve))
      decreases todo
    {
      var dest :| dest in todo;
      ghost var before, rows := router.RoutingTable, RowsOf(Except(results, todo), read, resolve);
      RowsOfOneMore(results, todo, dest, read, resolve);
      InstallResult(router, results[dest], read, resolve);
      if Usable(results[dest], read, resolve) {
        InsertHoldsRow(before, rows, RowOf(results[dest], read, resolve));
      }
      todo := todo - {dest};
    }
    assert Except(results, {}) == results;
  }

  method RunOspfSPF(router: Router, ospf: OspfDaemon, read: Id -> Cidr, resolve: Id -> Option<(IPAddress, PortId)>)
    modifies router`RoutingTable
    ensures Without(router.RoutingTable, FromOspf) == Without(old(router.RoutingTable), FromOspf)
    ensures Proper(ospf.LSDB, ospf.RouterID) ==>
              Installed(ospf.LSDB, ospf.RouterID, old(router.RoutingTable), router.RoutingTable, read, resolve)
  {
    router.RemoveRoutesByProtocol(FromOspf);
    WithoutRows(old(router.RoutingTable), FromOspf);
    var results := ComputeSpf(ospf.LSDB, ospf.RouterID);
    InstallResults(router, results, read, resolve);
  }

  /** In every reachable state, whatever the adjacencies, a run of RunOspfSPF leaves a table without
      an OSPF row: destinations are router IDs, and the filter keeps CIDR blocks only. */
  lemma OspfInstallsNothing(run: Run, d: Id, before: seq<RouteEntry>, after: seq<RouteEntry>,
                            read: Id -> Cidr, resolve: Id -> Option<(IPAddress, PortId)>)
    requires Legal(run) && PlainIds(Start(run)) && ReadsBlocks(read)
    requires forall r :: r in Start(run).lsdbs ==> FromRouters(Start(run).lsdbs[r])
    requires d in Now(run).ids && d in Now(run).lsdbs
    requires Installed(Now(run).lsdbs[d], Now(run).ids[d], before, after, read, resolve)
    ensures Proper(Now(run).lsdbs[d], Now(run).ids[d])
    ensures after == Without(before, FromOspf)
  {
    FloodingKeepsKeys(run);
    IdsAreFixed(run);
    var lsdb := Now(run).lsdbs[d];
    var results: map<Id, SpfResult> :| Correct(lsdb, Now(run).ids[d], results) && HoldsRows(after, RowsOf(results, read, resolve));
    assert forall x :: x in results ==> x in lsdb && results[x].destination == x;
    assert forall x :: x in results ==> !Usable(results[x], read, resolve);
    WithoutNone(after, FromOspf);
  }
}
