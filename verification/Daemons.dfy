/** The RIP and EIGRP processes of a router. */
module Daemons {
  import opened Addressing
  import opened DistanceVector

  const RIP_INFINITY := 16
  const EIGRP_STEP := 100_000

  class RipDaemon {
    var Enabled: bool
    var Routes: Table

    constructor ()
      ensures !Enabled && Routes == map[]
    {
      Enabled, Routes := false, map[];
    }

    /** A running process with these routes. */
    constructor Running(routes: Table)
      ensures Enabled && Routes == routes
    {
      Enabled, Routes := true, routes;
    }

    /** Bellman-Ford over the entries, first to last; reports the routes it wrote. */
    method ProcessUpdate(entries: seq<Entry>, senderIP: IPAddress, inInterface: PortId, simTime: int)
      returns (updated: seq<Route>)
      modifies this`Routes
      ensures Routes == Learn(RIP, old(Routes), entries, senderIP, inInterface, simTime)
      ensures updated == Learned(RIP, old(Routes), entries, senderIP, inInterface, simTime)
    {
      updated := [];
      for i := 0 to |entries|
        invariant Routes == Learn(RIP, old(Routes), entries[..i], senderIP, inInterface, simTime)
        invariant updated == Learned(RIP, old(Routes), entries[..i], senderIP, inInterface, simTime)
      {
        var entry := entries[i];
        assert entries[..i + 1][..i] == entries[..i];
        var newMetric := entry.metric + 1;
        if newMetric >= RIP_INFINITY {
          continue;
        }
        if entry.network !in Routes || newMetric < Routes[entry.network].metric {
          var route := Route(entry.network, senderIP, inInterface, newMetric, simTime);
          Routes := Routes[entry.network := route];
          updated := updated + [route];
        }
      }
      assert entries[..|entries|] == entries;
    }

    /** A copy of the route map as a list, in whatever order the map yields it. */
    method GetRoutes() returns (result: seq<Route>)
      ensures |result| == |Routes|
      ensures forall n :: n in Routes ==> Routes[n] in result
      ensures forall rt :: rt in result ==> exists n :: n in Routes && Routes[n] == rt
    {
      result := [];
      var todo := Routes.Keys;
      while todo != {}
        invariant todo <= Routes.Keys
        invariant |result| + |todo| == |Routes|
        invariant forall n :: n in Routes && n !in todo ==> Routes[n] in result
        invariant forall rt :: rt in result ==> exists n :: n in Routes && Routes[n] == rt
        decreases todo
      {
        var n :| n in todo;
        result := result + [Routes[n]];
        todo := todo - {n};
      }
    }

    /** The entries of a response, one for each route, in order. */
    method BuildUpdate(localRoutes: seq<Route>) returns (entries: seq<Entry>)
      ensures |entries| == |localRoutes|
      ensures forall i :: 0 <= i < |entries| ==> entries[i] == Entry(localRoutes[i].network, localRoutes[i].metric)
    {
      entries := [];
      for i := 0 to |localRoutes|
        invariant |entries| == i
        invariant forall k :: 0 <= k < i ==> entries[k] == Entry(localRoutes[k].network, localRoutes[k].metric)
      {
        entries := entries + [Entry(localRoutes[i].network, localRoutes[i].metric)];
      }
    }
  }

  class EigrpDaemon {
    var Enabled: bool
    var Routes: Table

    constructor ()
      ensures !Enabled && Routes == map[]
    {
      Enabled, Routes := false, map[];
    }

    /** A running process with these routes. */
    constructor Running(routes: Table)
      ensures Enabled && Routes == routes
    {
      Enabled, Routes := true, routes;
    }

    method ProcessUpdate(entries: seq<Entry>, sender: IPAddress, inIface: PortId, simTime: int)
      returns (updated: seq<Route>)
      modifies this`Routes
      ensures Routes == Learn(EIGRP, old(Routes), entries, sender, inIface, simTime)
      ensures updated == Learned(EIGRP, old(Routes), entries, sender, inIface, simTime)
    {
      updated := [];
      for i := 0 to |entries|
        invariant Routes == Learn(EIGRP, old(Routes), entries[..i], sender, inIface, simTime)
        invariant updated == Learned(EIGRP, old(Routes), entries[..i], sender, inIface, simTime)
      {
        var entry := entries[i];
        assert entries[..i + 1][..i] == entries[..i];
        var newMetric := entry.metric + EIGRP_STEP;
        if entry.network !in Routes || newMetric < Routes[entry.network].metric {
          var route := Route(entry.network, sender, inIface, newMetric, simTime);
          Routes := Routes[entry.network := route];
          updated := updated + [route];
        }
      }
      assert entries[..|entries|] == entries;
    }

    /** The local entries followed by the learned routes, in map order. */
    method GetAdvertisement(local: seq<Entry>) returns (advert: seq<Entry>)
      ensures local <= advert && |advert| == |local| + |Routes|
      ensures forall n :: n in Routes ==> Entry(Routes[n].network, Routes[n].metric) in advert
      ensures forall e :: e in advert ==> e in local || exists n :: n in Routes && e == Entry(Routes[n].network, Routes[n].metric)
    {
      advert := local;
      var todo := Routes.Keys;
      while todo != {}
        invariant todo <= Routes.Keys
        invariant local <= advert && |advert| + |todo| == |local| + |Routes|
        invariant forall n :: n in Routes && n !in todo ==> Entry(Routes[n].network, Routes[n].metric) in advert
        invariant forall e :: e in advert ==> e in local || exists n :: n in Routes && e == Entry(Routes[n].network, Routes[n].metric)
        decreases todo
      {
        var n :| n in todo;
        advert := advert + [Entry(Routes[n].network, Routes[n].metric)];
        todo := todo - {n};
      }
    }
  }
}
