/** Cables between device ports, and the search for the far end of a port. */
module Topology {
  import opened Addressing

  datatype End = End(node: Id, port: PortId)

  datatype TopologyLink = TopologyLink(id: Id, source: End, target: End)

  /** What a router records of the far end of a port. */
  datatype PortNeighbor = PortNeighbor(routerID: Id, portID: PortId, remoteIP: IPAddress)

  /** The far end of the first link that touches this end. */
  function Peer(links: seq<TopologyLink>, at: End): Option<End> {
    if links == [] then None
    else if links[0].source == at then Some(links[0].target)
    else if links[0].target == at then Some(links[0].source)
    else Peer(links[1..], at)
  }

  predicate Touches(l: TopologyLink, at: End) {
    l.source == at || l.target == at
  }

  /** Each port is on at most one link. */
  ghost predicate UniquePorts(links: seq<TopologyLink>) {
    forall i, j, at :: 0 <= i < j < |links| && Touches(links[i], at) ==> !Touches(links[j], at)
  }

  lemma {:induction false} PeerTouches(links: seq<TopologyLink>, at: End)
    ensures Peer(links, at).Some? ==> exists l :: l in links && Touches(l, at) && Touches(l, Peer(links, at).value)
  {
    if links != [] && !Touches(links[0], at) {
      PeerTouches(links[1..], at);
    }
  }

  /** On unique ports the search is an involution: each end is the peer of its peer. */
  lemma {:induction false} PeerIsSymmetric(links: seq<TopologyLink>, at: End)
    requires UniquePorts(links) && Peer(links, at).Some?
    ensures Peer(links, Peer(links, at).value) == Some(at)
  {
    var far := Peer(links, at).value;
    if !Touches(links[0], at) {
      PeerTouches(links[1..], at);
      var l :| l in links[1..] && Touches(l, at) && Touches(l, far);
      var k :| 0 <= k < |links[1..]| && links[1..][k] == l;
      assert links[k + 1] == l;
      assert !Touches(links[0], far);
      PeerIsSymmetric(links[1..], at);
    }
  }

  /** Two ports served by the same far end are the same port. */
  lemma PeerIsInjective(links: seq<TopologyLink>, a: End, b: End)
    requires UniquePorts(links) && Peer(links, a).Some? && Peer(links, a) == Peer(links, b)
    ensures a == b
  {
    PeerIsSymmetric(links, a);
    PeerIsSymmetric(links, b);
  }

  /** A port found among the earlier links is not on the last one. */
  lemma LastIsElsewhere(links: seq<TopologyLink>, at: End)
    requires UniquePorts(links) && links != []
    ensures Peer(links[..|links| - 1], at).Some? ==> !Touches(links[|links| - 1], at)
  {
    var front := links[..|links| - 1];
    if Peer(front, at).Some? {
      PeerTouches(front, at);
      var l :| l in front && Touches(l, at);
      var k :| 0 <= k < |front| && front[k] == l;
      assert links[k] == l;
    }
  }

  /** The search in a list with one more link. */
  lemma {:induction false} PeerOfSnoc(links: seq<TopologyLink>, l: TopologyLink, at: End)
    ensures Peer(links + [l], at) == if Peer(links, at).Some? then Peer(links, at) else Peer([l], at)
  {
    if links == [] {
      assert links + [l] == [l];
    } else {
      assert (links + [l])[1..] == links[1..] + [l];
      PeerOfSnoc(links[1..], l, at);
    }
  }

  /** Manager.FindNeighborOnPort and Manager.ResolveLinkPeer share this scan. */
  method FindNeighborOnPort(links: seq<TopologyLink>, at: End) returns (far: Option<End>)
    ensures far == Peer(links, at)
  {
    for i := 0 to |links|
      invariant Peer(links, at) == Peer(links[i..], at)
    {
      assert links[i..][1..] == links[i + 1..];
      if links[i].source == at {
        return Some(links[i].target);
      }
      if links[i].target == at {
        return Some(links[i].source);
      }
    }
    return None;
  }

  /** The link leads from this end to the other. */
  predicate Joins(l: TopologyLink, at: End, far: End) {
    (l.source == at && l.target == far) || (l.target == at && l.source == far && l.source != at)
  }

  /** Ports are never shared: the far end is that of the one link that touches the port. */
  lemma {:induction false} PeerIff(links: seq<TopologyLink>, at: End, far: End)
    requires UniquePorts(links)
    ensures Peer(links, at) == Some(far) <==>
            exists l :: l in links && Joins(l, at, far)
  {
    if links != [] {
      var rest := links[1..];
      assert UniquePorts(rest) by {
        assert forall i :: 0 <= i < |rest| ==> rest[i] == links[i + 1];
      }
      PeerIff(rest, at, far);
      forall l | l in rest && Joins(l, at, far) ensures !Touches(links[0], at) {
        var k :| 0 <= k < |rest| && rest[k] == l;
        assert links[k + 1] == l && Touches(l, at);
      }
      if Peer(links, at) == Some(far) && !Touches(links[0], at) {
        var l :| l in rest && Joins(l, at, far);
        assert l in links;
      }
      if Touches(links[0], at) && Peer(links, at) == Some(far) {
        assert Joins(links[0], at, far);
      }
      assert forall l :: l in links <==> l == links[0] || l in rest;
    }
  }
}
