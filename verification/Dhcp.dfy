/** DHCP address allocation from the pools of a router. */
module Dhcp {
  import opened Addressing

  /** An end of an excluded range: an IPv4 address, an IPv6 address, or neither. */
  datatype Endpoint = Four(addr: nat) | Six | Neither

  /** The words of an exclusion: none, one address text, or the two ends of a range. */
  datatype Exclusion = Blank | Single(ip: IPAddress) | Range(start: Endpoint, end: Endpoint)

  datatype DHCPPool = DHCPPool(
    network: Cidr, defaultRouter: IPAddress, dnsServer: IPAddress, excluded: seq<Exclusion>, leases: map<string, IPAddress>)

  datatype MessageType = Offer | Ack

  datatype DHCPPacket = DHCPPacket(
    messageType: MessageType, xid: int, yourIP: IPAddress, serverIP: IPAddress, gatewayIP: IPAddress, dnsServer: IPAddress, ones: nat)

  // ---------------------------------------------------------------- specification

  /** Interface addresses and exclusions that matter to an allocation. */
  datatype Surroundings = Surroundings(interfaces: map<string, IPAddress>, excluded: seq<Exclusion>)

  const FIRST_HOST := 2
  const HOST_LIMIT := 254

  function ToUint32(e: Endpoint): nat {
    if e.Four? then e.addr else 0
  }

  predicate Excludes(x: Exclusion, addr: nat) {
    match x
    case Blank => false
    case Single(ip) => ip == V4(addr)
    case Range(s, e) => !s.Neither? && !e.Neither? && ToUint32(s) <= addr <= ToUint32(e)
  }

  /** The address with this last octet next to the network's base address. */
  function Candidate(net: IPNet, host: nat): nat {
    net.base / 256 * 256 + host
  }

  /** A last octet that could ever be leased. */
  predicate Open(net: IPNet, here: Surroundings, host: nat) {
    && FIRST_HOST <= host < HOST_LIMIT && Contains(net, Candidate(net, host))
    && V4(Candidate(net, host)) !in here.interfaces.Values
    && forall x :: x in here.excluded ==> !Excludes(x, Candidate(net, host))
  }

  predicate Free(net: IPNet, here: Surroundings, leases: map<string, IPAddress>, host: nat) {
    Open(net, here, host) && V4(Candidate(net, host)) !in leases.Values
  }

  /** The lowest free octet, or the base address when there is none. */
  ghost predicate IsNextIp(net: IPNet, here: Surroundings, leases: map<string, IPAddress>, ip: IPAddress) {
    if forall h: nat :: !Free(net, here, leases, h) then ip == V4(net.base)
    else exists h: nat :: Free(net, here, leases, h) && ip == V4(Candidate(net, h))
                          && forall k: nat :: k < h ==> !Free(net, here, leases, k)
  }

  predicate HasLease(leases: map<string, IPAddress>, mac: string) {
    mac in leases && leases[mac] != UNSET
  }

  /** The client keeps its lease, or gets the next address. */
  ghost predicate IsGrant(net: IPNet, here: Surroundings, leases: map<string, IPAddress>, mac: string, ip: IPAddress) {
    if HasLease(leases, mac) then ip == leases[mac] else IsNextIp(net, here, leases, ip)
  }

  /** The pool answers on an interface with this address. */
  predicate Serves(pool: DHCPPool, interfaces: map<string, IPAddress>, inPort: string) {
    && ParseCidr(pool.network).Some? && inPort in interfaces && interfaces[inPort].V4?
    && Contains(ParseCidr(pool.network).value, interfaces[inPort].addr)
  }

  // ---------------------------------------------------------------- what it means

  /** Networks as ParseCidr yields them. */
  predicate Parsed(net: IPNet) {
    net.ones <= 32 && net.base < IPV4_SPACE && MaskBase(net.base, net.ones) == net.base
  }

  /** The exclusion covers the address; an IPv6 end of a range counts as address 0. */
  predicate Covers(x: Exclusion, addr: nat) {
    || x == Single(V4(addr))
    || (x.Range? && x.start.Four? && x.end.Four? && x.start.addr <= addr <= x.end.addr)
    || (x.Range? && x.start.Six? && x.end.Four? && addr <= x.end.addr)
    || (x.Range? && (x.start.Six? || x.start == Four(0)) && x.end.Six? && addr == 0)
  }

  lemma ExcludesIff(x: Exclusion, addr: nat)
    ensures Excludes(x, addr) <==> Covers(x, addr)
  {}

  /** An address that can be leased: in the block of the network and in the base's group of 256, its
      last octet between 2 and 253, on no interface, not excluded and not leased. */
  ghost predicate Available(net: IPNet, here: Surroundings, leases: map<string, IPAddress>, addr: nat) {
    && addr / 256 == net.base / 256 && 2 <= addr % 256 <= 253 && InBlock(net, addr)
    && (forall p :: p in here.interfaces ==> here.interfaces[p] != V4(addr))
    && (forall x :: x in here.excluded ==> !Covers(x, addr))
    && (forall m :: m in leases ==> leases[m] != V4(addr))
  }

  lemma ParsedContainsIff(net: IPNet, addr: nat)
    requires Parsed(net)
    ensures Contains(net, addr) <==> InBlock(net, addr)
  {
    ContainsIff(Block(net.base, net.ones), addr);
  }

  lemma AvailableIff(net: IPNet, here: Surroundings, leases: map<string, IPAddress>, addr: nat)
    requires Parsed(net)
    ensures Available(net, here, leases, addr) <==> addr == Candidate(net, addr % 256) && Free(net, here, leases, addr % 256)
  {
    ParsedContainsIff(net, addr);
    forall x | x in here.excluded ensures Excludes(x, addr) <==> Covers(x, addr) {
      ExcludesIff(x, addr);
    }
  }

  lemma CandidateParts(net: IPNet, host: nat)
    requires host < 256
    ensures Candidate(net, host) / 256 == net.base / 256 && Candidate(net, host) % 256 == host
  {}

  lemma FreeIsAvailable(net: IPNet, here: Surroundings, leases: map<string, IPAddress>, host: nat)
    requires Parsed(net) && Free(net, here, leases, host)
    ensures Candidate(net, host) % 256 == host && Available(net, here, leases, Candidate(net, host))
  {
    CandidateParts(net, host);
    AvailableIff(net, here, leases, Candidate(net, host));
  }

  /** The next address is the lowest available one, and the base address when there is none. */
  lemma NextIpIff(net: IPNet, here: Surroundings, leases: map<string, IPAddress>, ip: IPAddress)
    requires Parsed(net)
    ensures IsNextIp(net, here, leases, ip) <==>
            if forall a: nat :: !Available(net, here, leases, a) then ip == V4(net.base)
            else ip.V4? && Available(net, here, leases, ip.addr) && forall a: nat :: Available(net, here, leases, a) ==> ip.addr <= a
  {
    forall a: nat ensures Available(net, here, leases, a) <==> a == Candidate(net, a % 256) && Free(net, here, leases, a % 256) {
      AvailableIff(net, here, leases, a);
    }
    forall h: nat | Free(net, here, leases, h) ensures Candidate(net, h) % 256 == h && Available(net, here, leases, Candidate(net, h)) {
      FreeIsAvailable(net, here, leases, h);
    }
    if a: nat :| Available(net, here, leases, a) {
      if IsNextIp(net, here, leases, ip) {
        var h: nat :| Free(net, here, leases, h) && ip == V4(Candidate(net, h)) && forall k: nat :: k < h ==> !Free(net, here, leases, k);
        forall b: nat | Available(net, here, leases, b) ensures ip.addr <= b {
        }
      }
    }
  }

  /** A pool serves a port whose address is in the block that the pool's network text names. */
  lemma ServesIff(pool: DHCPPool, interfaces: map<string, IPAddress>, inPort: string)
    ensures Serves(pool, interfaces, inPort) <==>
            && ParseCidr(pool.network).Some? && inPort in interfaces && interfaces[inPort].V4?
            && InBlock(ParseCidr(pool.network).value, interfaces[inPort].addr)
  {
    if ParseCidr(pool.network).Some? && inPort in interfaces && interfaces[inPort].V4? {
      ContainsIff(pool.network, interfaces[inPort].addr);
    }
  }

  // ---------------------------------------------------------------- the router

  class Router {
    var Interfaces: map<string, IPAddress>
    var DHCPExcluded: seq<Exclusion>
    var DHCPPools: map<string, DHCPPool>

    constructor ()
      ensures Interfaces == map[] && DHCPExcluded == [] && DHCPPools == map[]
    {
      Interfaces, DHCPExcluded, DHCPPools := map[], [], map[];
    }

    ghost function Around(pool: DHCPPool): Surroundings
      reads this
    {
      Surroundings(Interfaces, pool.excluded + DHCPExcluded)
    }

    method IsIPExcluded(ip: nat, pool: DHCPPool) returns (r: bool)
      ensures r <==> exists x :: (x in pool.excluded || x in DHCPExcluded) && Covers(x, ip)
    {
      var ranges := pool.excluded + DHCPExcluded;
      var i := 0;
      while i < |ranges|
        invariant i <= |ranges| && forall k :: 0 <= k < i ==> !Covers(ranges[k], ip)
      {
        ExcludesIff(ranges[i], ip);
        if Excludes(ranges[i], ip) {
          return true;
        }
        i := i + 1;
      }
      assert forall x :: x in pool.excluded || x in DHCPExcluded ==> x in ranges;
      return false;
    }

    method UsedIn(m: map<string, IPAddress>, ip: IPAddress) returns (r: bool)
      ensures r <==> ip in m.Values
    {
      var todo := m.Keys;
      while todo != {}
        invariant todo <= m.Keys && forall k :: k in m && k !in todo ==> m[k] != ip
        decreases todo
      {
        var k :| k in todo;
        todo := todo - {k};
        if m[k] == ip {
          return true;
        }
      }
      return false;
    }

    method NextPoolIP(pool: DHCPPool, net: IPNet) returns (ip: IPAddress)
      ensures IsNextIp(net, Around(pool), pool.leases, ip)
    {
      for host := FIRST_HOST to HOST_LIMIT
        invariant forall k: nat :: k < host ==> !Free(net, Around(pool), pool.leases, k)
      {
        var candidate := Candidate(net, host);
        if !Contains(net, candidate) {
          continue;
        }
        var inUse := UsedIn(pool.leases, V4(candidate));
        var onInterface := UsedIn(Interfaces, V4(candidate));
        inUse := inUse || onInterface;
        if !inUse {
          inUse := IsIPExcluded(candidate, pool);
          forall x | x in Around(pool).excluded ensures Excludes(x, candidate) <==> Covers(x, candidate) {
            ExcludesIff(x, candidate);
          }
        }
        if !inUse {
          assert Free(net, Around(pool), pool.leases, host);
          return V4(candidate);
        }
      }
      return V4(net.base);
    }

    /** The first pool in map order that serves the interface answers; `server` names it. */
    method HandleDHCPDiscover(clientMAC: string, xid: int, inPort: string) returns (reply: Option<DHCPPacket>, ghost server: string)
      modifies this`DHCPPools
      ensures reply.None? ==> DHCPPools == old(DHCPPools) && forall p :: p in DHCPPools ==> !Serves(DHCPPools[p], Interfaces, inPort)
      ensures reply.Some? ==> server in old(DHCPPools) && Serves(old(DHCPPools)[server], Interfaces, inPort)
      ensures reply.Some? ==>
                var pool, net := old(DHCPPools)[server], ParseCidr(old(DHCPPools)[server].network).value;
                && IsGrant(net, Around(pool), pool.leases, clientMAC, reply.value.yourIP)
                && DHCPPools == old(DHCPPools)[server := pool.(leases := pool.leases[clientMAC := reply.value.yourIP])]
                && reply.value == DHCPPacket(Offer, xid, reply.value.yourIP, Interfaces[inPort], pool.defaultRouter, pool.dnsServer, net.ones)
    {
      server := "";
      var todo := DHCPPools.Keys;
      while todo != {}
        invariant todo <= DHCPPools.Keys && DHCPPools == old(DHCPPools)
        invariant forall p :: p in DHCPPools && p !in todo ==> !Serves(DHCPPools[p], Interfaces, inPort)
        decreases todo
      {
        var name :| name in todo;
        todo := todo - {name};
        var pool := DHCPPools[name];
        if ParseCidr(pool.network).None? {
          continue;
        }
        var net := ParseCidr(pool.network).value;
        if inPort !in Interfaces || !Interfaces[inPort].V4? || !Contains(net, Interfaces[inPort].addr) {
          continue;
        }
        var assignedIP := if clientMAC in pool.leases then pool.leases[clientMAC] else UNSET;
        if assignedIP == UNSET {
          assignedIP := NextPoolIP(pool, net);
        }
        DHCPPools := DHCPPools[name := pool.(leases := pool.leases[clientMAC := assignedIP])];
        server := name;
        return Some(DHCPPacket(Offer, xid, assignedIP, Interfaces[inPort], pool.defaultRouter, pool.dnsServer, net.ones)), name;
      }
      return None, server;
    }

    method HandleDHCPRequest(clientMAC: string, xid: int, inPort: string) returns (reply: Option<DHCPPacket>, ghost server: string)
      modifies this`DHCPPools
      ensures reply.None? ==> DHCPPools == old(DHCPPools) && forall p :: p in DHCPPools ==> !Serves(DHCPPools[p], Interfaces, inPort)
      ensures reply.Some? ==> server in old(DHCPPools) && Serves(old(DHCPPools)[server], Interfaces, inPort)
      ensures reply.Some? ==>
                var pool, net := old(DHCPPools)[server], ParseCidr(old(DHCPPools)[server].network).value;
                && IsGrant(net, Around(pool), pool.leases, clientMAC, reply.value.yourIP)
                && DHCPPools == old(DHCPPools)[server := pool.(leases := pool.leases[clientMAC := reply.value.yourIP])]
                && reply.value == DHCPPacket(Ack, xid, reply.value.yourIP, Interfaces[inPort], pool.defaultRouter, pool.dnsServer, net.ones)
    {
      reply, server := HandleDHCPDiscover(clientMAC, xid, inPort);
      if reply.Some? {
        reply := Some(reply.value.(messageType := Ack));
      }
    }
  }

  // ---------------------------------------------------------------- runs of one pool

  /** The grants of one pool, in order; interfaces and exclusions may differ at each. */
  datatype Run = Begin | Then(past: Run, mac: string, ip: IPAddress, here: Surroundings)

  function Assigned(run: Run): map<string, IPAddress> {
    match run
    case Begin => map[]
    case Then(past, mac, ip, _) => Assigned(past)[mac := ip]
  }

  ghost predicate Legal(net: IPNet, run: Run) {
    match run
    case Begin => true
    case Then(past, mac, ip, here) => Legal(net, past) && IsGrant(net, here, Assigned(past), mac, ip)
  }

  predicate Extends(run: Run, past: Run) {
    run == past || (run.Then? && Extends(run.past, past))
  }

  lemma {:induction false} LeasesAreInNetwork(net: IPNet, run: Run, mac: string)
    requires Parsed(net) && Legal(net, run) && mac in Assigned(run)
    ensures Assigned(run)[mac].V4? && Contains(net, Assigned(run)[mac].addr)
  {
    if mac in Assigned(run.past) {
      LeasesAreInNetwork(net, run.past, mac);
    }
  }

  /** A client's lease never changes. */
  lemma {:induction false} LeaseIsStable(net: IPNet, run: Run, past: Run, mac: string)
    requires Parsed(net) && Legal(net, run) && Extends(run, past) && mac in Assigned(past)
    ensures Legal(net, past) && mac in Assigned(run) && Assigned(run)[mac] == Assigned(past)[mac]
  {
    if run != past {
      LeaseIsStable(net, run.past, past, mac);
      LeasesAreInNetwork(net, run.past, mac);
    }
  }

  /** At the grant that ends the run every octet was closed or leased. */
  ghost predicate Exhausted(net: IPNet, run: Run) {
    run.Then? && !HasLease(Assigned(run.past), run.mac) && run.ip == V4(net.base)
    && forall h: nat :: !Free(net, run.here, Assigned(run.past), h)
  }

  /** Two clients share an address only if it is the base address, granted on exhaustion to the later one. */
  lemma {:induction false} SharedIsBase(net: IPNet, run: Run, a: string, b: string) returns (grant: Run)
    requires Parsed(net) && Legal(net, run) && a != b && a in Assigned(run) && b in Assigned(run)
    requires Assigned(run)[a] == Assigned(run)[b]
    ensures Assigned(run)[a] == V4(net.base)
    ensures Extends(run, grant) && Exhausted(net, grant) && grant.mac in {a, b}
  {
    var old', mac := Assigned(run.past), run.mac;
    if mac in old' {
      LeasesAreInNetwork(net, run.past, mac);
    }
    if a in old' && b in old' {
      grant := SharedIsBase(net, run.past, a, b);
    } else {
      var other := if mac == a then b else a;
      assert other in old' && run.ip == old'[other] && run.ip in old'.Values;
      grant := run;
    }
  }

  /** It happens: in a pool of one address, the router's own, two clients get that address. */
  lemma BaseIsShared(port: string)
    ensures var ip := V4(0x0A00_0001);
            var net, here := IPNet(0x0A00_0001, 32), Surroundings(map[port := ip], []);
            var run := Then(Then(Begin, "a", ip, here), "b", ip, here);
            Parsed(net) && Legal(net, run) && Assigned(run)["a"] == Assigned(run)["b"] == ip
  {
    var ip := V4(0x0A00_0001);
    var net, here := IPNet(0x0A00_0001, 32), Surroundings(map[port := ip], []);
    var first := Then(Begin, "a", ip, here);
    NextIsBase(net, here, map[]);
    NextIsBase(net, here, map["a" := ip]);
    assert Assigned(first) == map["a" := ip] && Legal(net, first);
  }

  lemma NextIsBase(net: IPNet, here: Surroundings, leases: map<string, IPAddress>)
    requires net == IPNet(0x0A00_0001, 32)
    ensures IsNextIp(net, here, leases, V4(net.base))
  {
    forall h: nat ensures !Free(net, here, leases, h) {
      assert Contains(net, Candidate(net, h)) <==> Candidate(net, h) == net.base;
    }
  }

  // ---------------------------------------------------------------- capacity

  /** The whole run happens in the same surroundings. */
  ghost predicate Within(run: Run, here: Surroundings) {
    run.Then? ==> run.here == here && Within(run.past, here)
  }

  /** Every address that can be leased: the open octets and the base address. */
  ghost function Leasable(net: IPNet, here: Surroundings): set<IPAddress> {
    (set h: nat | FIRST_HOST <= h < HOST_LIMIT && Open(net, here, h) :: V4(Candidate(net, h))) + {V4(net.base)}
  }

  /** These are the base address and every address that is available when nothing is leased. */
  lemma LeasableIff(net: IPNet, here: Surroundings, ip: IPAddress)
    requires Parsed(net)
    ensures ip in Leasable(net, here) <==> ip.V4? && (ip.addr == net.base || Available(net, here, map[], ip.addr))
  {
    if ip.V4? {
      AvailableIff(net, here, map[], ip.addr);
    }
    if ip in Leasable(net, here) && ip != V4(net.base) {
      var h: nat :| FIRST_HOST <= h < HOST_LIMIT && Open(net, here, h) && ip == V4(Candidate(net, h));
      FreeIsAvailable(net, here, map[], h);
    }
  }

  ghost predicate Distinct(m: map<string, IPAddress>) {
    forall a, b :: a in m && b in m && a != b ==> m[a] != m[b]
  }

  lemma {:induction false} GrantsAreLeasable(net: IPNet, run: Run, here: Surroundings)
    requires Legal(net, run) && Within(run, here)
    ensures Assigned(run).Values <= Leasable(net, here)
  {
    if run.Then? {
      GrantsAreLeasable(net, run.past, here);
      if HasLease(Assigned(run.past), run.mac) {
        assert run.ip in Assigned(run.past).Values;
      }
      assert run.ip in Leasable(net, here);
      assert forall v :: v in Assigned(run).Values ==> v == run.ip || v in Assigned(run.past).Values;
    }
  }

  lemma ValuesSplit(m: map<string, IPAddress>, k: string)
    requires k in m
    ensures m.Values == (m - {k}).Values + {m[k]}
  {
    var rest := m - {k};
    forall v | v in m.Values ensures v in rest.Values + {m[k]} {
      var x :| x in m && m[x] == v;
      assert x == k || (x in rest && rest[x] == v);
    }
    forall v | v in rest.Values + {m[k]} ensures v in m.Values {
      var x :| x in m && m[x] == v && (x == k || x in rest);
    }
  }

  lemma {:induction false} DistinctCounts(m: map<string, IPAddress>)
    requires Distinct(m)
    ensures |m.Values| == |m|
    decreases |m|
  {
    if m != map[] {
      var k :| k in m;
      DistinctCounts(m - {k});
      assert m.Keys == (m - {k}).Keys + {k};
      ValuesSplit(m, k);
    }
  }

  lemma SubsetCounts<T>(a: set<T>, b: set<T>)
    requires a <= b
    ensures |a| <= |b| && (|a| == |b| ==> a == b)
  {
    assert b == a + (b - a);
  }

  /** While an address is left, a new client gets one of its own. */
  lemma NewLeaseIsFresh(net: IPNet, here: Surroundings, leases: map<string, IPAddress>, ip: IPAddress)
    requires IsNextIp(net, here, leases, ip)
    ensures ip !in leases.Values <==> !(Leasable(net, here) <= leases.Values)
  {
    if forall h: nat :: !Free(net, here, leases, h) {
      forall x | x in Leasable(net, here) && x != V4(net.base) ensures x in leases.Values {
        var h: nat :| FIRST_HOST <= h < HOST_LIMIT && Open(net, here, h) && x == V4(Candidate(net, h));
        assert !Free(net, here, leases, h);
      }
    }
  }

  /** Addresses are shared exactly when there are more clients than leasable addresses. */
  lemma {:induction false} DistinctIffCapacity(net: IPNet, run: Run, here: Surroundings)
    requires Parsed(net) && Legal(net, run) && Within(run, here)
    ensures Distinct(Assigned(run)) <==> |Assigned(run)| <= |Leasable(net, here)|
  {
    GrantsAreLeasable(net, run, here);
    SubsetCounts(Assigned(run).Values, Leasable(net, here));
    if Distinct(Assigned(run)) {
      DistinctCounts(Assigned(run));
    } else {
      NotDistinctExceeds(net, run, here);
    }
  }

  lemma {:induction false} NotDistinctExceeds(net: IPNet, run: Run, here: Surroundings)
    requires Parsed(net) && Legal(net, run) && Within(run, here) && !Distinct(Assigned(run))
    ensures |Assigned(run)| > |Leasable(net, here)|
  {
    var was := Assigned(run.past);
    GrantsAreLeasable(net, run.past, here);
    SubsetCounts(was.Values, Leasable(net, here));
    if run.mac in was {
      LeasesAreInNetwork(net, run.past, run.mac);
      assert Assigned(run) == was;
      NotDistinctExceeds(net, run.past, here);
    } else {
      assert |Assigned(run)| == |was| + 1 by {
        assert Assigned(run).Keys == was.Keys + {run.mac};
      }
      if Distinct(was) {
        DistinctCounts(was);
        assert run.ip in was.Values;
        NewLeaseIsFresh(net, here, was, run.ip);
        SubsetCounts(Leasable(net, here), was.Values);
      } else {
        NotDistinctExceeds(net, run.past, here);
      }
    }
  }
}
