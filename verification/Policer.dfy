/** Token-bucket policing per interface and traffic class. Times are nanoseconds; the buckets hold
    real numbers of tokens.
 */
module Policer {
  import opened Addressing

  /** The policed class of an interface. */
  datatype PoliceKey = PoliceKey(portID: string, className: string)

  datatype Bucket = Bucket(tokens: real, lastUpdate: int, rateKbps: int)

  type Buckets = map<PoliceKey, Bucket>

  function Seconds(ns: int): real {
    ns as real / 1_000_000_000.0
  }

  /** The tokens that a time span brings. */
  function Earned(rate: int, ns: int): real {
    rate as real * Seconds(ns) / 8.0
  }

  function Opened(b: Option<Bucket>, rate: int, now: int): Bucket {
    match b
    case None => Bucket(rate as real, now, rate)
    case Some(bucket) => bucket
  }

  function Refilled(b: Bucket, rate: int, now: int): Bucket {
    if now <= b.lastUpdate then b
    else
      var tokens := b.tokens + Earned(rate, now - b.lastUpdate);
      b.(tokens := if tokens > rate as real then rate as real else tokens, lastUpdate := now)
  }

  /** The packet passes. */
  predicate Admits(b: Option<Bucket>, rate: int, now: int) {
    Refilled(Opened(b, rate, now), rate, now).tokens >= 1.0
  }

  /** The bucket after a packet at time `now`. */
  function Charged(b: Option<Bucket>, rate: int, now: int): Bucket {
    var full := Refilled(Opened(b, rate, now), rate, now);
    if full.tokens < 1.0 then full else full.(tokens := full.tokens - 1.0)
  }

  function Lookup(bs: Buckets, key: PoliceKey): Option<Bucket> {
    if key in bs then Some(bs[key]) else None
  }

  // ---------------------------------------------------------------- classification

  datatype PolicyAction = SetDscp(value: int) | Priority | Police(rateKbps: int) | Bandwidth(share: int)

  datatype PolicyClass = PolicyClass(classMap: string, actions: seq<PolicyAction>)

  /** The service policy of each interface, the policy maps and the names of the class maps. */
  datatype QosConfig = QosConfig(
    ifaceQoS: map<string, string>, policyMaps: map<string, seq<PolicyClass>>, classMaps: set<string>)

  /** A packet leaving by a port; `matched` names the class maps that match it. */
  datatype Packet = Packet(portID: string, matched: set<string>, now: int)

  const DSCP_DEFAULT := 0
  const DSCP_EF := 46

  function ClassesOn(cfg: QosConfig, portID: string): seq<PolicyClass> {
    if portID in cfg.ifaceQoS && cfg.ifaceQoS[portID] in cfg.policyMaps then cfg.policyMaps[cfg.ifaceQoS[portID]] else []
  }

  function FirstMatch(cfg: QosConfig, classes: seq<PolicyClass>, matched: set<string>): (c: Option<PolicyClass>)
    ensures c.Some? ==> c.value in classes
  {
    if classes == [] then None
    else if classes[0].classMap in cfg.classMaps && classes[0].classMap in matched then Some(classes[0])
    else FirstMatch(cfg, classes[1..], matched)
  }

  /** The class that decides about a packet. */
  function ClassOf(cfg: QosConfig, p: Packet): Option<PolicyClass> {
    FirstMatch(cfg, ClassesOn(cfg, p.portID), p.matched)
  }

  datatype Verdict = Verdict(dscp: int, drop: bool, buckets: Buckets)

  /** The actions of the class in order, up to the first policer that drops. */
  function Run(bs: Buckets, key: PoliceKey, actions: seq<PolicyAction>, now: int, dscp: int): Verdict
    decreases |actions|
  {
    if actions == [] then Verdict(dscp, false, bs)
    else
      match actions[0]
      case SetDscp(value) => Run(bs, key, actions[1..], now, value)
      case Priority => Run(bs, key, actions[1..], now, DSCP_EF)
      case Bandwidth(_) => Run(bs, key, actions[1..], now, dscp)
      case Police(rate) =>
        var b := Lookup(bs, key);
        var bs' := bs[key := Charged(b, rate, now)];
        if Admits(b, rate, now) then Run(bs', key, actions[1..], now, dscp) else Verdict(dscp, true, bs')
  }

  function Processed(cfg: QosConfig, bs: Buckets, p: Packet): Verdict {
    match ClassOf(cfg, p)
    case None => Verdict(DSCP_DEFAULT, false, bs)
    case Some(c) => Run(bs, PoliceKey(p.portID, c.classMap), c.actions, p.now, 0)
  }

  // ---------------------------------------------------------------- the router's buckets

  class QoSPoliceBucket {
    var Tokens: real
    var LastUpdate: int
    var RateKbps: int

    constructor (tokens: real, lastUpdate: int, rateKbps: int)
      ensures Value() == Bucket(tokens, lastUpdate, rateKbps)
    {
      Tokens, LastUpdate, RateKbps := tokens, lastUpdate, rateKbps;
    }

    ghost function Value(): Bucket
      reads this
    {
      Bucket(Tokens, LastUpdate, RateKbps)
    }

    /** Refills for the time passed, then takes a token for the packet if there is one. */
    method Take(rateKbps: int, simTime: int) returns (drop: bool)
      modifies this
      ensures Value() == Charged(Some(old(Value())), rateKbps, simTime)
      ensures drop == !Admits(Some(old(Value())), rateKbps, simTime)
    {
      var elapsed := simTime - LastUpdate;
      if elapsed > 0 {
        Tokens := Tokens + rateKbps as real * Seconds(elapsed) / 8.0;
        if Tokens > rateKbps as real {
          Tokens := rateKbps as real;
        }
        LastUpdate := simTime;
      }
      if Tokens < 1.0 {
        return true;
      }
      Tokens := Tokens - 1.0;
      return false;
    }
  }

  class Router {
    var qosPolice: map<PoliceKey, QoSPoliceBucket>

    /** No two classes share a bucket. */
    ghost predicate Valid()
      reads this
    {
      forall a, b :: a in qosPolice && b in qosPolice && a != b ==> qosPolice[a] != qosPolice[b]
    }

    ghost function View(): Buckets
      reads this, qosPolice.Values
    {
      map k | k in qosPolice :: qosPolice[k].Value()
    }

    constructor ()
      ensures Valid() && View() == map[]
    {
      qosPolice := map[];
    }

    /** The bucket of the class, opened full when it is new. */
    method BucketFor(key: PoliceKey, rateKbps: int, simTime: int) returns (bucket: QoSPoliceBucket)
      requires Valid()
      modifies this
      ensures Valid() && key in qosPolice && qosPolice[key] == bucket && fresh(qosPolice.Values - old(qosPolice.Values))
      ensures View() == old(View())[key := Opened(Lookup(old(View()), key), rateKbps, simTime)]
    {
      if key !in qosPolice {
        var created := new QoSPoliceBucket(rateKbps as real, simTime, rateKbps);
        qosPolice := qosPolice[key := created];
      }
      bucket := qosPolice[key];
    }

    method ShouldPoliceDrop(portID: string, className: string, rateKbps: int, simTime: int) returns (drop: bool)
      requires Valid()
      modifies this, qosPolice.Values
      ensures Valid() && fresh(qosPolice.Values - old(qosPolice.Values))
      ensures var key := PoliceKey(portID, className);
              var b := Lookup(old(View()), key);
              View() == old(View())[key := Charged(b, rateKbps, simTime)] && drop == !Admits(b, rateKbps, simTime)
    {
      var key := PoliceKey(portID, className);
      var bucket := BucketFor(key, rateKbps, simTime);
      ghost var filed := View();
      assert filed[key] == bucket.Value();
      drop := bucket.Take(rateKbps, simTime);
      assert View() == filed[key := bucket.Value()];
    }

    method ApplyQoSToPacket(cfg: QosConfig, p: Packet) returns (dscp: int, drop: bool)
      requires Valid()
      modifies this, qosPolice.Values
      ensures Valid() && fresh(qosPolice.Values - old(qosPolice.Values))
      ensures Verdict(dscp, drop, View()) == Processed(cfg, old(View()), p)
    {
      if p.portID !in cfg.ifaceQoS {
        return DSCP_DEFAULT, false;
      }
      if cfg.ifaceQoS[p.portID] !in cfg.policyMaps {
        return DSCP_DEFAULT, false;
      }
      var classes := cfg.policyMaps[cfg.ifaceQoS[p.portID]];
      var i := 0;
      while i < |classes|
        invariant i <= |classes| && View() == old(View()) && qosPolice == old(qosPolice)
        invariant FirstMatch(cfg, classes[i..], p.matched) == ClassOf(cfg, p)
      {
        var pc := classes[i];
        if pc.classMap in cfg.classMaps && pc.classMap in p.matched {
          dscp, drop := RunActions(pc, p);
          return;
        }
        i := i + 1;
      }
      return DSCP_DEFAULT, false;
    }

    method RunActions(pc: PolicyClass, p: Packet) returns (dscp: int, drop: bool)
      requires Valid()
      modifies this, qosPolice.Values
      ensures Valid() && fresh(qosPolice.Values - old(qosPolice.Values))
      ensures Verdict(dscp, drop, View()) == Run(old(View()), PoliceKey(p.portID, pc.classMap), pc.actions, p.now, 0)
    {
      ghost var key := PoliceKey(p.portID, pc.classMap);
      dscp := 0;
      var i := 0;
      while i < |pc.actions|
        invariant i <= |pc.actions| && Valid() && fresh(qosPolice.Values - old(qosPolice.Values))
        invariant Run(View(), key, pc.actions[i..], p.now, dscp) == Run(old(View()), key, pc.actions, p.now, 0)
      {
        match pc.actions[i] {
          case SetDscp(value) => dscp := value;
          case Priority => dscp := DSCP_EF;
          case Police(rate) =>
            drop := ShouldPoliceDrop(p.portID, pc.classMap, rate, p.now);
            if drop {
              return;
            }
          case Bandwidth(_) =>
        }
        i := i + 1;
      }
      return dscp, false;
    }
  }

  // ---------------------------------------------------------------- one bucket over time

  /** The bucket after packets at these times, in any order of times. */
  function After(b: Option<Bucket>, rate: int, times: seq<int>): Option<Bucket>
    decreases |times|
  {
    if times == [] then b
    else Some(Charged(After(b, rate, times[..|times| - 1]), rate, times[|times| - 1]))
  }

  /** How many of them pass. */
  function PassedOf(b: Option<Bucket>, rate: int, times: seq<int>): nat
    decreases |times|
  {
    if times == [] then 0
    else
      var front := times[..|times| - 1];
      PassedOf(b, rate, front) + if Admits(After(b, rate, front), rate, times[|times| - 1]) then 1 else 0
  }

  predicate InRange(b: Option<Bucket>, rate: int) {
    b.Some? ==> 0.0 <= b.value.tokens <= rate as real
  }

  lemma EarnedAdds(rate: int, a: int, b: int)
    ensures Earned(rate, a + b) == Earned(rate, a) + Earned(rate, b)
  {
    assert Seconds(a + b) == Seconds(a) + Seconds(b);
    assert rate as real * Seconds(a + b) == rate as real * Seconds(a) + rate as real * Seconds(b);
  }

  lemma EarnedGrows(rate: int, a: int, b: int)
    requires rate >= 0 && a <= b
    ensures Earned(rate, a) <= Earned(rate, b) && Earned(rate, 0) == 0.0
  {
    var r, x, y := rate as real, Seconds(a), Seconds(b);
    assert r * (y - x) >= 0.0;
    assert Seconds(0) == 0.0;
  }

  /** A token takes 8 / rate seconds. */
  lemma EarnedIs(rate: int, ns: int)
    ensures Earned(rate, ns) == rate as real * ns as real / 8_000_000_000.0
    ensures Earned(rate, ns) >= 1.0 <==> rate * ns >= 8_000_000_000
  {
    assert (rate * ns) as real == rate as real * ns as real;
  }

  lemma ChargedInRange(b: Option<Bucket>, rate: int, now: int)
    requires rate >= 0 && InRange(b, rate)
    ensures InRange(Some(Charged(b, rate, now)), rate)
  {
    var o := Opened(b, rate, now);
    EarnedGrows(rate, 0, if now > o.lastUpdate then now - o.lastUpdate else 0);
  }

  lemma {:induction false} TokensInRange(b: Option<Bucket>, rate: int, times: seq<int>)
    requires rate >= 0 && InRange(b, rate)
    ensures InRange(After(b, rate, times), rate)
    decreases |times|
  {
    if times != [] {
      TokensInRange(b, rate, times[..|times| - 1]);
      ChargedInRange(After(b, rate, times[..|times| - 1]), rate, times[|times| - 1]);
    }
  }

  /** What passed plus what is left never exceeds one bucket plus what was earned in the window. */
  lemma {:induction false} Accounting(b: Option<Bucket>, rate: int, times: seq<int>, from: int, to: int)
    requires rate >= 0 && InRange(b, rate) && times != []
    requires forall t :: t in times ==> from <= t <= to
    ensures var c := After(b, rate, times);
            && c.Some? && from <= c.value.lastUpdate
            && PassedOf(b, rate, times) as real + c.value.tokens
               <= rate as real + Earned(rate, (if c.value.lastUpdate < to then c.value.lastUpdate else to) - from)
    decreases |times|
  {
    var front, now := times[..|times| - 1], times[|times| - 1];
    assert now in times;
    TokensInRange(b, rate, front);
    EarnedGrows(rate, 0, now - from);
    EarnedGrows(rate, 0, to - from);
    if front == [] {
      if b.Some? && b.value.lastUpdate < now {
        EarnedGrows(rate, 0, now - b.value.lastUpdate);
      } else if b.Some? && b.value.lastUpdate < to {
        EarnedGrows(rate, 0, b.value.lastUpdate - from);
      }
    } else {
      assert forall t :: t in front ==> t in times;
      Accounting(b, rate, front, from, to);
      var c := After(b, rate, front).value;
      EarnedAdds(rate, c.lastUpdate - from, now - c.lastUpdate);
    }
  }

  lemma BoundFrom(b: Option<Bucket>, rate: int, window: seq<int>, from: int, to: int)
    requires rate >= 0 && InRange(b, rate) && from <= to
    requires forall t :: t in window ==> from <= t <= to
    ensures PassedOf(b, rate, window) as real <= rate as real + Earned(rate, to - from)
  {
    EarnedGrows(rate, 0, to - from);
    if window != [] {
      Accounting(b, rate, window, from, to);
      TokensInRange(b, rate, window);
      var c := After(b, rate, window).value;
      EarnedGrows(rate, (if c.lastUpdate < to then c.lastUpdate else to) - from, to - from);
    }
  }

  /** Whatever the bucket did before, at most rate + rate * T / 8 packets pass in a window of T seconds. */
  lemma WindowBound(rate: int, history: seq<int>, window: seq<int>, from: int, to: int)
    requires rate >= 0 && from <= to && (forall t :: t in window ==> from <= t <= to)
    ensures PassedOf(After(None, rate, history), rate, window) as real
            <= rate as real + rate as real * (to - from) as real / 8_000_000_000.0
  {
    EarnedIs(rate, to - from);
    TokensInRange(None, rate, history);
    BoundFrom(After(None, rate, history), rate, window, from, to);
  }

  // A burst after silence.

  function Burst(now: int, n: nat): (s: seq<int>)
    ensures |s| == n && forall i :: 0 <= i < n ==> s[i] == now
  {
    seq(n, _ => now)
  }

  lemma BurstGrows(now: int, n: nat)
    requires n > 0
    ensures Burst(now, n)[..n - 1] == Burst(now, n - 1) && Burst(now, n)[n - 1] == now
  {}

  /** A full bucket passes as many packets of one instant as its rate, and keeps the rest. */
  lemma {:induction false} FullBucketBurst(b: Option<Bucket>, rate: nat, now: int, n: nat)
    requires Refilled(Opened(b, rate, now), rate, now).tokens == rate as real
    ensures PassedOf(b, rate, Burst(now, n)) == if n <= rate then n else rate
    ensures n > 0 ==>
              var c := After(b, rate, Burst(now, n));
              c.Some? && now <= c.value.lastUpdate && c.value.tokens == (if n <= rate then rate - n else 0) as real
    decreases n
  {
    if n > 0 {
      BurstGrows(now, n);
      FullBucketBurst(b, rate, now, n - 1);
    }
  }

  /** The bucket was last updated at one of the times. */
  lemma {:induction false} UpdatedAtOne(rate: int, times: seq<int>)
    requires times != []
    ensures var b := After(None, rate, times); b.Some? && b.value.lastUpdate in times
    decreases |times|
  {
    var front := times[..|times| - 1];
    assert times[|times| - 1] in times;
    if front != [] {
      UpdatedAtOne(rate, front);
      assert forall t :: t in front ==> t in times;
    }
  }

  lemma EightSecondsFill(rate: nat, ns: int)
    requires ns >= 8_000_000_000
    ensures Earned(rate, ns) >= rate as real
  {
    EarnedIs(rate, ns);
    var r, x := rate as real, ns as real;
    assert r * (x - 8_000_000_000.0) >= 0.0;
  }

  lemma FullAfterSilence(rate: nat, history: seq<int>, now: int)
    requires forall t :: t in history ==> now - t >= 8_000_000_000
    ensures Refilled(Opened(After(None, rate, history), rate, now), rate, now).tokens == rate as real
  {
    if history != [] {
      TokensInRange(None, rate, history);
      UpdatedAtOne(rate, history);
      EightSecondsFill(rate, now - After(None, rate, history).value.lastUpdate);
    }
  }

  /** After eight seconds of silence, and at first, exactly `rate` packets of one instant pass. */
  lemma BurstAfterSilence(rate: nat, history: seq<int>, now: int, n: nat)
    requires forall t :: t in history ==> now - t >= 8_000_000_000
    ensures PassedOf(After(None, rate, history), rate, Burst(now, n)) == if n <= rate then n else rate
  {
    FullAfterSilence(rate, history, now);
    FullBucketBurst(After(None, rate, history), rate, now, n);
  }

  /** A dropped packet costs nothing: later packets fare as if it had never come. */
  lemma DroppedCostsNothing(b: Bucket, rate: int, now: int, later: int)
    requires rate >= 1 && now <= later && !Admits(Some(b), rate, now)
    ensures var dropped := Charged(Some(b), rate, now);
            && Admits(Some(dropped), rate, later) == Admits(Some(b), rate, later)
            && Charged(Some(dropped), rate, later) == Charged(Some(b), rate, later)
  {
    if now > b.lastUpdate {
      EarnedAdds(rate, now - b.lastUpdate, later - now);
    }
  }

  /** Consecutive packets are at least 8 / rate seconds apart. */
  predicate Spaced(rate: int, times: seq<int>) {
    forall i :: 0 < i < |times| ==> rate * (times[i] - times[i - 1]) >= 8_000_000_000
  }

  /** No packet of such a stream is dropped. */
  lemma {:induction false} SpacedNeverDropped(rate: int, times: seq<int>)
    requires rate >= 1 && Spaced(rate, times)
    ensures PassedOf(None, rate, times) == |times|
    ensures times != [] ==> var b := After(None, rate, times); b.Some? && b.value.lastUpdate == times[|times| - 1]
    decreases |times|
  {
    if times != [] {
      var front := times[..|times| - 1];
      assert Spaced(rate, front) by {
        forall i | 0 < i < |front| ensures rate * (front[i] - front[i - 1]) >= 8_000_000_000 {
          assert rate * (times[i] - times[i - 1]) >= 8_000_000_000;
        }
      }
      SpacedNeverDropped(rate, front);
      TokensInRange(None, rate, front);
      if front != [] {
        var gap := times[|times| - 1] - times[|times| - 2];
        EarnedIs(rate, gap);
        assert Earned(rate, gap) >= 1.0;
        if gap <= 0 {
          EarnedGrows(rate, gap, 0);
          assert false;
        }
      }
    }
  }

  /** Below one token of rate a bucket never admits anything. */
  lemma {:induction false} TooSlowDropsAll(rate: int, times: seq<int>)
    requires rate < 1
    ensures PassedOf(None, rate, times) == 0
    ensures times != [] ==> var b := After(None, rate, times); b.Some? && b.value.tokens <= rate as real
    decreases |times|
  {
    if times != [] {
      TooSlowDropsAll(rate, times[..|times| - 1]);
    }
  }

  function Uniform(start: int, gap: nat, n: nat): (s: seq<int>)
    ensures |s| == n && forall i :: 0 <= i < n ==> s[i] == start + i * gap
  {
    seq(n, i => start + i * gap)
  }

  lemma UniformWithin(start: int, gap: nat, last: nat, i: nat)
    requires i <= last
    ensures start <= Uniform(start, gap, last + 1)[i] <= start + last * gap
  {
    assert 0 <= (last - i) * gap;
  }

  /** Some packet of a closer uniform stream is dropped. */
  lemma TooClose(rate: int, start: int, gap: nat, last: nat)
    requires rate >= 1 && Earned(rate, gap) < 1.0 && last == 8_000_000_000 * rate
    ensures PassedOf(None, rate, Uniform(start, gap, last + 1)) < last + 1
  {
    var times, end := Uniform(start, gap, last + 1), start + last * gap;
    forall i: nat | i < |times| ensures start <= times[i] <= end {
      UniformWithin(start, gap, last, i);
    }
    EarnsLess(rate, gap, last);
    BoundedBelow(rate, times, start, end, last + 1);
  }

  lemma BoundedBelow(rate: int, times: seq<int>, from: int, to: int, n: nat)
    requires rate >= 1 && from <= to && rate as real + Earned(rate, to - from) < n as real
    requires forall i: nat :: i < |times| ==> from <= times[i] <= to
    ensures PassedOf(None, rate, times) < n
  {
    BoundFrom(None, rate, times, from, to);
  }

  lemma EarnsLess(rate: int, gap: nat, last: nat)
    requires rate >= 1 && Earned(rate, gap) < 1.0 && last == 8_000_000_000 * rate
    ensures rate as real + Earned(rate, last * gap) < (last + 1) as real
  {
    assert (rate * gap) as real == rate as real * gap as real;
    assert Earned(rate, gap) == (rate * gap) as real / 8_000_000_000.0;
    assert rate * gap <= 7_999_999_999;
    assert last * (rate * gap) <= last * 7_999_999_999;
    assert (rate * (last * gap)) == last * (rate * gap);
    assert (rate * (last * gap)) as real == rate as real * (last * gap) as real;
    assert Earned(rate, last * gap) == (rate * (last * gap)) as real / 8_000_000_000.0;
    assert (last * 7_999_999_999) as real / 8_000_000_000.0 == last as real - rate as real;
  }

  ghost predicate NeverDrops(rate: int, start: int, gap: nat) {
    forall n: nat :: PassedOf(None, rate, Uniform(start, gap, n)) == n
  }

  /** The spacing is exact: a uniform stream is never dropped if and only if its gap is at least 8 / rate seconds. */
  lemma UniformNeverDroppedIff(rate: int, start: int, gap: nat)
    requires rate >= 1
    ensures NeverDrops(rate, start, gap) <==> rate * gap >= 8_000_000_000
  {
    EarnedIs(rate, gap);
    if Earned(rate, gap) >= 1.0 {
      forall n: nat ensures PassedOf(None, rate, Uniform(start, gap, n)) == n {
        UniformKept(rate, start, gap, n);
      }
    } else {
      var last := 8_000_000_000 * rate;
      TooClose(rate, start, gap, last);
    }
  }

  lemma UniformKept(rate: int, start: int, gap: nat, n: nat)
    requires rate >= 1 && rate * gap >= 8_000_000_000
    ensures PassedOf(None, rate, Uniform(start, gap, n)) == n
  {
    var times := Uniform(start, gap, n);
    forall i | 0 < i < n ensures times[i] - times[i - 1] == gap {
      assert i * gap - (i - 1) * gap == gap;
    }
    SpacedNeverDropped(rate, times);
  }

  // ---------------------------------------------------------------- the whole router

  /** The rates of the policers among the actions. */
  function PoliceRates(actions: seq<PolicyAction>): seq<int> {
    if actions == [] then []
    else (if actions[0].Police? then [actions[0].rateKbps] else []) + PoliceRates(actions[1..])
  }

  /** Every class of this name on this interface polices once, at this rate. */
  predicate PolicedAt(cfg: QosConfig, key: PoliceKey, rate: int) {
    forall c :: c in ClassesOn(cfg, key.portID) && c.classMap == key.className ==> PolicesOnce(c.actions, rate)
  }

  predicate PolicesOnce(actions: seq<PolicyAction>, rate: int) {
    exists i :: 0 <= i < |actions| && IsOnlyPolicer(actions, i, rate)
  }

  predicate IsOnlyPolicer(actions: seq<PolicyAction>, i: int, rate: int) {
    0 <= i < |actions| && actions[i] == Police(rate) && forall j :: 0 <= j < |actions| && j != i ==> !actions[j].Police?
  }

  lemma {:induction false} NoRates(actions: seq<PolicyAction>)
    requires forall j :: 0 <= j < |actions| ==> !actions[j].Police?
    ensures PoliceRates(actions) == []
    decreases |actions|
  {
    if actions != [] {
      NoRates(actions[1..]);
    }
  }

  lemma {:induction false} OneRate(actions: seq<PolicyAction>, rate: int)
    requires PolicesOnce(actions, rate)
    ensures PoliceRates(actions) == [rate]
    decreases |actions|
  {
    var i :| 0 <= i < |actions| && IsOnlyPolicer(actions, i, rate);
    if i == 0 {
      NoRates(actions[1..]);
    } else {
      assert IsOnlyPolicer(actions[1..], i - 1, rate);
      OneRate(actions[1..], rate);
    }
  }

  function KeyOf(cfg: QosConfig, p: Packet): Option<PoliceKey> {
    match ClassOf(cfg, p)
    case None => None
    case Some(c) => Some(PoliceKey(p.portID, c.classMap))
  }

  lemma {:induction false} RunOnePolicer(bs: Buckets, key: PoliceKey, actions: seq<PolicyAction>, now: int, dscp: int)
    requires |PoliceRates(actions)| <= 1
    ensures var v, rates, b := Run(bs, key, actions, now, dscp), PoliceRates(actions), Lookup(bs, key);
            if rates == [] then v.buckets == bs && !v.drop
            else v.buckets == bs[key := Charged(b, rates[0], now)] && v.drop == !Admits(b, rates[0], now)
    decreases |actions|
  {
    if actions != [] {
      var dscp' := match actions[0] case SetDscp(value) => value case Priority => DSCP_EF case _ => dscp;
      if actions[0].Police? {
        assert PoliceRates(actions)[1..] == PoliceRates(actions[1..]);
        RunOnePolicer(bs[key := Charged(Lookup(bs, key), actions[0].rateKbps, now)], key, actions[1..], now, dscp);
      } else {
        assert PoliceRates(actions) == PoliceRates(actions[1..]);
        RunOnePolicer(bs, key, actions[1..], now, dscp');
      }
    }
  }

  lemma {:induction false} RunTouchesOneBucket(bs: Buckets, key: PoliceKey, actions: seq<PolicyAction>, now: int, dscp: int, other: PoliceKey)
    requires other != key
    ensures Lookup(Run(bs, key, actions, now, dscp).buckets, other) == Lookup(bs, other)
    decreases |actions|
  {
    if actions != [] {
      var rest := actions[1..];
      match actions[0]
      case SetDscp(value) => RunTouchesOneBucket(bs, key, rest, now, value, other);
      case Priority => RunTouchesOneBucket(bs, key, rest, now, DSCP_EF, other);
      case Bandwidth(_) => RunTouchesOneBucket(bs, key, rest, now, dscp, other);
      case Police(rate) => RunTouchesOneBucket(bs[key := Charged(Lookup(bs, key), rate, now)], key, rest, now, dscp, other);
    }
  }

  /** What the packet is marked with: the last mark of the actions, or 0. */
  ghost predicate IsMark(actions: seq<PolicyAction>, dscp: int) {
    || (dscp == 0 && forall i :: 0 <= i < |actions| ==> !actions[i].SetDscp? && !actions[i].Priority?)
    || exists i :: MarksLast(actions, i, dscp)
  }

  predicate MarksLast(actions: seq<PolicyAction>, i: int, dscp: int) {
    && 0 <= i < |actions| && (actions[i] == SetDscp(dscp) || (actions[i] == Priority && dscp == 46))
    && forall j :: i < j < |actions| ==> !actions[j].SetDscp? && !actions[j].Priority?
  }

  lemma MarkGrows(actions: seq<PolicyAction>, a: PolicyAction, dscp: int)
    requires IsMark(actions, dscp)
    ensures IsMark(actions + [a], match a case SetDscp(value) => value case Priority => 46 case _ => dscp)
  {
    var all := actions + [a];
    if a.SetDscp? || a.Priority? {
      assert MarksLast(all, |actions|, if a.SetDscp? then a.value else 46);
    } else if i :| MarksLast(actions, i, dscp) {
      assert MarksLast(all, i, dscp);
    }
  }

  /** The actions that run are all of them, or those up to the policer that drops the packet; its
      mark is the last one among those. */
  lemma {:induction false} RunMarks(bs: Buckets, key: PoliceKey, done: seq<PolicyAction>, actions: seq<PolicyAction>, now: int, dscp: int)
      returns (n: nat)
    requires IsMark(done, dscp)
    ensures var v := Run(bs, key, actions, now, dscp);
            && n <= |actions| && (v.drop <==> n < |actions|) && (v.drop ==> actions[n].Police?)
            && IsMark(done + actions[..n], v.dscp)
    decreases |actions|
  {
    if actions == [] {
      n := 0;
      assert done + [] == done;
    } else {
      var a, rest := actions[0], actions[1..];
      var v := Run(bs, key, actions, now, dscp);
      if a.Police? && !Admits(Lookup(bs, key), a.rateKbps, now) {
        n := 0;
        assert done + actions[..0] == done;
      } else {
        MarkGrows(done, a, dscp);
        var bs' := if a.Police? then bs[key := Charged(Lookup(bs, key), a.rateKbps, now)] else bs;
        var dscp' := match a case SetDscp(value) => value case Priority => 46 case _ => dscp;
        var k := RunMarks(bs', key, done + [a], rest, now, dscp');
        n := k + 1;
        assert done + [a] + rest[..k] == done + actions[..n];
      }
    }
  }

  /** The class of the packet: the first of the interface's policy that exists and matches it. */
  ghost predicate Classifies(cfg: QosConfig, p: Packet, i: int) {
    && p.portID in cfg.ifaceQoS && cfg.ifaceQoS[p.portID] in cfg.policyMaps
    && var classes := cfg.policyMaps[cfg.ifaceQoS[p.portID]];
    && 0 <= i < |classes| && classes[i].classMap in cfg.classMaps && classes[i].classMap in p.matched
    && forall j :: 0 <= j < i ==> classes[j].classMap !in cfg.classMaps || classes[j].classMap !in p.matched
  }

  lemma {:induction false} FirstMatchIs(cfg: QosConfig, classes: seq<PolicyClass>, matched: set<string>, i: nat)
    requires i <= |classes|
    requires i < |classes| ==> classes[i].classMap in cfg.classMaps && classes[i].classMap in matched
    requires forall j :: 0 <= j < i ==> classes[j].classMap !in cfg.classMaps || classes[j].classMap !in matched
    ensures FirstMatch(cfg, classes, matched) == if i < |classes| then Some(classes[i]) else None
    decreases |classes|
  {
    if i > 0 {
      FirstMatchIs(cfg, classes[1..], matched, i - 1);
    }
  }

  /** A packet that no class of its interface's policy matches passes unmarked and uncharged. */
  lemma UnclassifiedPasses(cfg: QosConfig, bs: Buckets, p: Packet)
    requires p.portID in cfg.ifaceQoS && cfg.ifaceQoS[p.portID] in cfg.policyMaps ==>
               forall c :: c in cfg.policyMaps[cfg.ifaceQoS[p.portID]] ==> c.classMap !in cfg.classMaps || c.classMap !in p.matched
    ensures var v := Processed(cfg, bs, p); !v.drop && v.dscp == 0 && v.buckets == bs
  {
    var classes := ClassesOn(cfg, p.portID);
    FirstMatchIs(cfg, classes, p.matched, |classes|);
  }

  /** The first matching class decides: a packet it does not drop carries its last mark, the charge
      goes to that class on that interface, and without a policer nothing is charged or dropped. */
  lemma ClassDecides(cfg: QosConfig, bs: Buckets, p: Packet, i: int)
    requires Classifies(cfg, p, i)
    ensures var c, v := cfg.policyMaps[cfg.ifaceQoS[p.portID]][i], Processed(cfg, bs, p);
            && (!v.drop ==> IsMark(c.actions, v.dscp))
            && (forall k :: k != PoliceKey(p.portID, c.classMap) ==> Lookup(v.buckets, k) == Lookup(bs, k))
            && ((forall j :: 0 <= j < |c.actions| ==> !c.actions[j].Police?) ==> !v.drop && v.buckets == bs)
  {
    var classes := cfg.policyMaps[cfg.ifaceQoS[p.portID]];
    var c := classes[i];
    var key := PoliceKey(p.portID, c.classMap);
    FirstMatchIs(cfg, classes, p.matched, i);
    var n := RunMarks(bs, key, [], c.actions, p.now, 0);
    assert c.actions[..|c.actions|] == c.actions && [] + c.actions == c.actions;
    assert [] + c.actions[..n] == c.actions[..n];
    forall k | k != key ensures Lookup(Processed(cfg, bs, p).buckets, k) == Lookup(bs, k) {
      RunTouchesOneBucket(bs, key, c.actions, p.now, 0, k);
    }
    if forall j :: 0 <= j < |c.actions| ==> !c.actions[j].Police? {
      NoRates(c.actions);
      RunOnePolicer(bs, key, c.actions, p.now, 0);
    }
  }

  /** A class with one policer drops the packet exactly when its bucket has no token left. */
  lemma OnePolicerDecides(cfg: QosConfig, bs: Buckets, p: Packet, i: int, rate: int)
    requires Classifies(cfg, p, i) && PolicesOnce(cfg.policyMaps[cfg.ifaceQoS[p.portID]][i].actions, rate)
    ensures var c, v := cfg.policyMaps[cfg.ifaceQoS[p.portID]][i], Processed(cfg, bs, p);
            var b := Lookup(bs, PoliceKey(p.portID, c.classMap));
            v.drop == !Admits(b, rate, p.now) && v.buckets == bs[PoliceKey(p.portID, c.classMap) := Charged(b, rate, p.now)]
  {
    var classes := cfg.policyMaps[cfg.ifaceQoS[p.portID]];
    FirstMatchIs(cfg, classes, p.matched, i);
    OneRate(classes[i].actions, rate);
    RunOnePolicer(bs, PoliceKey(p.portID, classes[i].classMap), classes[i].actions, p.now, 0);
  }

  /** The same, by the rates of the policers. */
  predicate RatedAt(cfg: QosConfig, key: PoliceKey, rate: int) {
    forall c :: c in ClassesOn(cfg, key.portID) && c.classMap == key.className ==> PoliceRates(c.actions) == [rate]
  }

  /** What one packet does to a class's bucket. */
  lemma PacketStep(cfg: QosConfig, bs: Buckets, p: Packet, key: PoliceKey, rate: int)
    requires RatedAt(cfg, key, rate)
    ensures var v, b := Processed(cfg, bs, p), Lookup(bs, key);
            if KeyOf(cfg, p) == Some(key) then Lookup(v.buckets, key) == Some(Charged(b, rate, p.now)) && v.drop == !Admits(b, rate, p.now)
            else Lookup(v.buckets, key) == b
  {
    match ClassOf(cfg, p)
    case None =>
    case Some(c) =>
      var k := PoliceKey(p.portID, c.classMap);
      if k == key {
        RunOnePolicer(bs, key, c.actions, p.now, 0);
      } else {
        RunTouchesOneBucket(bs, k, c.actions, p.now, 0, key);
      }
  }

  /** The buckets after these packets. */
  function BucketsAfter(cfg: QosConfig, bs: Buckets, packets: seq<Packet>): Buckets
    decreases |packets|
  {
    if packets == [] then bs
    else Processed(cfg, BucketsAfter(cfg, bs, packets[..|packets| - 1]), packets[|packets| - 1]).buckets
  }

  /** How many packets of the class are not dropped. */
  function Delivered(cfg: QosConfig, bs: Buckets, packets: seq<Packet>, key: PoliceKey): nat
    decreases |packets|
  {
    if packets == [] then 0
    else
      var front, p := packets[..|packets| - 1], packets[|packets| - 1];
      Delivered(cfg, bs, front, key)
      + if KeyOf(cfg, p) == Some(key) && !Processed(cfg, BucketsAfter(cfg, bs, front), p).drop then 1 else 0
  }

  /** The times of the packets of the class. */
  function TimesOf(cfg: QosConfig, packets: seq<Packet>, key: PoliceKey): seq<int>
    decreases |packets|
  {
    if packets == [] then []
    else
      var front, p := packets[..|packets| - 1], packets[|packets| - 1];
      TimesOf(cfg, front, key) + if KeyOf(cfg, p) == Some(key) then [p.now] else []
  }

  lemma TimeMore(cfg: QosConfig, front: seq<Packet>, p: Packet, key: PoliceKey)
    ensures TimesOf(cfg, front + [p], key) == TimesOf(cfg, front, key) + if KeyOf(cfg, p) == Some(key) then [p.now] else []
  {
    assert (front + [p])[..|front|] == front;
  }

  lemma PacketMore(cfg: QosConfig, bs: Buckets, front: seq<Packet>, p: Packet, key: PoliceKey)
    ensures BucketsAfter(cfg, bs, front + [p]) == Processed(cfg, BucketsAfter(cfg, bs, front), p).buckets
    ensures Delivered(cfg, bs, front + [p], key)
         == Delivered(cfg, bs, front, key)
            + if KeyOf(cfg, p) == Some(key) && !Processed(cfg, BucketsAfter(cfg, bs, front), p).drop then 1 else 0
  {
    assert (front + [p])[..|front|] == front;
  }

  lemma TimeCharges(b: Option<Bucket>, rate: int, times: seq<int>, now: int)
    ensures After(b, rate, times + [now]) == Some(Charged(After(b, rate, times), rate, now))
    ensures PassedOf(b, rate, times + [now]) == PassedOf(b, rate, times) + if Admits(After(b, rate, times), rate, now) then 1 else 0
  {
    assert (times + [now])[..|times|] == times;
  }

  /** What one packet more does on both sides, in terms of the bucket that they agree on. */
  lemma SameStep(cfg: QosConfig, bs: Buckets, front: seq<Packet>, p: Packet, key: PoliceKey, rate: int, n: nat)
    requires RatedAt(cfg, key, rate)
    requires Lookup(BucketsAfter(cfg, bs, front), key) == After(Lookup(bs, key), rate, TimesOf(cfg, front, key))
    requires Delivered(cfg, bs, front, key) == n == PassedOf(Lookup(bs, key), rate, TimesOf(cfg, front, key))
    ensures Lookup(BucketsAfter(cfg, bs, front + [p]), key) == After(Lookup(bs, key), rate, TimesOf(cfg, front + [p], key))
    ensures Delivered(cfg, bs, front + [p], key) == PassedOf(Lookup(bs, key), rate, TimesOf(cfg, front + [p], key))
  {
    var times := TimesOf(cfg, front, key);
    PacketMore(cfg, bs, front, p, key);
    TimeMore(cfg, front, p, key);
    PacketStep(cfg, BucketsAfter(cfg, bs, front), p, key, rate);
    if KeyOf(cfg, p) == Some(key) {
      TimeCharges(Lookup(bs, key), rate, times, p.now);
    } else {
      assert times + [] == times;
    }
  }

  lemma {:induction false} RatedAreIsolated(cfg: QosConfig, bs: Buckets, packets: seq<Packet>, key: PoliceKey, rate: int)
    requires RatedAt(cfg, key, rate)
    ensures var times := TimesOf(cfg, packets, key);
            && Lookup(BucketsAfter(cfg, bs, packets), key) == After(Lookup(bs, key), rate, times)
            && Delivered(cfg, bs, packets, key) == PassedOf(Lookup(bs, key), rate, times)
    decreases |packets|
  {
    if packets != [] {
      var front, p := packets[..|packets| - 1], packets[|packets| - 1];
      RatedAreIsolated(cfg, bs, front, key, rate);
      SameStep(cfg, bs, front, p, key, rate, Delivered(cfg, bs, front, key));
      assert front + [p] == packets;
    }
  }

  /** A class's bucket sees exactly that class's packets. */
  lemma ClassesAreIsolated(cfg: QosConfig, bs: Buckets, packets: seq<Packet>, key: PoliceKey, rate: int)
    requires PolicedAt(cfg, key, rate)
    ensures var times := TimesOf(cfg, packets, key);
            && Lookup(BucketsAfter(cfg, bs, packets), key) == After(Lookup(bs, key), rate, times)
            && Delivered(cfg, bs, packets, key) == PassedOf(Lookup(bs, key), rate, times)
  {
    forall c | c in ClassesOn(cfg, key.portID) && c.classMap == key.className ensures PoliceRates(c.actions) == [rate] {
      OneRate(c.actions, rate);
    }
    RatedAreIsolated(cfg, bs, packets, key, rate);
  }

  lemma {:induction false} TimesWithin(cfg: QosConfig, packets: seq<Packet>, key: PoliceKey, from: int, to: int)
    requires forall p :: p in packets ==> from <= p.now <= to
    ensures forall t :: t in TimesOf(cfg, packets, key) ==> from <= t <= to
    decreases |packets|
  {
    if packets != [] {
      TimesWithin(cfg, packets[..|packets| - 1], key, from, to);
      assert packets[|packets| - 1] in packets;
    }
  }

  /** Over a whole run of packets of all classes, a class policed at one rate never exceeds it in any window. */
  lemma PolicingBound(cfg: QosConfig, history: seq<Packet>, window: seq<Packet>, key: PoliceKey, rate: int, from: int, to: int)
    requires PolicedAt(cfg, key, rate) && rate >= 0 && from <= to
    requires forall p :: p in window ==> from <= p.now <= to
    ensures Delivered(cfg, BucketsAfter(cfg, map[], history), window, key) as real
            <= rate as real + rate as real * (to - from) as real / 8_000_000_000.0
  {
    var bs := BucketsAfter(cfg, map[], history);
    ClassesAreIsolated(cfg, map[], history, key, rate);
    ClassesAreIsolated(cfg, bs, window, key, rate);
    TimesWithin(cfg, window, key, from, to);
    WindowBound(rate, TimesOf(cfg, history, key), TimesOf(cfg, window, key), from, to);
  }
}
