/** VLAN-aware learning switches: classification at ingress, tagging at egress, learning, and what
    a frame keeps along any path of switches.
 */
module Switching {
  import opened Addressing

  type VlanId = nat

  const VLAN_DEFAULT: VlanId := 1
  const MAC_BROADCAST := "FF:FF:FF:FF:FF:FF"

  datatype PortMode = Access | Trunk

  datatype PortConfig = PortConfig(mode: PortMode, accessVlan: VlanId, nativeVlan: VlanId, allowed: seq<VlanId>, up: bool)

  const DEFAULT_PORT := PortConfig(Access, VLAN_DEFAULT, VLAN_DEFAULT, [], true)

  datatype EthernetFrame = EthernetFrame(source: string, destination: string, tag: Option<VlanId>, payload: string)

  datatype MacKey = MacKey(vlan: VlanId, mac: string)

  datatype MacEntry = MacEntry(portID: PortId, lastSeen: int)

  type Frames = map<PortId, EthernetFrame>

  datatype State = State(ports: map<PortId, PortConfig>, macTable: map<MacKey, MacEntry>, vlans: set<VlanId>, blocked: set<PortId>)

  const NEW_SWITCH := State(map[], map[], {VLAN_DEFAULT}, {})

  // ---------------------------------------------------------------- specification

  /** The VLAN of the frames that cross the port without a tag. */
  function UntaggedVlan(cfg: PortConfig): VlanId {
    if cfg.mode.Trunk? then cfg.nativeVlan else cfg.accessVlan
  }

  /** The VLAN into which a frame arriving at the port is classified. */
  function IngressVlan(s: State, portID: PortId, frame: EthernetFrame): VlanId {
    if portID !in s.ports then VLAN_DEFAULT
    else if frame.tag.Some? && frame.tag.value != 0 then frame.tag.value
    else UntaggedVlan(s.ports[portID])
  }

  /** The VLANs that may leave by a configured port. */
  predicate Carries(cfg: PortConfig, vlan: VlanId) {
    match cfg.mode
    case Access => vlan == cfg.accessVlan
    case Trunk => cfg.allowed == [] || vlan in cfg.allowed
  }

  /** The frame as it leaves by the port, if it may. */
  function EgressFrame(s: State, portID: PortId, vlan: VlanId, frame: EthernetFrame): Option<EthernetFrame> {
    if portID !in s.ports then Some(frame)
    else
      var cfg := s.ports[portID];
      if !Carries(cfg, vlan) then None
      else Some(frame.(tag := if vlan == UntaggedVlan(cfg) then None else Some(vlan)))
  }

  predicate Usable(s: State, portID: PortId) {
    portID in s.ports && s.ports[portID].up && portID !in s.blocked
  }

  function Flooded(s: State, ingress: PortId, vlan: VlanId, frame: EthernetFrame): Frames {
    map p | p in s.ports && p != ingress && Usable(s, p) && EgressFrame(s, p, vlan, frame).Some?
      :: EgressFrame(s, p, vlan, frame).value
  }

  function Learned(s: State, ingress: PortId, frame: EthernetFrame, now: int): State {
    s.(macTable := s.macTable[MacKey(IngressVlan(s, ingress, frame), frame.source) := MacEntry(ingress, now)])
  }

  /** The frames that leave the switch, after learning. */
  function Forwarded(s: State, ingress: PortId, frame: EthernetFrame): Frames {
    var vlan := IngressVlan(s, ingress, frame);
    var key := MacKey(vlan, frame.destination);
    if frame.destination == MAC_BROADCAST || key !in s.macTable then Flooded(s, ingress, vlan, frame)
    else
      var out := s.macTable[key].portID;
      if out == ingress then map[]
      else match EgressFrame(s, out, vlan, frame)
           case None => map[]
           case Some(f) => map[out := f]
  }

  datatype Handled = Handled(s: State, out: Frames)

  function Handle(s: State, ingress: PortId, frame: EthernetFrame, now: int): Handled {
    if !Usable(s, ingress) then Handled(s, map[])
    else
      var s' := Learned(s, ingress, frame, now);
      Handled(s', Forwarded(s', ingress, frame))
  }

  function Configured(s: State, portID: PortId): PortConfig {
    if portID in s.ports then s.ports[portID] else DEFAULT_PORT
  }

  datatype Action =
    | Register(portID: PortId)
    | SetAccess(portID: PortId, vlan: VlanId)
    | SetTrunk(portID: PortId, native: VlanId, allowed: seq<VlanId>)
    | SetUp(portID: PortId, up: bool)
    | Create(vlan: VlanId)
    | Block(ports: set<PortId>)
    | Receive(portID: PortId, frame: EthernetFrame, now: int)

  /** The effect of an action; spanning tree may block any set of ports. */
  function Act(s: State, a: Action): State {
    match a
    case Register(p) => s.(ports := s.ports[p := Configured(s, p)])
    case SetAccess(p, v) =>
      s.(ports := s.ports[p := Configured(s, p).(mode := Access, accessVlan := v)], vlans := s.vlans + {v})
    case SetTrunk(p, native, allowed) =>
      s.(ports := s.ports[p := Configured(s, p).(mode := Trunk, nativeVlan := native, allowed := allowed)],
         vlans := s.vlans + {native} + set v | v in allowed)
    case SetUp(p, up) => s.(ports := s.ports[p := Configured(s, p).(up := up)])
    case Create(v) => s.(vlans := s.vlans + {v})
    case Block(ports) => s.(blocked := ports)
    case Receive(p, frame, now) => Handle(s, p, frame, now).s
  }

  // ---------------------------------------------------------------- the switch

  class Switch {
    var Ports: map<PortId, PortConfig>
    var MacTable: map<MacKey, MacEntry>
    var VLANs: set<VlanId>
    var BlockedPorts: set<PortId>

    function View(): State
      reads this
    {
      State(Ports, MacTable, VLANs, BlockedPorts)
    }

    constructor ()
      ensures View() == NEW_SWITCH
    {
      Ports, MacTable, VLANs, BlockedPorts := map[], map[], {VLAN_DEFAULT}, {};
    }

    method RegisterPort(portID: PortId)
      modifies this`Ports
      ensures View() == Act(old(View()), Register(portID)) && portID in Ports
    {
      if portID !in Ports {
        Ports := Ports[portID := DEFAULT_PORT];
      }
    }

    method SetPortAccessVLAN(portID: PortId, vlan: VlanId)
      modifies this`Ports, this`VLANs
      ensures View() == Act(old(View()), SetAccess(portID, vlan))
    {
      RegisterPort(portID);
      Ports := Ports[portID := Ports[portID].(mode := Access, accessVlan := vlan)];
      VLANs := VLANs + {vlan};
    }

    method SetPortTrunk(portID: PortId, native: VlanId, allowed: seq<VlanId>)
      modifies this`Ports, this`VLANs
      ensures View() == Act(old(View()), SetTrunk(portID, native, allowed))
    {
      RegisterPort(portID);
      Ports := Ports[portID := Ports[portID].(mode := Trunk, nativeVlan := native, allowed := allowed)];
      VLANs := VLANs + {native};
      ghost var configured := Ports;
      var i := 0;
      while i < |allowed|
        invariant i <= |allowed| && Ports == configured && VLANs == old(VLANs) + {native} + (set v | v in allowed[..i])
      {
        VLANs := VLANs + {allowed[i]};
        i := i + 1;
        assert allowed[..i] == allowed[..i - 1] + [allowed[i - 1]];
      }
      assert allowed[..|allowed|] == allowed;
    }

    method CreateVLAN(vlan: VlanId)
      modifies this`VLANs
      ensures View() == Act(old(View()), Create(vlan))
    {
      VLANs := VLANs + {vlan};
    }

    method SetPortUp(portID: PortId, up: bool)
      modifies this`Ports
      ensures View() == Act(old(View()), SetUp(portID, up))
    {
      RegisterPort(portID);
      Ports := Ports[portID := Ports[portID].(up := up)];
    }

    method Egress(portID: PortId, vlan: VlanId, wire: EthernetFrame) returns (out: Option<EthernetFrame>)
      ensures out == EgressFrame(View(), portID, vlan, wire)
    {
      if portID !in Ports {
        return Some(wire);
      }
      var cfg := Ports[portID];
      var frame := wire;
      if cfg.mode.Trunk? {
        var allowed := |cfg.allowed| == 0;
        var i := 0;
        while i < |cfg.allowed|
          invariant i <= |cfg.allowed| && (allowed <==> cfg.allowed == [] || vlan in cfg.allowed[..i])
        {
          if cfg.allowed[i] == vlan {
            allowed := true;
            break;
          }
          i := i + 1;
        }
        if !allowed {
          return None;
        }
        if vlan != cfg.nativeVlan {
          frame := frame.(tag := Some(vlan));
        } else {
          frame := frame.(tag := None);
        }
      } else {
        if vlan != cfg.accessVlan {
          return None;
        }
        frame := frame.(tag := None);
      }
      return Some(frame);
    }

    method FloodVLAN(ingressPort: PortId, vlan: VlanId, wire: EthernetFrame) returns (flooded: Frames)
      ensures flooded == Flooded(View(), ingressPort, vlan, wire)
    {
      flooded := map[];
      var todo := Ports.Keys;
      while todo != {}
        invariant todo <= Ports.Keys
        invariant flooded.Keys == Flooded(View(), ingressPort, vlan, wire).Keys - todo
        invariant forall p :: p in flooded ==> flooded[p] == Flooded(View(), ingressPort, vlan, wire)[p]
        decreases todo
      {
        var portID :| portID in todo;
        todo := todo - {portID};
        if portID == ingressPort || !Ports[portID].up || portID in BlockedPorts {
          continue;
        }
        var egress := Egress(portID, vlan, wire);
        if egress.Some? {
          flooded := flooded[portID := egress.value];
        }
      }
    }

    method HandleIncomingFrame(incomingPort: PortId, frame: EthernetFrame, simTime: int) returns (outbound: Frames)
      modifies this`MacTable
      ensures Handled(View(), outbound) == Handle(old(View()), incomingPort, frame, simTime)
    {
      if incomingPort !in Ports || !Ports[incomingPort].up || incomingPort in BlockedPorts {
        return map[];
      }
      var vlan := IngressVlan(View(), incomingPort, frame);
      MacTable := MacTable[MacKey(vlan, frame.source) := MacEntry(incomingPort, simTime)];
      outbound := map[];
      if frame.destination == MAC_BROADCAST {
        outbound := FloodVLAN(incomingPort, vlan, frame);
        return;
      }
      var key := MacKey(vlan, frame.destination);
      if key in MacTable && MacTable[key].portID != incomingPort {
        var egress := Egress(MacTable[key].portID, vlan, frame);
        if egress.Some? {
          outbound := outbound[MacTable[key].portID := egress.value];
        }
      } else if key !in MacTable {
        outbound := FloodVLAN(incomingPort, vlan, frame);
      }
    }
  }

  // ---------------------------------------------------------------- runs of one switch

  datatype History = Begin | Then(past: History, a: Action)

  function After(h: History): State {
    match h
    case Begin => NEW_SWITCH
    case Then(past, a) => Act(After(past), a)
  }

  ghost predicate LearnedPortsRegistered(s: State) {
    forall k :: k in s.macTable ==> s.macTable[k].portID in s.ports
  }

  /** Every learned port is registered, whatever happened. */
  lemma {:induction false} OnlyRegisteredPortsLearned(h: History)
    ensures LearnedPortsRegistered(After(h))
  {
    if h.Then? {
      OnlyRegisteredPortsLearned(h.past);
    }
  }

  /** The port at which the last frame of this station in this VLAN was accepted. */
  function LastArrival(h: History, key: MacKey): Option<MacEntry> {
    match h
    case Begin => None
    case Then(past, a) =>
      if a.Receive? && Usable(After(past), a.portID) && key == MacKey(IngressVlan(After(past), a.portID, a.frame), a.frame.source)
      then Some(MacEntry(a.portID, a.now))
      else LastArrival(past, key)
  }

  /** The table holds exactly the last arrivals. */
  lemma {:induction false} TableIsLastArrivals(h: History, key: MacKey)
    ensures LastArrival(h, key) == if key in After(h).macTable then Some(After(h).macTable[key]) else None
  {
    if h.Then? {
      TableIsLastArrivals(h.past, key);
    }
  }

  // ---------------------------------------------------------------- on the fields of a port

  /** At a port that is not registered, down or blocked a frame goes nowhere and teaches nothing. */
  lemma ClosedPortDrops(s: State, p: PortId, frame: EthernetFrame, now: int)
    requires p !in s.ports || !s.ports[p].up || p in s.blocked
    ensures Handle(s, p, frame, now) == Handled(s, map[])
  {}

  /** An untagged or priority-tagged frame enters the native VLAN of a trunk, and the access VLAN of an
      access port; any other tag is the VLAN itself. The sender is learned in that VLAN. */
  lemma EntersVlan(s: State, p: PortId, frame: EthernetFrame, now: int)
    requires p in s.ports && s.ports[p].up && p !in s.blocked
    ensures var vlan := IngressVlan(s, p, frame);
            && (frame.tag.Some? && frame.tag.value != 0 ==> vlan == frame.tag.value)
            && (frame.tag.None? || frame.tag.value == 0 ==> s.ports[p].mode.Trunk? ==> vlan == s.ports[p].nativeVlan)
            && (frame.tag.None? || frame.tag.value == 0 ==> s.ports[p].mode.Access? ==> vlan == s.ports[p].accessVlan)
            && Handle(s, p, frame, now).s == s.(macTable := s.macTable[MacKey(vlan, frame.source) := MacEntry(p, now)])
  {}

  /** A trunk takes every VLAN, or those of its list, and untags exactly its native one; an access
      port takes its access VLAN only, untagged. */
  lemma LeavesPort(s: State, p: PortId, vlan: VlanId, frame: EthernetFrame)
    requires p in s.ports
    ensures s.ports[p].mode.Trunk? ==>
              && (EgressFrame(s, p, vlan, frame).Some? <==> |s.ports[p].allowed| == 0 || vlan in s.ports[p].allowed)
              && (EgressFrame(s, p, vlan, frame).Some? ==>
                    EgressFrame(s, p, vlan, frame).value ==
                    EthernetFrame(frame.source, frame.destination, if vlan == s.ports[p].nativeVlan then None else Some(vlan), frame.payload))
    ensures s.ports[p].mode.Access? ==>
              EgressFrame(s, p, vlan, frame) ==
              if vlan == s.ports[p].accessVlan then Some(EthernetFrame(frame.source, frame.destination, None, frame.payload)) else None
  {}

  /** Configuring a port: a new one is an access port of VLAN 1 that is up; the rest stays. */
  lemma ConfigureMeaning(s: State, p: PortId, native: VlanId, vlan: VlanId, allowed: seq<VlanId>, up: bool)
    ensures var was := if p in s.ports then s.ports[p] else PortConfig(Access, 1, 1, [], true);
            && Act(s, Register(p)) == s.(ports := s.ports[p := was])
            && Act(s, SetUp(p, up)).ports == s.ports[p := PortConfig(was.mode, was.accessVlan, was.nativeVlan, was.allowed, up)]
            && Act(s, SetAccess(p, vlan)).ports == s.ports[p := PortConfig(Access, vlan, was.nativeVlan, was.allowed, was.up)]
            && Act(s, SetTrunk(p, native, allowed)).ports == s.ports[p := PortConfig(Trunk, was.accessVlan, native, allowed, was.up)]
            && Act(s, SetAccess(p, vlan)).vlans == s.vlans + {vlan} && Act(s, SetUp(p, up)).vlans == s.vlans
            && forall v :: v in Act(s, SetTrunk(p, native, allowed)).vlans <==> v in s.vlans || v == native || v in allowed
  {}

  // ---------------------------------------------------------------- one switch

  /** A switch in a reachable state forwards a frame classified into `vlan` out of `out`. */
  ghost predicate Crosses(h: History, ingress: PortId, frame: EthernetFrame, now: int, out: PortId, frame': EthernetFrame) {
    var r := Handle(After(h), ingress, frame, now);
    out in r.out && r.out[out] == frame'
  }

  /** What leaves: by another, registered port that carries the VLAN, tagged unless that is the
      port's own VLAN, and otherwise unchanged; never when the ingress port is unusable. */
  lemma CrossingMeaning(h: History, ingress: PortId, frame: EthernetFrame, now: int, out: PortId, frame': EthernetFrame)
    requires Crosses(h, ingress, frame, now, out, frame')
    ensures var s := After(h);
            var vlan := IngressVlan(s, ingress, frame);
            && Usable(s, ingress) && out != ingress && out in s.ports && Carries(s.ports[out], vlan)
            && frame' == frame.(tag := if vlan == UntaggedVlan(s.ports[out]) then None else Some(vlan))
            && (s.ports[out].mode.Access? ==> s.ports[out].accessVlan == vlan && frame'.tag.None?)
  {
    OnlyRegisteredPortsLearned(h);
    OnlyRegisteredPortsLearned(Then(h, Receive(ingress, frame, now)));
  }

  /** Where it leaves: a broadcast or unknown station goes to every usable port that carries the
      VLAN; a known station goes to its learned port alone, even if that port is down or blocked. */
  lemma WhereItLeaves(h: History, ingress: PortId, frame: EthernetFrame, now: int, out: PortId)
    requires Usable(After(h), ingress)
    ensures var s := After(h);
            var vlan := IngressVlan(s, ingress, frame);
            var home := LastArrival(Then(h, Receive(ingress, frame, now)), MacKey(vlan, frame.destination));
            out in Handle(s, ingress, frame, now).out <==>
              && out != ingress && out in s.ports
              && (if s.ports[out].mode.Trunk? then s.ports[out].allowed == [] || vlan in s.ports[out].allowed
                  else s.ports[out].accessVlan == vlan)
              && if frame.destination == "FF:FF:FF:FF:FF:FF" || home.None? then s.ports[out].up && out !in s.blocked
                 else out == home.value.portID
  {
    var h' := Then(h, Receive(ingress, frame, now));
    OnlyRegisteredPortsLearned(h');
    TableIsLastArrivals(h', MacKey(IngressVlan(After(h), ingress, frame), frame.destination));
  }

  /** It happens: a station is learned on a port, the port is set down, and a frame for the station
      still leaves there. */
  lemma DownPortStillForwards(p: PortId, q: PortId)
    requires p != q
    ensures var hello, answer := EthernetFrame("B", MAC_BROADCAST, None, ""), EthernetFrame("A", "B", None, "");
            var h := Then(Then(Then(Then(Begin, Register(p)), Register(q)), Receive(q, hello, 0)), SetUp(q, false));
            !Usable(After(h), q) && Crosses(h, p, answer, 1, q, answer)
  {
    var hello, answer := EthernetFrame("B", MAC_BROADCAST, None, ""), EthernetFrame("A", "B", None, "");
    var one := Then(Begin, Register(p));
    var two := Then(one, Register(q));
    var learned := Then(two, Receive(q, hello, 0));
    var h := Then(learned, SetUp(q, false));
    assert After(one) == NEW_SWITCH.(ports := map[p := DEFAULT_PORT]);
    assert After(two) == After(one).(ports := map[p := DEFAULT_PORT, q := DEFAULT_PORT]);
    assert After(learned) == After(two).(macTable := map[MacKey(1, "B") := MacEntry(q, 0)]);
    assert After(h) == After(learned).(ports := map[p := DEFAULT_PORT, q := DEFAULT_PORT.(up := false)]);
    assert |"B"| != |MAC_BROADCAST|;
  }

  // ---------------------------------------------------------------- between switches

  /** The next switch keeps the VLAN if and only if the two ends of the link agree on it. */
  lemma ReclassifiedIff(h: History, ingress: PortId, frame: EthernetFrame, now: int, out: PortId, frame': EthernetFrame,
                        next: History, entry: PortId)
    requires Crosses(h, ingress, frame, now, out, frame') && entry in After(next).ports
    requires IngressVlan(After(h), ingress, frame) != 0
    ensures out in After(h).ports
    ensures IngressVlan(After(next), entry, frame') == IngressVlan(After(h), ingress, frame) <==>
            LinkAgrees(After(h).ports[out], After(next).ports[entry], IngressVlan(After(h), ingress, frame))
  {
    CrossingMeaning(h, ingress, frame, now, out, frame');
  }

  /** If the VLAN crosses the link untagged, the far end puts untagged frames back into it. */
  predicate LinkAgrees(near: PortConfig, far: PortConfig, vlan: VlanId) {
    vlan == UntaggedVlan(near) ==> UntaggedVlan(far) == vlan
  }

  /** Trunks with one native VLAN agree on every VLAN, and only such trunks do; of an access port it
      is the access VLAN that counts. */
  lemma AgreesOnAll(near: PortConfig, far: PortConfig)
    ensures near.mode.Trunk? && far.mode.Trunk? ==> ((forall v :: LinkAgrees(near, far, v)) <==> near.nativeVlan == far.nativeVlan)
    ensures near.mode.Access? && far.mode.Access? ==> ((forall v :: LinkAgrees(near, far, v)) <==> near.accessVlan == far.accessVlan)
    ensures near.mode.Trunk? && far.mode.Access? ==> ((forall v :: LinkAgrees(near, far, v)) <==> near.nativeVlan == far.accessVlan)
    ensures near.mode.Access? && far.mode.Trunk? ==> ((forall v :: LinkAgrees(near, far, v)) <==> near.accessVlan == far.nativeVlan)
  {
    assert LinkAgrees(near, far, UntaggedVlan(near)) ==> UntaggedVlan(near) == UntaggedVlan(far);
  }

  /** One switch of a path: its past, the port by which the frame comes in and the one by which it goes. */
  datatype Hop = Hop(history: History, entry: PortId, exit: PortId, now: int)

  /** A path of switches, each in any reachable state: the frame that leaves one enters the next. */
  ghost predicate Travels(hops: seq<Hop>, frames: seq<EthernetFrame>) {
    && |frames| == |hops| + 1
    && forall i :: 0 <= i < |hops| ==> Travelled(hops[i], frames[i], frames[i + 1])
  }

  ghost predicate Travelled(hop: Hop, frame: EthernetFrame, frame': EthernetFrame) {
    Crosses(hop.history, hop.entry, frame, hop.now, hop.exit, frame')
  }

  function VlanAt(hop: Hop, frame: EthernetFrame): VlanId {
    IngressVlan(After(hop.history), hop.entry, frame)
  }

  /** The link from this hop to the next agrees on the VLAN. */
  predicate HopAgrees(hop: Hop, next: Hop, vlan: VlanId) {
    LinkAgrees(Configured(After(hop.history), hop.exit), Configured(After(next.history), next.entry), vlan)
  }

  lemma HopKeepsVlanIff(hop: Hop, next: Hop, frame: EthernetFrame, frame': EthernetFrame, frame'': EthernetFrame)
    requires Travelled(hop, frame, frame') && Travelled(next, frame', frame'') && VlanAt(hop, frame) != 0
    ensures VlanAt(next, frame') == VlanAt(hop, frame) <==> HopAgrees(hop, next, VlanAt(hop, frame))
  {
    CrossingMeaning(next.history, next.entry, frame', next.now, next.exit, frame'');
    CrossingMeaning(hop.history, hop.entry, frame, hop.now, hop.exit, frame');
    ReclassifiedIff(hop.history, hop.entry, frame, hop.now, hop.exit, frame', next.history, next.entry);
  }

  /** The link that follows hop number `i` agrees on the VLAN. */
  predicate AgreesAfter(hops: seq<Hop>, i: nat, v: VlanId)
    requires i + 1 < |hops|
  {
    HopAgrees(hops[i], hops[i + 1], v)
  }

  ghost predicate LinksAgree(hops: seq<Hop>, v: VlanId) {
    forall i: nat :: i + 1 < |hops| ==> AgreesAfter(hops, i, v)
  }

  ghost predicate StaysIn(hops: seq<Hop>, frames: seq<EthernetFrame>, v: VlanId)
    requires |frames| == |hops| + 1
  {
    forall i :: 0 <= i < |hops| ==> VlanAt(hops[i], frames[i]) == v
  }

  lemma StepKeeps(hops: seq<Hop>, frames: seq<EthernetFrame>, k: nat, v: VlanId)
    requires Travels(hops, frames) && k + 1 < |hops| && VlanAt(hops[k], frames[k]) == v != 0
    ensures VlanAt(hops[k + 1], frames[k + 1]) == v <==> AgreesAfter(hops, k, v)
  {
    assert Travelled(hops[k], frames[k], frames[k + 1]);
    assert Travelled(hops[k + 1], frames[k + 1], frames[k + 1 + 1]);
    HopKeepsVlanIff(hops[k], hops[k + 1], frames[k], frames[k + 1], frames[k + 2]);
  }

  lemma {:induction false} AgreementKeeps(hops: seq<Hop>, frames: seq<EthernetFrame>, k: nat, v: VlanId)
    requires Travels(hops, frames) && k < |hops| && VlanAt(hops[0], frames[0]) == v != 0 && LinksAgree(hops, v)
    ensures VlanAt(hops[k], frames[k]) == v
    decreases k
  {
    if k > 0 {
      AgreementKeeps(hops, frames, k - 1, v);
      StepKeeps(hops, frames, k - 1, v);
      assert AgreesAfter(hops, k - 1, v);
    }
  }

  /** Along any path a frame stays in its VLAN at every switch if and only if every link on the way
      agrees on that VLAN. */
  lemma VlanPreservedIff(hops: seq<Hop>, frames: seq<EthernetFrame>)
    requires Travels(hops, frames) && hops != [] && VlanAt(hops[0], frames[0]) != 0
    ensures var v := VlanAt(hops[0], frames[0]);
            StaysIn(hops, frames, v) <==> LinksAgree(hops, v)
  {
    var v := VlanAt(hops[0], frames[0]);
    if LinksAgree(hops, v) {
      forall k | 0 <= k < |hops| ensures VlanAt(hops[k], frames[k]) == v {
        AgreementKeeps(hops, frames, k, v);
      }
    }
    if StaysIn(hops, frames, v) {
      forall i: nat | i + 1 < |hops| ensures AgreesAfter(hops, i, v) {
        StepKeeps(hops, frames, i, v);
      }
    }
  }

  /** Through switches whose links agree, a frame never turns back, keeps its addresses and payload,
      and leaves an access port only of its own VLAN. */
  lemma {:induction false} VlanIsolation(hops: seq<Hop>, frames: seq<EthernetFrame>, k: nat)
    requires Travels(hops, frames) && k < |hops| && VlanAt(hops[0], frames[0]) != 0
    requires LinksAgree(hops, VlanAt(hops[0], frames[0]))
    ensures var s := After(hops[k].history);
            && hops[k].exit != hops[k].entry && hops[k].exit in s.ports
            && frames[k + 1].(tag := None) == frames[0].(tag := None)
            && (s.ports[hops[k].exit].mode.Access? ==> s.ports[hops[k].exit].accessVlan == VlanAt(hops[0], frames[0]))
    decreases k
  {
    AgreementKeeps(hops, frames, k, VlanAt(hops[0], frames[0]));
    assert Travelled(hops[k], frames[k], frames[k + 1]);
    CrossingMeaning(hops[k].history, hops[k].entry, frames[k], hops[k].now, hops[k].exit, frames[k + 1]);
    if k > 0 {
      VlanIsolation(hops, frames, k - 1);
    }
  }
}
