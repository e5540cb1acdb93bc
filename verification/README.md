# A verified model of the NetForge engine

NetForge is a discrete-event network simulator. Its engine, written in Go under `src-tauri/engine`,
schedules timed events, runs routing protocols over a topology of routers, switches frames between
VLANs, and keeps the state that the user interface shows. This project models the engine's stateful
core in Dafny and proves what it guarantees over whole runs. `dafny verify dfyconfig.toml` checks it.

| file | what it models |
|---|---|
| `Addressing.dfy`, `Topology.dfy`, `Listings.dfy` | addresses, masks and network texts; cables and the search for the far end of a port; sets and maps as lists in some order |
| `DistanceVector.dfy` | the theory of RIP (section 3.9.2 of RFC 2453) and EIGRP as the engine runs them: safety, loop freedom, convergence |
| `Daemons.dfy`, `Routers.dfy`, `RoutingTable.dfy` | the protocol daemons, a router's forwarding table, and its agreement with the RIP and EIGRP databases |
| `RoutedNetwork.dfy`, `RipNetwork.dfy`, `EigrpNetwork.dfy` | the manager's update cycles over all routers, for every order of map iteration, and how many of them suffice |
| `Spf.dfy`, `Ospf.dfy`, `OspfRouting.dfy` | the shortest-path computation (section 16.1 of RFC 2328), flooding and the merge of LSAs (section 13.1), the neighbour state machine (section 10.5), and the rows that come of it |
| `Scheduler.dfy`, `Timers.dfy`, `Ping.dfy` | the event heap with its virtual clock, the self-rescheduling protocol timers, and the ping sessions with their timeouts |
| `Simulation.dfy` | the run loop with timers and RIP together |
| `Policer.dfy` | token-bucket policing per interface and class |
| `Switching.dfy` | VLAN-aware learning switches joined by trunks (clause 8.6 of IEEE Std 802.1Q-2018) |
| `Dhcp.dfy` | address allocation from pools (section 4.3.1 of RFC 2131) |
| `RouterProcesses.dfy` | the router IDs that processes pick and the interfaces that OSPF statements enable |
| `Snapshots.dfy`, `RoundTrips.dfy`, `SnapshotManager.dfy` | export and import of the topology, adding and removing links, and when a round trip loses nothing |
| `LinkEffects.dfy`, `SnapshotFields.dfy` | what a link does to the devices at its ends, and which field of a snapshot holds which setting |
| `Removal.dfy` | removing a device and everything that refers to it |

How the model is built:

- A method guarded by a mutex is one atomic step. What proves something about many steps is an
  inductive history of events (`Trace`, `Run`, `History`, `Loop`), so the results hold for every
  reachable state and every interleaving of those steps.
- Go's map iteration is an arbitrary choice of the next key, so results hold for every order.
- The functions that specify methods have lemmas beside them that say, on fields and literal numbers,
  what they compute (`LinkEffects`, `SnapshotFields`, and lemmas named `...Iff` or `...Meaning`).
- The classes carry the fields that the engine updates in place; each method is proved against a
  function on values, and the lemmas are about those functions. The managers hold the state of all
  devices as values: a step loads a router, daemon or switch object from them, runs its methods and
  stores what changed.
- Times are unbounded integers of nanoseconds, IPv4 addresses are naturals with a prefix length,
  and floating-point numbers are exact reals.

Where the code departs from what one might expect, the model follows the code:

- RIP never accepts a worse metric from its own next hop and never withdraws a route
  (`src-tauri/engine/network/protocol/rip.go:130-147`). On a fixed topology this is what keeps
  routes free of loops; but a cable lost after convergence is never noticed
  (`DistanceVector.LossGoesUnnoticed`, `DistanceVector.LossKeepsSoundIff`).
- The forwarding table agrees with the RIP database only if networks are written canonically
  (`RoutingTable.AgreementIffCanonical`), which a mask that does not parse prevents
  (`RoutingTable.BadMaskBreaksAgreement`).
- Hellos list only neighbours in 2-WAY or FULL, so from empty tables no adjacency ever leaves INIT
  (`Ospf.NobodyLeavesInit`), and every LSA has sequence number 1, so the first one stored is final
  (`Ospf.FirstLsaIsFinal`). Even with adjacencies, RunOspfSPF looks for CIDR blocks among router
  IDs and installs nothing (`OspfRouting.OspfInstallsNothing`).
- A session is named by its source and start time, so a second ping of one source at one instant
  silently replaces the first (`Ping.LostIffOverwritten`).
- Echo identifiers are milliseconds modulo 65536 and then 65535, so a reply can complete another ping
  of the same source and destination that started in the same millisecond
  (`Ping.SameIdentifierIff`).
- A known station's frame leaves by its learned port even if that port is down or blocked
  (`Switching.WhereItLeaves`, `Switching.DownPortStillForwards`).
- An exhausted DHCP pool hands out the base address of the network again and again
  (`Dhcp.SharedIsBase`, `Dhcp.BaseIsShared`, `Dhcp.DistinctIffCapacity`).
- A process picks its router ID once, from the addresses present at that moment, and OSPF looks for
  matching interfaces only when statements are configured. A snapshot holds neither, so loading one
  changes the IDs and OSPF interfaces of routers that got addresses later
  (`RoundTrips.RoundTripIff`, `RoundTrips.AddLinkSettlesIff`, `RoundTrips.LateAddressChangesOspf`).
  With an unset address on an interface the ID even depends on the map order
  (`RouterProcesses.MayPickIff`).
- A round trip through a snapshot loses the mode, VLAN and status of switch ports, and changes a
  host's uplink after a cable was removed (`RoundTrips.PortSettingsAreLost`,
  `RoundTrips.RemovedCableIsNotRestored`).
- The comment in `src-tauri/engine/network/topology_ops.go:11-17` promises that removing a device
  clears every ARP, IKE and OSPF entry, route and ping that points at it. The code never collects the
  addresses of firewalls and phones nor the private address of a gateway, and OSPF entries are
  stored under a router ID that need not be an address (`Removal.RouterForgetsIff`,
  `Removal.FirewallIsRemembered`, `Removal.OspfIdIsRemembered`), and it cancels only the pings of
  the device (`Ping.SurvivesRemovalIff`, `Removal.PingOutlivesItsTarget`).
- Removing a host without an address deletes unrelated static routes that have no next hop
  (`Removal.OnlyItsRoutesIff`), although the comment in
  `src-tauri/engine/network/topology_ops.go:194` promises to keep static routes unless their next
  hop is the removed device.

## Model

| member | source | states |
|---|---|---|
| Addressing.PrintedIsCanonical | src-tauri/engine/network/router.go:27-31 | A network text that parses prints back in canonical form, and parsing that text again yields the same network, whatever host bits the text carried. |
| Addressing.ParsedIff | src-tauri/engine/network/router.go:27-31 | A network text parses exactly when it is an IPv4 address with a prefix length of at most 32. |
| Addressing.ParsedBlock | src-tauri/engine/network/router.go:27-31 | A network text that parses names the block of 2^(32-n) addresses, starting at a multiple of its size, that the written address is in. |
| Addressing.ContainsIff | src-tauri/engine/network/router.go:341 | A parsed network contains an address if and only if the address is in that block. |
| Addressing.InterfaceNetwork | src-tauri/engine/network/router.go:193-198 | The network of an interface is the aligned block of its address at the length of its mask, /24 when no mask is recorded; a mask that does not parse leaves the host bits in. |
| Addressing.DottedQuad | src-tauri/engine/network/router_services.go:449-455 | An address prints as its four bytes in decimal, most significant first. |
| Addressing.DecimalValue | src-tauri/engine/network/router_forward.go:104 | A number prints as the digits that denote it, so different numbers print differently. |
| Topology.PeerIsSymmetric | src-tauri/engine/network/manager.go:239-252 | When every port is on at most one cable, the far end's far end is the port itself. |
| Topology.PeerIsInjective | src-tauri/engine/network/manager.go:239-252 | Two ports served by one far end are the same port, so an interface hears one sender only. |
| Topology.FindNeighborOnPort | src-tauri/engine/network/manager.go:239-252 | The scan returns the far end of the first cable that touches the port, and none when no cable does. |
| Topology.PeerIff | src-tauri/engine/network/manager.go:170-190 | On unique ports the search finds a far end exactly when some cable joins the two ports. |
| Daemons.RipDaemon.ProcessUpdate | src-tauri/engine/network/protocol/rip.go:124-151 | The in-place update of the route map is the fold of single relaxations: one hop is added, 16 and above is refused, and only a strictly better metric replaces a route, even one from the same next hop; every replacement is reported, in order. |
| Daemons.RipDaemon.GetRoutes | src-tauri/engine/network/protocol/rip.go:154-164 | The list holds every route of the map once and nothing else, in map order. |
| Daemons.RipDaemon.BuildUpdate | src-tauri/engine/network/protocol/rip.go:105-121 | One entry per route, same order, same network and metric. |
| Daemons.EigrpDaemon.ProcessUpdate | src-tauri/engine/network/protocol/eigrp.go:64-82 | The same relaxation with a step of 100000 and no upper limit. |
| Daemons.EigrpDaemon.GetAdvertisement | src-tauri/engine/network/protocol/eigrp.go:84-92 | The local entries first, then every learned route once, in map order. |
| RipNetwork.CableAddsItsFeeds | src-tauri/engine/network/manager.go:129-160 | What recording the neighbours of a new cable means: when both ports are free, addressed and up and both routers run RIP, every later update cycle has exactly the two directions of that cable as feeds more, each with the sender's interface address, and no other feed comes or goes. |
| RipNetwork.CableReconverges | src-tauri/engine/network/manager.go:122-167 | Adding such a cable to a running network keeps all RIP routes sound at once, and fourteen more cycles converge the larger network. |
| RipNetwork.CableIsRecorded | src-tauri/engine/network/manager.go:149-160 | Each router records, under its own port, the address of the other router's port. |
| RipNetwork.FeedIff | src-tauri/engine/network/protocol_wire.go:64-121 | Exactly when an update crosses a cable: both routers run RIP, a cable joins the two ports, the receiving interface is up and not shut down, one of the two ports has a recorded neighbour, and the receiver sees the sender's interface address. |
| RipNetwork.SoundHops | src-tauri/engine/network/protocol_wire.go:65-117 | In every sound state each route goes through a cabled port to the address of the interface at its far end. |
| DistanceVector.LearnMeaning | src-tauri/engine/network/protocol/rip.go:130-147 | Network by network, an update leaves the minimum of the old metric and the accepted offers; a changed route comes from an accepted entry and is strictly better. |
| DistanceVector.ProtocolsMeaning | src-tauri/engine/network/protocol/rip.go:130-147 | The numbers of the two protocols: RIP cuts metrics to 16 bits on the wire, adds 1 and accepts below 16, EIGRP adds 100000 without a limit, and both replace only a strictly worse route. |
| DistanceVector.HonestSurvivesWire | src-tauri/engine/network/protocol_wire.go:68-72 | The 16-bit metric field of a frame never truncates a metric that a sound network advertises. |
| DistanceVector.DeliverSound | src-tauri/engine/network/protocol/rip.go:130-147 | The safety step: delivering an honest update over any cable keeps every route of the network backed by its next hop, strictly lower by one step. |
| DistanceVector.FirstRouteIsSound | src-tauri/engine/network/protocol/rip.go:136-147 | Sound states do carry routes: the first delivery of a connected network over a cable is learned one step farther. |
| DistanceVector.LegalIsSound | src-tauri/engine/network/protocol_wire.go:105-117 | Safety over whole runs: in every state of every interleaving of deliveries, with updates that may be old, all routes are backed by their next hops and no table gets worse. |
| DistanceVector.HopDescends | src-tauri/engine/network/protocol/rip.go:130-147 | The next hop of a route exists and is connected to the network or strictly nearer to it. |
| DistanceVector.NoRevisit | src-tauri/engine/network/protocol/rip.go:130-147 | Loop freedom in every sound state: a chain of next hops for one network, of any length, visits no router twice. |
| DistanceVector.Progress | src-tauri/engine/network/protocol/rip.go:130-147 | A chain of next hops never ends at a router that is neither connected nor has a route. |
| DistanceVector.Arrives | src-tauri/engine/network/protocol/rip.go:130-147 | From every router with a route, following next hops ends at a router connected to the network, within as many hops as its metric allows. |
| DistanceVector.RipMetricRange | src-tauri/engine/network/protocol/rip.go:136-139 | In every sound state RIP metrics lie between 2 and 15. |
| DistanceVector.Convergence | src-tauri/engine/network/manager.go:348-381 | After k whole cycles, in any order of routers and ports, a router whose shortest chain of j at most k cables leads to the network holds exactly the metric of j cables; the same statement covers RIP and EIGRP. |
| DistanceVector.RipConvergedAfter14 | src-tauri/engine/network/manager.go:348-381 | Fourteen RIP cycles suffice on any network: no offer it can make improves a table any more. |
| DistanceVector.RipReachability | src-tauri/engine/network/manager.go:348-381 | Once converged, a router has a RIP route to a network it learns about if and only if a chain of 1 to 14 cables leads there. |
| DistanceVector.ConvergedIsStable | src-tauri/engine/network/manager.go:348-381 | In a converged state an honest update replaces not one route. |
| DistanceVector.ConvergedStays | src-tauri/engine/network/manager.go:348-381 | From a converged state no run of deliveries, however interleaved, changes any database. |
| DistanceVector.FullTraceIsCycle | src-tauri/engine/network/manager.go:348-381 | Any order of deliveries that uses every cable at least once achieves what a cycle achieves, although a router takes its snapshot once per turn. |
| DistanceVector.SoundSurvivesGrowth | src-tauri/engine/network/manager.go:122-167 | When cables and networks are added, every route stays backed by its next hop, so a growing network never loops. |
| DistanceVector.LossGoesUnnoticed | src-tauri/engine/network/protocol/rip.go:130-147 | When cables are lost after convergence, no run of deliveries over those that are left ever withdraws or replaces a route. |
| DistanceVector.LossKeepsSoundIff | src-tauri/engine/network/protocol/rip.go:130-147 | The exact condition for that to do no harm: after convergence, what is left keeps every route sound if and only if every route arrives over a cable that is left. |
| DistanceVector.RipMetric | src-tauri/engine/network/protocol/rip.go:11-16 | The metric of a network j cables away is 1 + j. |
| DistanceVector.EigrpMetric | src-tauri/engine/network/router.go:239-253 | The EIGRP metric of a network j cables away is 100 + 100000 j. |
| RipNetwork.Manager.HandleWireRip | src-tauri/engine/network/protocol_wire.go:105-121 | The receiving router's database becomes the relaxation of the old one, and its table gets every reported route in order; no other router changes. |
| RipNetwork.Manager.SendRipUpdateOnWire | src-tauri/engine/network/protocol_wire.go:64-88 | A send delivers to the far end of the cable exactly when a router with RIP on and the interface up is there; the state stays that of a legal run, so what the receiver learns has the sender's interface address as its next hop (RipNetwork.FeedIff). |
| RipNetwork.Manager.BuildResponse | src-tauri/engine/network/router.go:188-214 | The response lists every connected network at metric 1 and every learned route at its metric, and nothing else. |
| RipNetwork.Manager.ExchangeOnPort | src-tauri/engine/network/manager.go:356-378 | One port of a turn uses every cable direction of that port: the update out and the neighbour's own response back. |
| RipNetwork.Manager.RunTurn | src-tauri/engine/network/manager.go:350-379 | A turn serves all ports with a recorded neighbour, in any order, from one snapshot. |
| RipNetwork.Manager.RunRipUpdateCycle | src-tauri/engine/network/manager.go:348-381 | A cycle over all routers, in any order, is a legal run of deliveries from the old state that uses every feed of the network. |
| RipNetwork.Manager.HandleRipTimer | src-tauri/engine/network/manager.go:348-381 | The cycle of one timer event keeps a sound network sound, profits over every feed from what was advertised at its start, changes nothing once converged, and keeps every forwarding table in agreement with its database; every next hop is the address of the interface at the far end of the route's port. |
| RipNetwork.Manager.FireRipTimer | src-tauri/engine/network/manager.go:348-381 | End to end: from any sound databases, the empty ones among them, after k cycles every router at most k and 14 cables from a network holds it at metric 1 plus its true distance, with the far end of the route's port as next hop; 14 cycles, or as many as there are routers, converge the network. |
| RipNetwork.RipAfterCycles | src-tauri/engine/network/manager.go:348-381 | The same statement about the databases alone, for any k cycles in a row. |
| RoutedNetwork.StartsSound | src-tauri/engine/network/manager.go:348-381 | A network with empty databases is sound, so the safety results apply to every reachable state; for RIP and EIGRP alike. |
| RoutedNetwork.ConnectedMeaning | src-tauri/engine/network/router.go:193-198 | What a router advertises as its own: for each addressed interface the block of its address under its mask, and nothing else. |
| RoutedNetwork.RowsGoToFarEnds | src-tauri/engine/network/protocol_wire.go:105-117 | Every row that the protocol installed leaves by a cabled port and has as its next hop the address of the interface at the far end of that cable. |
| RoutedNetwork.TraceKeepsAgreement | src-tauri/engine/network/protocol_wire.go:105-117 | Over every run of deliveries, on all routers at once, the protocol's rows of the forwarding table stay exactly its database; for RIP and EIGRP alike. |
| RoutedNetwork.RoutersBoundDistance | src-tauri/engine/network/manager.go:239-252 | The shortest chain of cables to a network is never longer than there are routers. |
| RoutedNetwork.ConvergedAfterRouters | src-tauri/engine/network/manager_services.go:61-92 | As many cycles as there are routers converge any network, with or without a metric limit. |
| EigrpNetwork.Manager.DeliverUpdate | src-tauri/engine/network/manager_services.go:74-88 | The neighbour's database is relaxed and its table gets every updated route, in order. |
| EigrpNetwork.Manager.SendOnPort | src-tauri/engine/network/manager_services.go:69-89 | The advertisement reaches the router at the far end if EIGRP is enabled there; the state stays that of a legal run. |
| EigrpNetwork.Manager.RunEigrpUpdateCycle | src-tauri/engine/network/manager_services.go:61-92 | A cycle is a legal run of deliveries that uses every feed, so loop freedom and convergence hold for EIGRP. |
| EigrpNetwork.FeedIff | src-tauri/engine/network/manager_services.go:61-92 | Exactly when an advertisement crosses a cable: both routers run EIGRP, a cable joins the two ports, and the sender's port has an address, which the receiver sees. |
| EigrpNetwork.SoundHops | src-tauri/engine/network/manager_services.go:69-88 | In every sound state each route goes through a cabled port to the address of the interface at its far end. |
| EigrpNetwork.Manager.HandleEigrpTimer | src-tauri/engine/network/manager_services.go:61-92 | The cycle of one timer event keeps a sound network sound, profits over every feed, changes nothing once converged, and keeps the EIGRP rows of every forwarding table equal to its database; every next hop is the address of the interface at the far end of the route's port. |
| EigrpNetwork.Manager.FireEigrpTimer | src-tauri/engine/network/manager_services.go:61-92 | End to end: from any sound databases, after k cycles every router j at most k cables from a network holds it at metric 100 + 100000 j, with the far end of the route's port as next hop; as many cycles as there are routers converge the network. |
| EigrpNetwork.EigrpAfterCycles | src-tauri/engine/network/manager_services.go:61-92 | The same statement about the databases alone, for any k cycles in a row. |
| Simulation.Engine.RunOnce | src-tauri/main.go:53-65 | One iteration of the run loop with RIP and the scheduler together: a RIP timer event runs one cycle, any other event none, and the numbers of cycles and of fired RIP timers stay equal. |
| Simulation.Engine.TimeConverges | src-tauri/main.go:53-65 | At every boundary of the run loop, whatever else was handled: once simulated time has passed k update intervals every router knows the networks at most k and 14 cables away, and after 14 intervals of 30 s RIP has converged. |
| Simulation.RipByThen | src-tauri/engine/network/manager.go:396-398 | The same for any run of the timers whose RIP events each ran a cycle. |
| Simulation.EigrpByThen | src-tauri/engine/network/manager_services.go:232-234 | The EIGRP form: the network has converged once as many update intervals have passed as there are routers. |
| Routers.Router.AddRoute | src-tauri/engine/network/router.go:21-56 | The first row with the same network and protocol is overwritten in place, otherwise the row is appended; an unparsable text changes nothing and is reported. |
| Routers.Router.RemoveRoutesByProtocol | src-tauri/engine/network/router.go:59-70 | Exactly the rows of that protocol go; the others keep their order. |
| RoutingTable.WithoutRows | src-tauri/engine/network/router.go:59-70 | Removing a protocol's rows leaves exactly the rows of the others. |
| RoutingTable.WithoutInOrder | src-tauri/engine/network/router.go:59-70 | And leaves them in their order. |
| Routers.Router.MatchRoute | src-tauri/engine/network/router.go:331-352 | The answer is a row whose block of 2^(32-n) addresses holds the destination, preferred by prefix length and then distance to every other such row, and none exactly when no row's block does. |
| Routers.Router.BuildRipAdvertisement | src-tauri/engine/network/router.go:188-214 | Connected networks at metric 1 and every route of the daemon, and nothing else. |
| Routers.Router.BuildRipUpdate | src-tauri/engine/network/manager.go:353-354 | The response that a router object sends is an advertisement of its connected networks and of its daemon's routes, as the distance-vector results assume. |
| Routers.Router.BuildEigrpUpdate | src-tauri/engine/network/manager_services.go:73-74 | The same for EIGRP, with connected networks at metric 100. |
| Routers.Router.HandleEigrpUpdate | src-tauri/engine/network/manager_services.go:85-88 | On one router object: the daemon learns and the table gets every updated route, in order. |
| Routers.Router.HandleWireRip | src-tauri/engine/network/protocol_wire.go:105-121 | On one router object: daemon and table are updated together, and neither when RIP is off. |
| RoutingTable.InsertRows | src-tauri/engine/network/router.go:33-54 | Insertion replaces exactly the rows with the new network and protocol and keeps such pairs unique. |
| RoutingTable.RunKeepsTableOk | src-tauri/engine/network/router.go:27-70 | Over any run of insertions and removals, pairs of network and protocol stay unique and networks masked. |
| RoutingTable.ScanIsBest | src-tauri/engine/network/router.go:340-350 | The running best-so-far scan returns a row that no row containing the address is preferred to, and none only when none contains it. |
| RoutingTable.LongestPrefixWins | src-tauri/engine/network/router.go:331-352 | In a reachable table: the answer is the row of longest prefix whose block holds the destination, and of two of one length that of the smaller distance, strictly; none exactly when no block holds it. |
| RoutingTable.OneRowAnswers | src-tauri/engine/network/router.go:331-352 | For instance, a row for 10.0.0.0/24 answers 10.0.0.0 to 10.0.0.255 and nothing else. |
| RoutingTable.DistancesOfRows | src-tauri/engine/network/protocol/common.go:14-19 | In a reachable table every row has the administrative distance of its protocol: 0, 1, 20, 90, 110 or 120. |
| RoutingTable.MatchRefinesSpec | src-tauri/engine/network/router.go:340-350 | The scan returns a row if and only if it is the best one. |
| RoutingTable.MatchIsOrderIndependent | src-tauri/engine/network/router.go:340-350 | Every permutation of the table gives the same answer. |
| RoutingTable.EqualDistancesDependOnOrder | src-tauri/engine/network/router.go:340-350 | Without distinct distances per protocol this fails: two orders of two rows give two answers. |
| RoutingTable.UpdateKeepsAgreement | src-tauri/engine/network/protocol_wire.go:105-117 | An update with canonical networks keeps the protocol's rows equal to the daemon's routes, even when one update improves a network twice. |
| RoutingTable.AgreementIffCanonical | src-tauri/engine/network/protocol_wire.go:105-117 | The exact condition on the update, which its receiver can check: rows and routes agree afterwards if and only if every entry within the metric limit writes its network canonically. |
| RoutingTable.BadMaskBreaksAgreement | src-tauri/engine/network/router.go:432-439 | It can fail: a router whose mask does not parse advertises its address with host bits and /24, and its neighbour's table and database part. |
| RoutingTable.AgreementOverRuns | src-tauri/engine/network/protocol_wire.go:105-117 | Agreement of RIP, or of EIGRP, over whole runs of one router with the other protocols interleaved. |
| Spf.ComputeSpf | src-tauri/engine/network/protocol/ospf.go:303-361 | For any database with non-negative costs and no empty name, the result has an entry for exactly the LSDB routers other than the root that some directed path reaches below the cut-off of 999999, with the least path cost as metric and a next hop that starts a path of that cost. |
| Spf.RoundsSuffice | src-tauri/engine/network/protocol/ospf.go:316-327 | After as many rounds as there are LSAs, each settling one node, nothing is left to settle: the bound on the loop is enough. |
| Spf.CostAdds | src-tauri/engine/network/protocol/ospf.go:337 | The cost of a path is the sum of the costs of its links. |
| Spf.SelectNearest | src-tauri/engine/network/protocol/ospf.go:317-327 | The selection finds an unvisited node of least distance, in map order, or none below the cut-off. |
| Spf.Settle | src-tauri/engine/network/protocol/ospf.go:328-346 | One round settles the node and relaxes its links in order, keeping the invariant of the search; a missing distance reads as 0. |
| Spf.NoPathIsShorter | src-tauri/engine/network/protocol/ospf.go:316-347 | When the search has finished, no path beats the recorded distance. |
| Spf.FinishedIsCorrect | src-tauri/engine/network/protocol/ospf.go:349-360 | A finished search has exactly the reachable nodes at least cost with a good next hop. |
| Spf.OrderDoesNotMatter | src-tauri/engine/network/protocol/ospf.go:303-361 | Destinations and metrics do not depend on map order; only ties between next hops do. |
| Ospf.OspfDaemon.GenerateHello | src-tauri/engine/network/protocol/ospf.go:148-166 | The hello lists exactly the neighbours in 2-WAY or FULL, each once. |
| Ospf.OspfDaemon.HandleIncomingHello | src-tauri/engine/network/protocol/ospf.go:169-206 | The entry of the sender alone changes: the time is the hello's; an unknown sender or one that does not list this router is in INIT; one that does goes from INIT or 2-WAY to FULL, and stays in FULL or DOWN; the port is that of its first hello. |
| Ospf.OspfDaemon.CheckDeadInterval | src-tauri/engine/network/protocol/ospf.go:209-222 | Exactly the neighbours silent for more than 40 s go, the others stay as they are, and those that go are the ones reported. |
| Ospf.NeighborsAreHeard | src-tauri/engine/network/protocol/ospf.go:169-222 | Over every run from empty tables the neighbours are exactly the routers heard from and not silent for more than 40 s at any check since, each with the time of its last hello and the port of its first. |
| Ospf.OspfDaemon.GenerateRouterLsa | src-tauri/engine/network/protocol/ospf.go:225-255 | The links are those to FULL neighbours at cost 1 and the connected subnets at their cost; the sequence number is always 1. |
| Ospf.OspfDaemon.UpdateLSDB | src-tauri/engine/network/protocol/ospf.go:258-268 | A stored LSA of the same or a higher sequence number wins; the change is reported exactly. |
| Ospf.MergeHoldsTops | src-tauri/engine/network/protocol/ospf.go:258-268 | After any list of LSAs the database holds, for each router heard of, one of highest sequence number. |
| Ospf.MergeIsOrderIndependent | src-tauri/engine/network/manager.go:298-322 | Two databases that received the same LSAs in any order, with any duplication, are equal when the highest sequence number of a router determines its LSA. |
| Ospf.MergeOrderIff | src-tauri/engine/network/protocol/ospf.go:258-268 | And only then: the order of arrival is immaterial if and only if no router sent two different LSAs under its highest sequence number. |
| Ospf.SequencesNeverDecrease | src-tauri/engine/network/protocol/ospf.go:258-268 | A stored sequence number never decreases and no router is forgotten. |
| Ospf.FirstLsaIsFinal | src-tauri/engine/network/protocol/ospf.go:250-254 | Since every LSA carries sequence number 1, the first one stored for a router is never replaced. |
| Ospf.NobodyLeavesInit | src-tauri/engine/network/manager.go:255-295 | When all hellos come from GenerateHello and tables start empty, in every reachable state of every run every neighbour is in INIT, unlike section 10.5 of RFC 2328. |
| Ospf.FullIsCaused | src-tauri/engine/network/protocol/ospf.go:148-206 | Causality over whole runs: a neighbour is FULL only if it was from the start or after that neighbour held this router in 2-WAY or FULL. |
| Ospf.HellosAreCaused | src-tauri/engine/network/protocol/ospf.go:153-157 | Whoever a hello lists was listed by its sender at or before sending, however the hello is delayed. |
| Ospf.TwoWayNeverRests | src-tauri/engine/network/protocol/ospf.go:186-200 | No run ever rests in 2-WAY. |
| Ospf.FloodingKeepsKeys | src-tauri/engine/network/manager.go:298-322 | Over every run of hellos and floods, whatever the neighbour states, each database is keyed by router IDs and has no negative cost, so the shortest-path theorem applies to it. |
| Ospf.SpfStaysEmpty | src-tauri/engine/network/manager.go:325-333 | From empty tables and databases the shortest-path results of every router are empty in every reachable state: no LSA ever links to a router. |
| OspfRouting.RunOspfSPF | src-tauri/engine/network/manager.go:325-345 | The OSPF rows are replaced by those of the correct shortest-path results whose destination is a CIDR block and whose next hop is on a port, one per network; all other rows stay, in order. |
| OspfRouting.RowsAndResults | src-tauri/engine/network/manager.go:334-344 | Field by field: every OSPF row has the network, next hop, port and metric of one result and distance 110, and every usable result has a row for its network. |
| OspfRouting.OspfInstallsNothing | src-tauri/engine/network/manager.go:325-345 | In every reachable state, even with FULL adjacencies, RunOspfSPF leaves no OSPF row: every destination is a router ID, which the filter for CIDR blocks rejects. |
| Scheduler.EventScheduler.Swap | src-tauri/engine/scheduler.go:62-66 | Two slots are exchanged and every event still knows its slot. |
| Scheduler.EventScheduler.Push | src-tauri/engine/scheduler.go:67-72 | heap.Push: one event more, heap order and indices kept. |
| Scheduler.EventScheduler.Up | src-tauri/engine/scheduler.go:60-66 | The sift-up of container/heap over this Less and Swap restores heap order and loses no event. |
| Scheduler.EventScheduler.Down | src-tauri/engine/scheduler.go:60-66 | The sift-down restores heap order on the prefix and leaves the slots behind it alone. |
| Scheduler.EventScheduler.Schedule | src-tauri/engine/scheduler.go:104-116 | The queue gains one event with a fresh ID at the clock plus the offset, and nothing else changes. |
| Scheduler.EventScheduler.Step | src-tauri/engine/scheduler.go:120-138 | An earliest queued event leaves, the clock moves to it, its index becomes -1; nothing happens on an empty queue. |
| Scheduler.RunConserves | src-tauri/engine/scheduler.go:104-138 | Over any run, scheduled events are exactly the emitted and the queued ones, disjointly and without repetition, with unique IDs. |
| Scheduler.RunIsChronological | src-tauri/engine/scheduler.go:104-138 | With non-negative offsets events come out in time order, the clock never moves back and nothing queued lies in the past. |
| Timers.HandleTimerEvent | src-tauri/engine/network/manager.go:391-402 | A protocol timer event reschedules its own type one interval ahead; other types schedule nothing. |
| Timers.ScheduleProtocolTimers | src-tauri/engine/network/manager.go:384-388 | Start-up on a fresh scheduler leaves each of the eight protocol timers pending once, at its interval. |
| Timers.RunOnce | src-tauri/main.go:53-65 | One iteration of the run loop is the specified turn on the scheduler's queue. |
| Timers.EnqueueAdds | src-tauri/engine/scheduler.go:104-116 | What handlers and other goroutines schedule is queued completely, each request as one event at the clock plus its offset, with consecutive IDs in order. |
| Timers.TimersNeverStop | src-tauri/engine/network/manager_services.go:221-252 | At every boundary of the run loop exactly one event of each of the eight types is pending, one interval after its last, whatever traffic is interleaved. |
| Timers.KthFiringTime | src-tauri/engine/network/manager_services.go:231-252 | The k-th event of a type fires at simulated time exactly k times 10 s for OSPF, 30 s for RIP, EIGRP, STP and VTP, 60 s for BGP and CDP, and 3 s for HSRP. |
| Timers.FiredByThen | src-tauri/engine/network/manager_services.go:231-252 | Once the clock has passed k intervals of a timer, it has fired at least k times, whatever traffic is interleaved. |
| Ping.PingManager.StartPing | src-tauri/engine/network/dataplane.go:595-697 | The session is filed under its source and the current time with an echo identifier made of the milliseconds, and its timeout is scheduled 2 s ahead, after the request frames. |
| Ping.PingManager.CompletePing | src-tauri/engine/network/dataplane.go:699-722 | A reply resolves one session of that source, destination, identifier and sequence number, in map order, as a success with the milliseconds since its start; nothing happens exactly when there is none. |
| Ping.PingManager.HandlePingTimeout | src-tauri/engine/network/dataplane.go:724-740 | A timeout resolves its session as failed, or does nothing when the session is gone. |
| Ping.PingManager.CancelSessionsOf | src-tauri/engine/network/topology_ops.go:76-86 | Exactly the sessions of the removed device go, each with one failed result, while the map is deleted from under the loop. |
| Ping.PingManager.RunOnce | src-tauri/engine/network/dataplane.go:76-88 | An event of the run loop has the specified effect on sessions, results and queue together. |
| Ping.PingManager.DrainPingResults | src-tauri/engine/network/dataplane.go:743-749 | Each result is delivered once: what all calls so far have handed out is exactly what was ever produced, in order. |
| Ping.InvHolds | src-tauri/engine/network/dataplane.go:595-740 | In every reachable state each live session has a pending timeout event with its key at its start plus 2 s, and creations, sessions and results are matched one to one. |
| Ping.ReplyReports | src-tauri/engine/network/dataplane.go:707-719 | In every reachable state a reply to a live session ends it and appends one success whose round-trip time is exactly the milliseconds since its start. |
| Ping.TimeoutReports | src-tauri/engine/network/dataplane.go:724-740 | In every reachable state a timeout event appends one failure for the session it names, and no result when that session is gone. |
| Ping.ResultsSay | src-tauri/engine/network/dataplane.go:604-740 | Over every run each result carries the source, destination and request of the start that made its session; it is a success only if a reply to that session came, and then gives the time between the two; a failure gives no time. |
| Ping.SessionsSay | src-tauri/engine/network/dataplane.go:604-613 | Over every run each live session carries what its start asked for and the identifier of its starting time. |
| Ping.SameIdentifierIff | src-tauri/engine/network/dataplane.go:597-598 | When a reply can be mistaken: two live sessions carry one identifier if and only if they started in one millisecond, or in consecutive milliseconds of which the second is a multiple of 65536. |
| Ping.AtMostOneResult | src-tauri/engine/network/dataplane.go:699-740 | No creation ever has two results, and every success took between 0 and 2000 ms, also across device removal. |
| Ping.ResolvedAfterTimeout | src-tauri/engine/network/dataplane.go:724-740 | Once the clock has passed its timeout a creation is not live: it has its result, or its session was overwritten and it never has one. |
| Ping.LostIffOverwritten | src-tauri/engine/network/dataplane.go:604-631 | The exact condition: an event loses a live creation if and only if it starts a ping of the same family and source at the same instant. |
| Ping.LostForEver | src-tauri/engine/network/dataplane.go:604-631 | A lost creation stays without a result. |
| Ping.OverwrittenPingIsLost | src-tauri/engine/network/dataplane.go:604-631 | It happens: two pings of one source at one instant leave the first without any result. |
| Ping.RemoveIsCancelling | src-tauri/engine/network/topology_ops.go:76-86 | Failing the listed sessions one by one leaves exactly the sessions of other sources and appends one result each. |
| Ping.SurvivesRemovalIff | src-tauri/engine/network/topology_ops.go:76-86 | In every reachable state a removal cancels a session if and only if the device is its source, whatever address it targets; the other sessions keep their timeouts. |
| Policer.QoSPoliceBucket.Take | src-tauri/engine/network/qos.go:147-158 | A bucket refills for the time passed, up to its rate, then gives one token or drops. |
| Policer.Router.ShouldPoliceDrop | src-tauri/engine/network/qos.go:134-159 | The bucket of the interface and class is opened full when new and charged; no other bucket changes. |
| Policer.Router.ApplyQoSToPacket | src-tauri/engine/network/qos.go:94-132 | The first matching class decides: its actions run in order up to the first policer that drops. |
| Policer.UnclassifiedPasses | src-tauri/engine/network/qos.go:98-113 | A packet that no class of its interface's policy matches passes with DSCP 0, and no bucket changes. |
| Policer.ClassDecides | src-tauri/engine/network/qos.go:105-131 | The first class of the policy that exists and matches decides: a packet that passes carries its last mark, 46 for priority, or 0; only that class's bucket on that interface changes, and without a policer nothing is charged or dropped. |
| Policer.OnePolicerDecides | src-tauri/engine/network/qos.go:120-123 | A class with one policer drops a packet exactly when its bucket has no token, and charges it once. |
| Policer.TokensInRange | src-tauri/engine/network/qos.go:147-158 | With one rate of at least 0 the tokens stay between 0 and the rate, for call times in any order. |
| Policer.WindowBound | src-tauri/engine/network/qos.go:134-159 | Whatever happened before, at most rate + rate * ns / 8000000000 packets pass in any window of ns nanoseconds. |
| Policer.PolicingBound | src-tauri/engine/network/qos.go:94-159 | The same bound for one class of one interface over a whole run of packets of all classes and interfaces. |
| Policer.ClassesAreIsolated | src-tauri/engine/network/qos.go:105-123 | A class's bucket and its verdicts depend on that class's packets only. |
| Policer.SpacedNeverDropped | src-tauri/engine/network/qos.go:134-159 | A stream with gaps of at least 8 s / rate is never dropped, for a rate of at least 1. |
| Policer.UniformNeverDroppedIff | src-tauri/engine/network/qos.go:134-159 | The gap is exact: a uniform stream is never dropped if and only if rate times its gap is at least 8 s. |
| Policer.BurstAfterSilence | src-tauri/engine/network/qos.go:141-158 | After any history that ended eight seconds ago, and on a new bucket, exactly as many packets of one instant pass as the rate says. |
| Policer.DroppedCostsNothing | src-tauri/engine/network/qos.go:147-158 | A dropped packet leaves the bucket such that every later packet fares as if it had never come. |
| Policer.TooSlowDropsAll | src-tauri/engine/network/qos.go:154-156 | At a rate below 1 nothing ever passes. |
| Switching.Switch.SetPortAccessVLAN | src-tauri/engine/network/switch.go:98-104 | The port becomes an access port of the VLAN and the VLAN exists; the rest stays. |
| Switching.Switch.SetPortTrunk | src-tauri/engine/network/switch.go:118-129 | The port becomes a trunk and the native and allowed VLANs exist; the rest stays. |
| Switching.Switch.SetPortUp | src-tauri/engine/network/switch.go:146-151 | Only the status of the port changes, after it is created with defaults if needed. |
| Switching.Switch.Egress | src-tauri/engine/network/switch.go:207-239 | The frame is refused, or leaves tagged unless the VLAN is the port's own; the scan of allowed VLANs is membership (Switching.LeavesPort says which ports do what). |
| Switching.LeavesPort | src-tauri/engine/network/switch.go:207-239 | On the port's fields: a trunk takes every VLAN or those of its list and untags exactly its native VLAN; an access port takes its access VLAN only, untagged; addresses and payload stay. |
| Switching.ConfigureMeaning | src-tauri/engine/network/switch.go:76-151 | What configuring does to the port's fields; a new port is an access port of VLAN 1 that is up. |
| Switching.ClosedPortDrops | src-tauri/engine/network/switch.go:243-249 | At a port that is not registered, down or blocked a frame goes nowhere and teaches nothing. |
| Switching.Switch.FloodVLAN | src-tauri/engine/network/switch.go:276-287 | Exactly the usable ports other than the ingress that carry the VLAN get the frame, whatever the map order. |
| Switching.Switch.HandleIncomingFrame | src-tauri/engine/network/switch.go:242-274 | Learning and forwarding are those of the specification, and nothing is learned on an unusable port. |
| Switching.EntersVlan | src-tauri/engine/network/switch.go:193-205 | At a usable port a tag other than 0 names the VLAN; an untagged or priority-tagged frame is in the native VLAN of a trunk and in the access VLAN of an access port; the sender is learned there. |
| Switching.OnlyRegisteredPortsLearned | src-tauri/engine/network/switch.go:255-257 | Over any history every learned port is registered, so the unconfigured branch of egressFrame is never taken by HandleIncomingFrame. |
| Switching.TableIsLastArrivals | src-tauri/engine/network/switch.go:255-257 | The table holds, per VLAN and station, exactly the port and time of its last accepted frame. |
| Switching.CrossingMeaning | src-tauri/engine/network/switch.go:193-274 | A frame never leaves by its ingress port, leaves an access port only untagged and in its VLAN, and keeps everything but its tag. |
| Switching.WhereItLeaves | src-tauri/engine/network/switch.go:242-287 | The exact set of egress ports: usable ports for broadcasts and unknown stations, the learned port alone otherwise, even when that port is down or blocked. |
| Switching.DownPortStillForwards | src-tauri/engine/network/switch.go:260-270 | It happens: a station is learned on a port, the port is set down, and a frame for the station still leaves there. |
| Switching.ReclassifiedIff | src-tauri/engine/network/switch.go:193-239 | The next switch classifies the frame into the same non-zero VLAN if and only if the link agrees on it. |
| Switching.AgreesOnAll | src-tauri/engine/network/switch.go:193-239 | A link agrees on every VLAN if and only if both ends put untagged frames into one VLAN: two trunks by their native VLANs, two access ports by their access VLANs, and mixed ends by one of each. |
| Switching.VlanPreservedIff | src-tauri/engine/network/switch.go:193-287 | Along any path of switches in any reachable states, the frame stays in its VLAN at every switch if and only if every link on the way agrees on it. |
| Switching.VlanIsolation | src-tauri/engine/network/switch.go:193-287 | Through agreeing links a frame never turns back, keeps its addresses and payload, and leaves an access port only of the VLAN it started in. |
| Dhcp.Router.IsIPExcluded | src-tauri/engine/network/router_services.go:476-512 | True exactly when some exclusion of the pool or the router is that address, or a range whose ends include it, an IPv6 end counting as 0. |
| Dhcp.Router.NextPoolIP | src-tauri/engine/network/router_services.go:446-474 | The lowest last octet in 2..253 whose address is in the network, unassigned, not an interface address and not excluded; the base address exactly when there is none. |
| Dhcp.NextIpIff | src-tauri/engine/network/router_services.go:446-474 | In terms of addresses: the answer is the lowest address of the network's block in the base's group of 256 with a last octet from 2 to 253 that no interface has, no exclusion covers and nobody leases, and the base address exactly when there is none. |
| Dhcp.ExcludesIff | src-tauri/engine/network/router_services.go:476-512 | What each form of exclusion covers. |
| Dhcp.Router.HandleDHCPDiscover | src-tauri/engine/network/router_services.go:406-434 | A pool that serves the interface answers with the client's lease or the next address and records it; no reply exactly when no pool serves it. |
| Dhcp.ServesIff | src-tauri/engine/network/router_services.go:410-417 | A pool serves a port exactly when its network text parses and the port's address is in the block it names. |
| Dhcp.Router.HandleDHCPRequest | src-tauri/engine/network/router_services.go:436-444 | The acknowledgement carries the same lease. |
| Dhcp.LeaseIsStable | src-tauri/engine/network/router_services.go:419-423 | Over any run a client's lease never changes, whatever interfaces and exclusions do. |
| Dhcp.LeasesAreInNetwork | src-tauri/engine/network/router_services.go:446-474 | Every lease is an address of the pool's network. |
| Dhcp.SharedIsBase | src-tauri/engine/network/router_services.go:446-474 | Two clients share an address only if it is the base address, granted to one of them when no octet was free. |
| Dhcp.BaseIsShared | src-tauri/engine/network/router_services.go:446-474 | It happens: in a pool of one address, the router's own, two clients get that address. |
| Dhcp.DistinctIffCapacity | src-tauri/engine/network/router_services.go:446-474 | The exact condition in fixed surroundings: all clients hold distinct addresses if and only if there are no more of them than leasable addresses, the base included. |
| Dhcp.LeasableIff | src-tauri/engine/network/router_services.go:446-474 | The leasable addresses are the base and every address that is available when nothing is leased. |
| RouterProcesses.PickRouterID | src-tauri/engine/network/router.go:295-306 | The loop over the interfaces returns an ID that some order of the map gives, unset addresses included. |
| RouterProcesses.MayPickIff | src-tauri/engine/network/router.go:295-306 | Exactly which router IDs the loop can give over all map orders: the address whose text is least, or 1.1.1.1 without interfaces; but with an unset address among them 1.1.1.1 or any address at all. |
| RouterProcesses.OnlyPickIff | src-tauri/engine/network/router.go:295-306 | An ID is the only possible one if and only if every other address text comes after it, or no interface exists and it is 1.1.1.1, or every address is unset or 1.1.1.1 and so is it. |
| RouterProcesses.BeforeIff | src-tauri/engine/network/router.go:298 | The order of address texts: at the first place where they differ, the first one ends or has the lower character. |
| RouterProcesses.MatchInterface | src-tauri/engine/network/protocol/ospf.go:111-132 | The first network statement that parses and contains the address, and none when the interface has no address or no statement matches. |
| RouterProcesses.FirstMatchIs | src-tauri/engine/network/protocol/ospf.go:120-131 | The match is the first statement of the list whose block holds the address, and none when no block does. |
| RouterProcesses.EnabledIff | src-tauri/engine/network/router.go:141-159 | An interface is enabled exactly when some statement's block holds its address, in the area of the first one that does. |
| RouterProcesses.ConfigureOspfNetworks | src-tauri/engine/network/router.go:141-159 | The statements are appended and exactly the interfaces that match one are enabled, each in the area of its first match; no interface is ever disabled. |
| RouterProcesses.MustRunGrowsIff | src-tauri/engine/network/router.go:129-159 | When interfaces come after the processes were started, these are as a fresh start would have them if and only if they were before, no new address text comes before a router ID in use, and no OSPF statement covers a new address. |
| SnapshotManager.StartProcesses | src-tauri/engine/network/router.go:410-428 | The processes of a snapshot are started on the restored interfaces: each picks its own router ID, and OSPF enables the interfaces that its statements match. |
| SnapshotManager.RestoreRouter | src-tauri/engine/network/router.go:402-430 | Restoring gives the interfaces, the static routes in order and the processes of the snapshot with the router IDs they pick; unparsable routes are skipped, and the table is well formed. |
| SnapshotFields.RestoredSettings | src-tauri/engine/network/router.go:410-428 | Which setting of a restored router comes from which field; RIP has no neighbours yet. |
| SnapshotFields.LastRouteIsRestored | src-tauri/engine/network/router.go:407-409 | The last saved route of each network that parses becomes a static row at distance 1 with its next hop, interface and metric. |
| SnapshotFields.RestoredIface | src-tauri/engine/network/router.go:404-406 | The last saved entry of each port is the restored interface. |
| SnapshotFields.RowIsSaved | src-tauri/engine/network/router.go:407-409 | And every restored static row is one of the saved routes. |
| SnapshotManager.SnapshotRouter | src-tauri/engine/network/router.go:355-399 | The snapshot lists every interface once, the static routes in table order, and the settings of enabled protocols only. |
| SnapshotFields.ExportedSettings | src-tauri/engine/network/router.go:378-397 | Which field of a router snapshot holds which setting of which process. |
| SnapshotFields.ExportedRows | src-tauri/engine/network/router.go:360-377 | Each interface is saved once with its address, mask and MAC, and each static route in order with its network, next hop, interface and metric. |
| SnapshotManager.Manager.AssignLinkAddress | src-tauri/engine/network/router_forward.go:94-120 | A port with an address keeps it; another gets the link's address and a connected route. |
| SnapshotManager.ConnectedRow | src-tauri/engine/network/router_forward.go:118-119 | The connected route is the block of the new address under its mask, without a next hop, at metric and distance 0; rows of other networks and protocols stay. |
| LinkEffects.LinkAddressText | src-tauri/engine/network/router_forward.go:95-104 | The address of a link end prints as 10.a.b.1 at the source and 10.a.b.2 at the target, with a and b the quotient and remainder of four times the index by 256, also where that is no address. |
| LinkEffects.LinkAddressesIff | src-tauri/engine/network/router_forward.go:95-104 | Two link ends get one address if and only if they are the same side under the same index: the two ends of a link differ, and links applied under different indices never share an address. |
| LinkEffects.LinkEndsShareNetwork | src-tauri/engine/network/router_forward.go:95-119 | Below index 16384 the two ends are the two hosts of one /30 network. |
| SnapshotManager.Manager.ApplyLinkState | src-tauri/engine/network/manager.go:129-167 | One link registers switch ends, gives router ends addresses, records the far end at both ports and, where RIP runs and the address is set, in RIP, and sets the uplinks of hosts; no other configuration changes. |
| SnapshotManager.Manager.AddLink | src-tauri/engine/network/manager.go:122-127 | The link is recorded and applied with the new number of links as index; the manager stays sound, and a settled one stays settled if and only if no process minds the new addresses. |
| LinkEffects.AddedSwitch | src-tauri/engine/network/manager.go:130-135 | On the fields: a switch end becomes an access port of VLAN 1 that is up unless the port exists; nothing else of the switch changes. |
| LinkEffects.AddedHost | src-tauri/engine/network/manager.go:161-166 | A host end has the far device as its uplink, and nothing else of the host changes. |
| LinkEffects.AddedAddresses | src-tauri/engine/network/manager.go:140-143 | A router end without an address gets the one of its side under the new number of links, with mask and MAC; addresses that are there stay. |
| LinkEffects.AddedNeighbors | src-tauri/engine/network/manager.go:145-148 | Each end of a link between routers records the other router, its port and the address it has then; other ports keep theirs. |
| LinkEffects.AddedRipPeers | src-tauri/engine/network/manager.go:150-155 | A router with RIP sends to the address at the far end unless that is unset; other processes and other ports stay. |
| LinkEffects.AddedWithoutRip | src-tauri/engine/network/manager.go:150-155 | Without RIP a router's processes stay as they are. |
| LinkEffects.AddedKeepsDevices | src-tauri/engine/network/manager.go:122-127 | The link comes last in the list, and no device comes or goes. |
| LinkEffects.AddedToOthers | src-tauri/engine/network/manager.go:137-140 | No other router changes, and no router at all when one end is none. |
| SnapshotManager.Manager.RemoveLink | src-tauri/engine/network/topology_ops.go:215-234 | Exactly the links with this ID go, in order, and nothing else changes; an unknown ID is reported. |
| LinkEffects.RemovedLinks | src-tauri/engine/network/topology_ops.go:215-234 | The links with another ID stay, each as often as before, and no other. |
| LinkEffects.RemovedInOrder | src-tauri/engine/network/topology_ops.go:215-234 | And they stay in their order. |
| SnapshotManager.Manager.Reload | src-tauri/engine/network/persistence.go:62-109 | On the manager object: a settled manager comes back as it was, one that comes back meets the conditions to survive, and a snapshot shows the same afterwards if and only if the links had left their marks on it. |
| SnapshotManager.ManagerIsSound | src-tauri/engine/network/persistence.go:84-109 | A manager with well-formed forwarding tables and 16-bit VLAN numbers meets the condition of the round-trip results. |
| SnapshotManager.RestoreSwitch | src-tauri/engine/network/switch.go:305-314 | The switch object has the saved ports with default settings and the saved VLANs beside the default one, numbers cut to 16 bits. |
| SnapshotFields.RestoredSwitchFields | src-tauri/engine/network/switch.go:305-314 | On the fields: every saved port is an access port of VLAN 1 that is up, and the VLANs are 1 and the saved numbers modulo 65536. |
| SnapshotFields.RestoredHostFields | src-tauri/engine/network/persistence.go:101-104 | A restored host holds every saved field, and nothing else is configured on it. |
| SnapshotManager.Manager.ImportSnapshot | src-tauri/engine/network/persistence.go:84-109 | Routers, switches, hosts and links are those of the snapshot, with processes started and then all links applied, although every link uses the same index. |
| SnapshotManager.Manager.ExportSnapshot | src-tauri/engine/network/persistence.go:62-81 | The snapshot lists every router, switch and host exactly once, in some map order, and all links in order. |
| RoundTrips.ImportIsMarked | src-tauri/engine/network/persistence.go:84-109 | Whatever the snapshot and the IDs picked, an import leaves nothing that a snapshot cannot hold and every link's mark: switch ends registered, router ends addressed and recorded at both ports and in RIP, uplinks at the last link. |
| RoundTrips.ImportSettlesIff | src-tauri/engine/network/persistence.go:84-109 | An import leaves a settled manager if and only if the IDs were certain and no process minds the addresses that the links add after it was started. |
| RoundTrips.SecondLoadSettlesIff | src-tauri/engine/network/persistence.go:62-109 | Loading an export of a loaded snapshot settles the manager, whatever the first load did, if and only if on every router that runs a process the interfaces leave no choice of the ID. |
| Snapshots.StaticsRoundTrip | src-tauri/engine/network/router.go:355-430 | Exported static routes restore to the same rows in the same order. |
| RoundTrips.RoundTripIff | src-tauri/engine/network/persistence.go:62-109 | Of the configuration of routers, switches, hosts and links, saving and loading loses nothing for all map orders if and only if the manager is settled: nothing is configured that a snapshot cannot hold, every link has left its mark, OSPF has the interfaces that its statements match and every process the only ID it could pick; it loses nothing for some map order if and only if the same holds with possible IDs. |
| RoundTrips.LoadedIff | src-tauri/engine/network/persistence.go:62-109 | The same for one load with the IDs that it picks. |
| RoundTrips.ExportImportIdempotent | src-tauri/engine/network/persistence.go:62-109 | On every snapshot: loading an export of a loaded snapshot gives a manager with the same exports, although router IDs and OSPF interfaces may differ. |
| RoundTrips.ReloadShowsIff | src-tauri/engine/network/persistence.go:62-109 | Exactly when a load shows what was saved: the default VLAN exists and the links have registered switch ends, addressed router ends and set uplinks. |
| RoundTrips.ExportsAgree | src-tauri/engine/network/persistence.go:62-81 | Two exports of one content list the same routers, switches, hosts and links, whatever the map orders: interfaces, ports and VLANs as sets, static routes and settings as they are. |
| Snapshots.AppliedConcat | src-tauri/engine/network/persistence.go:106-108 | Applying two lists of links in turn is applying them as one list. |
| Snapshots.AppliedRecords | src-tauri/engine/network/persistence.go:106-108 | After any list of links each port has on record the far end of its last link, and RIP that of its last link to a set address, both at the address that the far end has in the end. |
| LinkEffects.UplinkIsLast | src-tauri/engine/network/manager.go:161-166 | After any list of links a host's uplink is the far end of the last link that touches it, or what it was. |
| LinkEffects.RouterEndsIff | src-tauri/engine/network/manager.go:137-143 | The router ports that a list of links addresses are the ends of its links between routers. |
| RoundTrips.AddLinkSettlesIff | src-tauri/engine/network/manager.go:122-167 | A settled manager stays settled when a link is added if and only if no process of its ends minds the new addresses: every ID in use comes before them in text order, and no OSPF statement covers them. |
| RoundTrips.LateAddressChangesOspf | src-tauri/engine/network/router.go:129-159 | It can fail: two routers have OSPF enabled before they have an address, and are then cabled. The manager is no longer settled; a load changes the ID of the first from 1.1.1.1 to 10.0.4.1 and enables OSPF on its port exactly if a statement covers that address. |
| RoundTrips.EnableRipSettlesIff | src-tauri/engine/network/router.go:162-171 | Enabling RIP on a router of a settled manager, without refreshing its neighbours, keeps it settled if and only if no link of that router leads to an address. |
| RoundTrips.RemovedCableIsNotRestored | src-tauri/engine/network/topology_ops.go:215-234 | It can fail: a host is cabled twice and the second cable removed; both additions leave a settled manager, but after the removal a reload changes the host's uplink. |
| RoundTrips.StaleUplinkIsLost | src-tauri/engine/network/persistence.go:84-109 | Generally: an uplink that is not the far end of the last link of the host does not survive a reload. |
| RoundTrips.PortSettingsAreLost | src-tauri/engine/network/switch.go:289-314 | Every switch port that is a trunk, is in an access VLAN other than 1 or is set down comes back as an access port of VLAN 1 that is up. |
| RoundTrips.TrunkIsNotRestored | src-tauri/engine/network/switch.go:289-314 | It happens: a manager whose links are all marked, with one switch that has one trunk port, has an export, and none of its exports loads it back. |
| Removal.CompactInPlace | src-tauri/engine/network/topology_ops.go:192-205 | The slice compaction moves exactly the elements to keep to the front, in order, and leaves the array behind the slice alone. |
| Removal.DeleteUnless | src-tauri/engine/network/topology_ops.go:137-141 | Deleting from a map while ranging over it, in any order, leaves exactly the entries to keep. |
| Removal.Router.PurgeReferences | src-tauri/engine/network/topology_ops.go:127-212 | The router drops what names the device or a collected address from all eight tables; its arrays are compacted in place. |
| Removal.Manager.RemoveDevice | src-tauri/engine/network/topology_ops.go:17-90 | The device goes from every kind, its links and its ping sessions with it, and PurgeReferences runs on each remaining router with the addresses collected for it; a name of no device changes nothing and is reported. |
| Removal.RemovalIsComplete | src-tauri/engine/network/topology_ops.go:17-90 | Afterwards no device, link or sourced session is the device's, no remaining router names it in a CDP entry or port neighbour, and none refers to a collected address in an ARP, queue, IKE, RIP neighbour or enabled OSPF entry or as the next hop of a non-connected route. |
| Removal.RouterAddressesGo | src-tauri/engine/network/topology_ops.go:95-101 | After a router is removed no remaining router refers to the address of any of its interfaces in a route with a next hop, ARP, queue, IKE or RIP entry, nor in OSPF where that runs. |
| Removal.HostAddressGoes | src-tauri/engine/network/topology_ops.go:102-104 | The same for the address of a removed host. |
| Removal.GatewayAddressesGo | src-tauri/engine/network/topology_ops.go:105-114 | The same for the interface addresses and the set public address of a removed gateway. |
| Removal.MobileAddressGoes | src-tauri/engine/network/topology_ops.go:115-121 | The same for the set address of a removed mobile. |
| Removal.OnlyTheseGo | src-tauri/engine/network/topology_ops.go:92-212 | And only these: a remaining router refers to any other address after the removal exactly when it did before. |
| Removal.RowSurvivesIff | src-tauri/engine/network/topology_ops.go:192-205 | A row of a remaining router survives if and only if it is connected or its next hop is none of these addresses. |
| Removal.LinkSurvivesIff | src-tauri/engine/network/topology_ops.go:62-69 | A link survives if and only if neither end is on the device. |
| Removal.NameLeavesDatabases | src-tauri/engine/network/topology_ops.go:165-180 | Where OSPF runs, the database entry under the device's name goes. |
| Removal.RouterForgetsIff | src-tauri/engine/network/topology_ops.go:92-212 | The exact condition, before the call, for a remaining router to forget everything the device owns: it holds no reference that the code overlooks, which are those to an owned address that is not collected, any in the tables that the code never visits (routing processes, NAT and PAT, DHCP leases, crypto-map peers, pre-shared keys), OSPF entries under an ID that is not collected, and OSPF entries of a process that is off. |
| Removal.FirewallIsRemembered | src-tauri/engine/network/topology_ops.go:92-125 | It happens: removing a firewall leaves another router's static default route through it and its ARP entry, since a firewall's addresses are never collected. |
| Removal.OspfIdIsRemembered | src-tauri/engine/network/topology_ops.go:165-180 | It happens: removing a router whose OSPF ID is no address of its interfaces leaves its neighbour's OSPF entries under that ID. |
| Removal.PingOutlivesItsTarget | src-tauri/engine/network/topology_ops.go:76-86 | It happens: a ping of another device to the removed host stays in flight, although the header comment promises to cancel sessions that target the device. |
| Removal.RemovalIsFramed | src-tauri/engine/network/topology_ops.go:17-90 | Everything else survives: the other devices with all their addresses, the links between them as often as before and in their order, and their sessions. |
| Removal.RouterIsFramed | src-tauri/engine/network/topology_ops.go:127-212 | Of a remaining router everything else survives: rows as often as before and in their order, map entries unchanged. |
| Removal.FilterMeaning | src-tauri/engine/network/topology_ops.go:62-69 | The filter keeps exactly the elements to keep, as often as before, as a subsequence. |
| Removal.PeersAfterRemoval | src-tauri/engine/network/topology_ops.go:62-69 | Every remaining port finds the neighbour it found before, unless that was the device. |
| Removal.OnlyItsRoutesIff | src-tauri/engine/network/topology_ops.go:192-205 | The exact condition for a router to lose only routes through addresses the device has: no collected address is unset, or no other-than-connected route lacks a next hop. |
| Removal.UnsetHostDropsRoute | src-tauri/engine/network/topology_ops.go:93-108 | It can fail: removing a host without an address deletes another router's directly attached static route. |
| Removal.RemovalsCommute | src-tauri/engine/network/topology_ops.go:17-212 | The order of two removals does not matter, on the whole state. |

## Left out

- Goroutine interleavings inside a method, locks and deadlocks: every mutex-guarded method is one atomic step.
- Objects of the whole network: the managers of `RipNetwork`, `EigrpNetwork`, `SnapshotManager` and `Removal` hold the state of the devices as values and load one object at a time, so aliasing between the objects of different devices is not captured.
- The configuration of routers and cables is fixed while the routing managers of `RipNetwork` and `EigrpNetwork` run; changing it is modelled by RipNetwork.CableAddsItsFeeds and RipNetwork.CableReconverges, by `SnapshotManager` and by `Removal`.
- Sharing of port settings and DHCP pools: they are values in a map that the methods reassign; the engine hands out copies only.
- Integer widths: times, metrics, counters and sequence numbers are unbounded; only the 16-bit metric field of a RIP frame and the 16-bit VLAN numbers of a snapshot are cut.
- Floating-point rounding: token counts and round-trip times are exact reals.
- Masks with holes in them, IPv4 addresses written as IPv6, and IPv6 altogether.
- Session identifiers as strings: a session key is the triple that the engine prints into the string.
- The tag of a ping session, which numbers the creations; the engine has no such field.
- RIP's RemoveStaleRoutes, which nothing in the engine calls.
- EIGRP's feasible-successor flag and neighbour set, which no routing decision reads.
- Simulation: the run loop object runs RIP; for EIGRP the same statement is the lemma Simulation.EigrpByThen over the timers and the databases. The other handlers of the loop enter as the traffic they schedule.
- OspfRouting.RunOspfSPF: how a text reads as a CIDR block and which port a next hop resolves to are inputs; the results need only that a text without a slash is no block.
- OspfRouting.OspfInstallsNothing: router IDs are address texts without a slash, and the removal of a device, which deletes database entries, is not a step of these runs.
- RoutingTable.MatchIsOrderIndependent: rests on one administrative distance per protocol, which every caller in the engine passes; for other distances see RoutingTable.EqualDistancesDependOnOrder.
- Spf.ComputeSpf: stated for databases with non-negative costs and no empty router name; destinations that are not keys of the database, such as stub subnets, never enter the result.
- Scheduler.EventScheduler.Step: no order among events of one timestamp is promised, because the heap does not break ties by ID.
- Ping.PingManager.StartPing: does not model the error returns for an unknown source and for a router without an addressed interface that is up, nor the IPv6 ping of a router, all of which leave no session; the frames that are sent are an arbitrary list of requests.
- Ping.PingManager.RunOnce: the traffic that a handler schedules is an arbitrary list of requests with non-negative offsets; a reply that completes a session inside a packet handler is a separate event of the run, because the data plane that computes it is not modelled.
- Policer.Router.ApplyQoSToPacket: which class maps match a packet is an input; matching by DSCP, protocol or port is not modelled.
- Switching.Switch: RunSTP enters as an arbitrary set of blocked ports, and the election of a root bridge is not modelled; voice VLANs and switch QoS are left out.
- Dhcp: the packet fields other than addresses and mask, and the host side of the exchange.
- Dhcp.DistinctIffCapacity: holds while interface addresses and exclusions stay fixed; the other DHCP results let them change at every grant.
- SnapshotManager.Manager.ApplyLinkState: does not model the IKE negotiation that a new cable starts.
- SnapshotManager.Manager.ImportSnapshot: device kinds other than routers, switches and hosts, which import leaves as they are and export does not show.
- RoundTrips.RoundTripIff: speaks of configuration; connected and learned rows, protocol neighbours, link-state databases and caches, which an import empties or rebuilds, are not part of it, and configuration that no snapshot holds is one value per device, as new or changed.
- Snapshots: bandwidth and cable length of links, which a snapshot keeps; the OSPF interface cost, which is always 1.
- Removal.RemovalIsComplete: covers routers; the ARP caches and the uplinks of hosts, which the code does not clean, still name the device.
- Removal.RouterForgetsIff: the tables that the code never visits are one set of addresses per router.
- Removal: a device whose name is itself an address text; the payloads of caches and queues are numbers.
- Topology.UniquePorts is a condition of the network results: the engine lets two cables share a port and then uses the first.
- BGP, HSRP, NAT and PAT, VTP, CDP, PPP, frame relay, VoIP, IPsec, wireless, cellular and ASA devices: tables and counters with little state of their own, or properties that the code does not decide.
- The command-line interface, the JSON and WebSocket layers, file access, the event log and the port captures.
