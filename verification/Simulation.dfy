/** The run loop with its timers and the routing protocols together: what holds once enough
    simulated time has passed, whatever else the loop handles in between.
 */
module Simulation {
  import opened DistanceVector
  import opened RoutedNetwork
  import opened Scheduler
  import opened Topology
  import EigrpNetwork
  import RipNetwork
  import Timers

  const UPDATE_INTERVAL := 30 * Timers.SECOND

  /** What RIP has achieved by a moment of the run, from how often its timer has fired. */
  lemma RipByThen(net: Net, run: seq<Db>, db: Db, l: Timers.Loop)
    requires Timers.Legal(l) && l.Turned? && Reached(RIP, net, run, db, Timers.Count(Timers.FiredIn(l), TimerRip))
    ensures forall k: nat :: Timers.Now(l).clock > k * UPDATE_INTERVAL ==> RipNetwork.KnowsWithin14(net, db, k)
    ensures Timers.Now(l).clock > 14 * UPDATE_INTERVAL ==> Converged(RIP, net, db)
  {
    RipNetwork.RipAfterCycles(net, run, db, Timers.Count(Timers.FiredIn(l), TimerRip));
    forall k: nat | Timers.Now(l).clock > k * UPDATE_INTERVAL ensures RipNetwork.KnowsWithin14(net, db, k) {
      Timers.FiredByThen(l, TimerRip, k);
    }
    if Timers.Now(l).clock > 14 * UPDATE_INTERVAL {
      Timers.FiredByThen(l, TimerRip, 14);
    }
  }

  lemma EigrpByThen(net: Net, run: seq<Db>, db: Db, l: Timers.Loop)
    requires Timers.Legal(l) && l.Turned? && Reached(EIGRP, net, run, db, Timers.Count(Timers.FiredIn(l), TimerEigrp))
    ensures forall k: nat :: Timers.Now(l).clock > k * UPDATE_INTERVAL ==> EigrpNetwork.KnowsWithin(net, db, k)
    ensures Timers.Now(l).clock > |db| * UPDATE_INTERVAL ==> Converged(EIGRP, net, db)
  {
    EigrpNetwork.EigrpAfterCycles(net, run, db, Timers.Count(Timers.FiredIn(l), TimerEigrp));
    forall k: nat | Timers.Now(l).clock > k * UPDATE_INTERVAL ensures EigrpNetwork.KnowsWithin(net, db, k) {
      Timers.FiredByThen(l, TimerEigrp, k);
    }
    if Timers.Now(l).clock > |db| * UPDATE_INTERVAL {
      Timers.FiredByThen(l, TimerEigrp, |db|);
    }
  }

  /** The run loop of an engine whose routers run RIP. */
  class Engine {
    const scheduler: EventScheduler
    const rip: RipNetwork.Manager
    ghost var past: Timers.Loop
    ghost var ripRun: seq<Db>

    ghost predicate Ticks()
      reads this`past, scheduler, scheduler.Repr
    {
      && scheduler.Valid() && this !in scheduler.Repr && rip !in scheduler.Repr
      && Timers.Legal(past) && scheduler.View() == Timers.Now(past)
    }

    /** RIP has run `k` cycles. */
    ghost predicate RipRan(k: nat)
      reads this`ripRun, rip
    {
      rip.Valid() && UniquePorts(rip.config.links) && Reached(RIP, RipNetwork.NetOf(rip.config), ripRun, rip.db, k)
    }

    /** How often the RIP timer has fired. */
    ghost function Fired(): nat
      reads this`past
    {
      Timers.Count(Timers.FiredIn(past), TimerRip)
    }

    ghost predicate Valid()
      reads this, scheduler, scheduler.Repr, rip
    {
      Ticks() && RipRan(Fired())
    }

    /** A configured topology with empty databases; the timers are not yet scheduled. */
    constructor (c: Config)
      requires UniquePorts(c.links)
      ensures scheduler.Valid() && scheduler.View() == EMPTY && this !in scheduler.Repr && rip !in scheduler.Repr
      ensures fresh(scheduler.Repr) && fresh(rip) && rip.config == c && RipRan(0)
    {
      rip := new RipNetwork.Manager(c);
      scheduler := new EventScheduler();
      past := Timers.Boot(EMPTY);
      new;
      RipNetwork.NetIsWellFormed(c, rip.db);
      StartsSound(RIP, RipNetwork.NetOf(c), rip.db);
      ripRun := [rip.db];
    }

    /** Start-up schedules the protocol timers. */
    method Start()
      requires scheduler.Valid() && scheduler.View() == EMPTY && RipRan(0)
      requires this !in scheduler.Repr && rip !in scheduler.Repr
      modifies this`past, scheduler.Repr
      ensures Valid() && fresh(scheduler.Repr - old(scheduler.Repr))
    {
      Timers.ScheduleProtocolTimers(scheduler);
      past := Timers.Boot(scheduler.View());
    }

    method FireRip(simTime: int, ghost k: nat)
      requires RipRan(k)
      modifies rip`db, rip`rows, this`ripRun
      ensures RipRan(k + 1)
    {
      ghost var before := rip.db;
      rip.HandleRipTimer(simTime);
      CyclesGrow(RIP, RipNetwork.NetOf(rip.config), ripRun, before, rip.db, k);
      ripRun := ripRun + [rip.db];
    }

    /** One iteration of the run loop: the next event of any kind is handled, a RIP timer runs the
        update cycle, and any traffic is scheduled. */
    method RunOnce(handler: seq<Timers.Request>, others: seq<Timers.Request>) returns (event: Event?)
      requires Valid() && Timers.IsTraffic(handler) && Timers.IsTraffic(others)
      modifies this`past, this`ripRun, scheduler.Repr, rip`db, rip`rows
      ensures Valid() && fresh(scheduler.Repr - old(scheduler.Repr)) && (event != null ==> past.Turned?)
    {
      ghost var k := Fired();
      event := Timers.RunOnce(scheduler, handler, others);
      if event != null {
        past := Timers.Turned(past, event.Value(), handler, others);
        if event.Type == TimerRip {
          FireRip(scheduler.simClock, k);
        }
      }
    }

    /** At every boundary of the loop after its first turn: a network whose shortest chain of cables
        has j links is known once simulated time has passed j update intervals, and RIP has
        converged once it has passed 14 of them, whatever else was handled. */
    lemma TimeConverges()
      requires Valid() && past.Turned?
      ensures forall k: nat :: scheduler.simClock > k * UPDATE_INTERVAL ==>
                RipNetwork.KnowsWithin14(RipNetwork.NetOf(rip.config), rip.db, k)
      ensures scheduler.simClock > 14 * UPDATE_INTERVAL ==> Converged(RIP, RipNetwork.NetOf(rip.config), rip.db)
    {
      RipByThen(RipNetwork.NetOf(rip.config), ripRun, rip.db, past);
    }
  }
}
