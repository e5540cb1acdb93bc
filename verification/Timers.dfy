/** The recurring protocol timers: start-up, the handler that reschedules them, and the run loop
    with any number of packet, ping and voice events interleaved.
 */
module Timers {
  import opened Scheduler

  const SECOND := 1_000_000_000

  predicate IsProtocolTimer(t: EventType) {
    t in {TimerOspf, TimerRip, TimerEigrp, TimerBgp, TimerCdp, TimerStp, TimerHsrp, TimerVtp}
  }

  function Interval(t: EventType): int {
    match t
    case TimerOspf => 10 * SECOND
    case TimerRip => 30 * SECOND
    case TimerEigrp => 30 * SECOND
    case TimerBgp => 60 * SECOND
    case TimerCdp => 60 * SECOND
    case TimerStp => 30 * SECOND
    case TimerHsrp => 3 * SECOND
    case TimerVtp => 30 * SECOND
    case _ => 0
  }

  /** Something another part of the engine schedules: a frame, a ping timeout, a voice job. */
  datatype Request = Request(typ: EventType, offset: int, data: Data)

  predicate IsTraffic(rs: seq<Request>) {
    forall r :: r in rs ==> !IsProtocolTimer(r.typ)
  }

  function Enqueue(s: State, rs: seq<Request>): State
    decreases |rs|
  {
    if rs == [] then s else Enqueue(Scheduled(s, rs[0].typ, rs[0].offset, rs[0].data), rs[1..])
  }

  function Reschedule(s: State, t: EventType): State {
    if IsProtocolTimer(t) then Scheduled(s, t, Interval(t), NoData) else s
  }

  /** One turn of the run loop: the event leaves, the handler's traffic enters, a protocol timer
      is scheduled again, and other goroutines may add traffic before the next turn. */
  function Turn(s: State, e: Ev, handler: seq<Request>, others: seq<Request>): State {
    Enqueue(Reschedule(Enqueue(Stepped(s, e), handler), e.typ), others)
  }

  const STARTUP: seq<EventType> := [TimerOspf, TimerRip, TimerEigrp, TimerBgp, TimerCdp, TimerStp, TimerHsrp, TimerVtp]

  function StartTimers(s: State, ts: seq<EventType>): State
    decreases |ts|
  {
    if ts == [] then s else Reschedule(StartTimers(s, ts[..|ts| - 1]), ts[|ts| - 1])
  }

  // ---------------------------------------------------------------- the methods

  method ScheduleAll(scheduler: EventScheduler, rs: seq<Request>)
    requires scheduler.Valid()
    modifies scheduler.Repr
    ensures scheduler.Valid() && scheduler.View() == Enqueue(old(scheduler.View()), rs)
    ensures fresh(scheduler.Repr - old(scheduler.Repr))
  {
    for i := 0 to |rs|
      invariant scheduler.Valid() && Enqueue(scheduler.View(), rs[i..]) == Enqueue(old(scheduler.View()), rs)
      invariant fresh(scheduler.Repr - old(scheduler.Repr))
    {
      assert rs[i..][1..] == rs[i + 1..];
      scheduler.Schedule(rs[i].typ, rs[i].offset, rs[i].data);
    }
  }

  /** HandleTimerEvent and HandleExtendedTimer, after the protocol's own cycle: the timer is
      scheduled again with the interval of its type; other types are ignored. */
  method HandleTimerEvent(eventType: EventType, scheduler: EventScheduler)
    requires scheduler.Valid()
    modifies scheduler.Repr
    ensures scheduler.Valid() && scheduler.View() == Reschedule(old(scheduler.View()), eventType)
    ensures fresh(scheduler.Repr - old(scheduler.Repr))
  {
    match eventType
    case TimerOspf => scheduler.Schedule(TimerOspf, 10_000_000_000, NoData);
    case TimerRip => scheduler.Schedule(TimerRip, 30_000_000_000, NoData);
    case TimerEigrp => scheduler.Schedule(TimerEigrp, 30_000_000_000, NoData);
    case TimerBgp => scheduler.Schedule(TimerBgp, 60_000_000_000, NoData);
    case TimerCdp => scheduler.Schedule(TimerCdp, 60_000_000_000, NoData);
    case TimerStp => scheduler.Schedule(TimerStp, 30_000_000_000, NoData);
    case TimerHsrp => scheduler.Schedule(TimerHsrp, 3_000_000_000, NoData);
    case TimerVtp => scheduler.Schedule(TimerVtp, 30_000_000_000, NoData);
    case _ =>
  }

  /** ScheduleProtocolTimers with ScheduleExtendedTimers. */
  method ScheduleProtocolTimers(scheduler: EventScheduler)
    requires scheduler.Valid()
    modifies scheduler.Repr
    ensures scheduler.Valid() && scheduler.View() == StartTimers(old(scheduler.View()), STARTUP)
    ensures fresh(scheduler.Repr - old(scheduler.Repr))
    ensures old(scheduler.View()) == EMPTY ==> TimersRun(scheduler.View(), map[])
  {
    for i := 0 to |STARTUP|
      invariant scheduler.Valid() && scheduler.View() == StartTimers(old(scheduler.View()), STARTUP[..i])
      invariant fresh(scheduler.Repr - old(scheduler.Repr))
    {
      assert STARTUP[..i + 1][..i] == STARTUP[..i];
      HandleTimerEvent(STARTUP[i], scheduler);
    }
    assert STARTUP[..|STARTUP|] == STARTUP;
    if old(scheduler.View()) == EMPTY {
      StartupTimersRun(scheduler.View());
    }
  }

  /** One iteration of the run loop; nothing happens on an empty queue. */
  method RunOnce(scheduler: EventScheduler, handler: seq<Request>, others: seq<Request>) returns (event: Event?)
    requires scheduler.Valid()
    modifies scheduler.Repr
    ensures scheduler.Valid() && fresh(scheduler.Repr - old(scheduler.Repr))
    ensures event == null ==> scheduler.View() == old(scheduler.View()) && old(scheduler.View()).queue == {}
    ensures event != null ==> IsNext(old(scheduler.View()), event.Value())
                              && scheduler.View() == Turn(old(scheduler.View()), event.Value(), handler, others)
  {
    event := scheduler.Step();
    if event != null {
      ScheduleAll(scheduler, handler);
      HandleTimerEvent(event.Type, scheduler);
      ScheduleAll(scheduler, others);
    }
  }

  // ---------------------------------------------------------------- whole runs

  /** The simulated time at which the k-th event of a timer is due. */
  function Due(t: EventType, k: nat): int {
    if k == 0 then 0 else Due(t, k - 1) + Interval(t)
  }

  /** Exactly one event of this type is queued, and this is its time. */
  ghost predicate OnlyTimer(s: State, t: EventType, time: int) {
    && (exists e :: e in s.queue && e.typ == t && e.timestamp == time)
    && (forall a, b :: a in s.queue && b in s.queue && a.typ == t && b.typ == t ==> a == b)
  }

  ghost predicate NoTimer(s: State, t: EventType) {
    forall e :: e in s.queue ==> e.typ != t
  }

  type Fired = map<EventType, nat>

  function Count(fired: Fired, t: EventType): nat {
    if t in fired then fired[t] else 0
  }

  /** Each protocol timer has one pending event, due one interval after its last. */
  ghost predicate TimersRun(s: State, fired: Fired) {
    forall t :: IsProtocolTimer(t) ==> OnlyTimer(s, t, Due(t, Count(fired, t) + 1))
  }

  lemma ScheduleKeepsTimer(s: State, r: Request, t: EventType, time: int)
    requires r.typ != t && OnlyTimer(s, t, time)
    ensures OnlyTimer(Scheduled(s, r.typ, r.offset, r.data), t, time)
  {
    var e :| e in s.queue && e.typ == t && e.timestamp == time;
    assert e in Scheduled(s, r.typ, r.offset, r.data).queue;
  }

  lemma {:induction false} EnqueueKeepsTimer(s: State, rs: seq<Request>, t: EventType, time: int)
    requires IsTraffic(rs) && IsProtocolTimer(t) && OnlyTimer(s, t, time)
    ensures OnlyTimer(Enqueue(s, rs), t, time)
    decreases |rs|
  {
    if rs != [] {
      var r := rs[0];
      assert r in rs && forall x :: x in rs[1..] ==> x in rs;
      ScheduleKeepsTimer(s, r, t, time);
      EnqueueKeepsTimer(Scheduled(s, r.typ, r.offset, r.data), rs[1..], t, time);
    }
  }

  lemma {:induction false} EnqueueStartsNoTimer(s: State, rs: seq<Request>, t: EventType)
    requires IsTraffic(rs) && IsProtocolTimer(t) && NoTimer(s, t)
    ensures Enqueue(s, rs).clock == s.clock && NoTimer(Enqueue(s, rs), t)
    decreases |rs|
  {
    if rs != [] {
      var r := rs[0];
      assert r in rs && forall x :: x in rs[1..] ==> x in rs;
      EnqueueStartsNoTimer(Scheduled(s, r.typ, r.offset, r.data), rs[1..], t);
    }
  }

  lemma RescheduleStartsTimer(s: State, t: EventType)
    requires IsProtocolTimer(t) && NoTimer(s, t)
    ensures OnlyTimer(Reschedule(s, t), t, s.clock + Interval(t))
  {
    assert Ev(s.count + 1, s.clock + Interval(t), t, NoData) in Reschedule(s, t).queue;
  }

  lemma RescheduleKeepsOthers(s: State, t: EventType, other: EventType, time: int)
    requires other != t && OnlyTimer(s, other, time)
    ensures OnlyTimer(Reschedule(s, t), other, time)
  {
    ScheduleKeepsTimer(s, Request(t, Interval(t), NoData), other, time);
  }

  /** A turn that emits something else keeps the timer; a turn that emits it moves it on. */
  lemma TurnKeepsTimer(s: State, fired: Fired, e: Ev, handler: seq<Request>, others: seq<Request>, t: EventType)
    requires TimersRun(s, fired) && IsNext(s, e) && IsTraffic(handler) && IsTraffic(others) && IsProtocolTimer(t)
    ensures var k := Count(fired, t) + 1;
            var s' := Turn(s, e, handler, others);
            if e.typ == t then e.timestamp == Due(t, k) && OnlyTimer(s', t, Due(t, k + 1))
            else OnlyTimer(s', t, Due(t, k))
  {
    var k := Count(fired, t) + 1;
    var popped := Stepped(s, e);
    var busy := Enqueue(popped, handler);
    assert OnlyTimer(s, t, Due(t, k));
    if e.typ == t {
      EnqueueStartsNoTimer(popped, handler, t);
      RescheduleStartsTimer(busy, t);
      EnqueueKeepsTimer(Reschedule(busy, t), others, t, Due(t, k + 1));
    } else {
      var x :| x in s.queue && x.typ == t && x.timestamp == Due(t, k);
      assert x in popped.queue;
      EnqueueKeepsTimer(popped, handler, t, Due(t, k));
      RescheduleKeepsOthers(busy, e.typ, t, Due(t, k));
      EnqueueKeepsTimer(Reschedule(busy, e.typ), others, t, Due(t, k));
    }
  }

  /** A run of the loop: a first state and the turns taken since. */
  datatype Loop = Boot(first: State) | Turned(past: Loop, e: Ev, handler: seq<Request>, others: seq<Request>)

  /** The state at the boundary of the loop after the run. */
  function Now(l: Loop): State {
    match l
    case Boot(s) => s
    case Turned(past, e, handler, others) => Turn(Now(past), e, handler, others)
  }

  /** The first state is like the one that start-up leaves; each turn emits a next event. */
  ghost predicate Legal(l: Loop) {
    match l
    case Boot(s) => TimersRun(s, map[])
    case Turned(past, e, handler, others) =>
      Legal(past) && IsNext(Now(past), e) && IsTraffic(handler) && IsTraffic(others)
  }

  /** How many events of each type the run has emitted. */
  function FiredIn(l: Loop): Fired {
    match l
    case Boot(_) => map[]
    case Turned(past, e, _, _) => FiredIn(past)[e.typ := Count(FiredIn(past), e.typ) + 1]
  }

  lemma {:induction false} StartupRuns(ts: seq<EventType>)
    requires forall i, j :: 0 <= i < j < |ts| ==> ts[i] != ts[j]
    requires forall t :: t in ts ==> IsProtocolTimer(t)
    ensures var s := StartTimers(EMPTY, ts);
            s.clock == 0 && (forall t :: t in ts ==> OnlyTimer(s, t, Interval(t)))
            && (forall t :: IsProtocolTimer(t) && t !in ts ==> NoTimer(s, t))
    decreases |ts|
  {
    if ts != [] {
      var front, last := ts[..|ts| - 1], ts[|ts| - 1];
      StartupRuns(front);
      var s := StartTimers(EMPTY, front);
      RescheduleStartsTimer(s, last);
      forall t | t in ts && t != last ensures OnlyTimer(Reschedule(s, last), t, Interval(t)) {
        assert t in front;
        RescheduleKeepsOthers(s, last, t, Interval(t));
      }
    }
  }

  lemma ListedTimersRun(ts: seq<EventType>, s: State)
    requires s == StartTimers(EMPTY, ts)
    requires forall i, j :: 0 <= i < j < |ts| ==> ts[i] != ts[j]
    requires forall t :: t in ts <==> IsProtocolTimer(t)
    ensures TimersRun(s, map[])
  {
    StartupRuns(ts);
    forall t | IsProtocolTimer(t) ensures OnlyTimer(s, t, Due(t, Count(map[], t) + 1)) {
      assert t in ts && Due(t, 1) == Due(t, 0) + Interval(t);
    }
  }

  /** Start-up on a fresh scheduler leaves every timer pending at its interval. */
  lemma StartupTimersRun(s: State)
    requires s == StartTimers(EMPTY, STARTUP)
    ensures TimersRun(s, map[])
  {
    ListedTimersRun(STARTUP, s);
  }

  lemma TurnKeepsTimers(s: State, fired: Fired, e: Ev, handler: seq<Request>, others: seq<Request>)
    requires TimersRun(s, fired) && IsNext(s, e) && IsTraffic(handler) && IsTraffic(others)
    ensures TimersRun(Turn(s, e, handler, others), fired[e.typ := Count(fired, e.typ) + 1])
    ensures IsProtocolTimer(e.typ) ==> e.timestamp == Due(e.typ, Count(fired, e.typ) + 1)
  {
    var fired' := fired[e.typ := Count(fired, e.typ) + 1];
    forall t | IsProtocolTimer(t) ensures OnlyTimer(Turn(s, e, handler, others), t, Due(t, Count(fired', t) + 1)) {
      TurnKeepsTimer(s, fired, e, handler, others, t);
    }
    if IsProtocolTimer(e.typ) {
      TurnKeepsTimer(s, fired, e, handler, others, e.typ);
    }
  }

  /** At every boundary of the loop exactly one event of each protocol timer is pending, due one
      interval after the last, however much traffic is interleaved. */
  lemma {:induction false} TimersNeverStop(l: Loop)
    requires Legal(l)
    ensures TimersRun(Now(l), FiredIn(l))
  {
    if l.Turned? {
      TimersNeverStop(l.past);
      TurnKeepsTimers(Now(l.past), FiredIn(l.past), l.e, l.handler, l.others);
    }
  }

  lemma {:induction false} DueIsMultiple(t: EventType, k: nat)
    ensures Due(t, k) == k * Interval(t)
  {
    if k > 0 {
      DueIsMultiple(t, k - 1);
      assert k * Interval(t) == (k - 1) * Interval(t) + Interval(t);
    }
  }

  lemma KthIsDue(l: Loop)
    requires Legal(l) && l.Turned? && IsProtocolTimer(l.e.typ)
    ensures l.e.timestamp == Count(FiredIn(l), l.e.typ) * Interval(l.e.typ)
  {
    TimersNeverStop(l.past);
    TurnKeepsTimers(Now(l.past), FiredIn(l.past), l.e, l.handler, l.others);
    DueIsMultiple(l.e.typ, Count(FiredIn(l), l.e.typ));
  }

  /** The k-th event of a timer fires at simulated time exactly k times the interval of its type. */
  lemma KthFiringTime(l: Loop)
    requires Legal(l) && l.Turned?
    ensures var k := Count(FiredIn(l), l.e.typ);
            match l.e.typ
            case TimerOspf => l.e.timestamp == 10_000_000_000 * k
            case TimerRip => l.e.timestamp == 30_000_000_000 * k
            case TimerEigrp => l.e.timestamp == 30_000_000_000 * k
            case TimerBgp => l.e.timestamp == 60_000_000_000 * k
            case TimerCdp => l.e.timestamp == 60_000_000_000 * k
            case TimerStp => l.e.timestamp == 30_000_000_000 * k
            case TimerHsrp => l.e.timestamp == 3_000_000_000 * k
            case TimerVtp => l.e.timestamp == 30_000_000_000 * k
            case _ => true
  {
    if IsProtocolTimer(l.e.typ) {
      KthIsDue(l);
    }
  }

  // ---------------------------------------------------------------- traffic and the clock

  /** The event that the request at index `i` of the list becomes. */
  predicate IsRequest(s: State, rs: seq<Request>, i: nat, e: Ev)
    requires i < |rs|
  {
    e.id == s.count + 1 + i && e.timestamp == s.clock + rs[i].offset && e.typ == rs[i].typ && e.data == rs[i].data
  }

  /** Traffic is queued completely, in order and at its offsets, and nothing else changes. */
  lemma {:induction false} EnqueueAdds(s: State, rs: seq<Request>)
    ensures Enqueue(s, rs).clock == s.clock && Enqueue(s, rs).count == s.count + |rs|
    ensures forall e :: e in Enqueue(s, rs).queue <==> e in s.queue || exists i :: 0 <= i < |rs| && IsRequest(s, rs, i, e)
    decreases |rs|
  {
    if rs != [] {
      var s', rest := Scheduled(s, rs[0].typ, rs[0].offset, rs[0].data), rs[1..];
      EnqueueAdds(s', rest);
      forall e ensures e in Enqueue(s, rs).queue <==> e in s.queue || exists i :: 0 <= i < |rs| && IsRequest(s, rs, i, e) {
        if i :| 0 <= i < |rest| && IsRequest(s', rest, i, e) {
          assert IsRequest(s, rs, i + 1, e);
        }
        if i :| 0 <= i < |rs| && IsRequest(s, rs, i, e) {
          assert if i == 0 then e in s'.queue else IsRequest(s', rest, i - 1, e);
        }
        if e in s'.queue && e !in s.queue {
          assert IsRequest(s, rs, 0, e);
        }
      }
    }
  }

  lemma TurnSetsClock(s: State, e: Ev, handler: seq<Request>, others: seq<Request>)
    ensures Turn(s, e, handler, others).clock == e.timestamp
  {
    EnqueueAdds(Stepped(s, e), handler);
    EnqueueAdds(Reschedule(Enqueue(Stepped(s, e), handler), e.typ), others);
  }

  lemma NextIsNoLater(s: State, e: Ev, t: EventType, due: int)
    requires IsNext(s, e) && OnlyTimer(s, t, due)
    ensures e.timestamp <= due
  {}

  /** A timer event that is pending after a turn is not behind the clock. */
  lemma TurnIsAhead(s: State, fired: Fired, e: Ev, handler: seq<Request>, others: seq<Request>, t: EventType)
    requires TimersRun(s, fired) && IsNext(s, e) && IsProtocolTimer(t)
    ensures Turn(s, e, handler, others).clock <= Due(t, Count(fired[e.typ := Count(fired, e.typ) + 1], t) + 1)
  {
    var k := Count(fired, t) + 1;
    TurnSetsClock(s, e, handler, others);
    NextIsNoLater(s, e, t, Due(t, k));
    assert Due(t, k + 1) == Due(t, k) + Interval(t);
  }

  lemma {:induction false} DueGrows(t: EventType, i: nat, j: nat)
    requires i <= j
    ensures Due(t, i) <= Due(t, j)
    decreases j
  {
    if i < j {
      DueGrows(t, i, j - 1);
    }
  }

  /** Once the clock has passed k intervals of a timer, it has fired at least k times. */
  lemma FiredByThen(l: Loop, t: EventType, k: nat)
    requires Legal(l) && l.Turned? && IsProtocolTimer(t) && Now(l).clock > k * Interval(t)
    ensures Count(FiredIn(l), t) >= k
  {
    var n := Count(FiredIn(l), t);
    TimersNeverStop(l.past);
    TurnIsAhead(Now(l.past), FiredIn(l.past), l.e, l.handler, l.others, t);
    DueIsMultiple(t, k);
    if n < k {
      DueGrows(t, n + 1, k);
    }
  }
}
