/** The discrete-event scheduler: a binary heap of events with back-pointing indices, and a
    virtual clock. The class is proved against a specification state whose queue is a set.
 */
module Scheduler {
  import opened Addressing

  datatype EventType =
    | PacketTx | PacketRx | LinkToggle
    | TimerIcmp | TimerVoip
    | TimerOspf | TimerRip | TimerEigrp | TimerBgp | TimerCdp | TimerStp | TimerHsrp | TimerVtp

  /** The identifier of a ping session: its family, source device and start time. */
  datatype SessionKey = SessionKey(ipv6: bool, source: Id, sentAt: int)

  datatype Data = NoData | Frame(number: nat) | Session(key: SessionKey)

  /** The immutable part of an event. */
  datatype Ev = Ev(id: nat, timestamp: int, typ: EventType, data: Data)

  // ---------------------------------------------------------------- specification

  /** What the scheduler promises its callers, with the heap abstracted to a set. */
  datatype State = State(queue: set<Ev>, clock: int, count: nat)

  const EMPTY := State({}, 0, 0)

  function Scheduled(s: State, typ: EventType, offset: int, data: Data): State {
    State(s.queue + {Ev(s.count + 1, s.clock + offset, typ, data)}, s.clock, s.count + 1)
  }

  /** A queued event that no queued event precedes. */
  ghost predicate IsNext(s: State, e: Ev) {
    e in s.queue && forall x :: x in s.queue ==> e.timestamp <= x.timestamp
  }

  function Stepped(s: State, e: Ev): State {
    State(s.queue - {e}, e.timestamp, s.count)
  }

  /** No queued event lies in the past. */
  ghost predicate NothingPast(s: State) {
    forall e :: e in s.queue ==> s.clock <= e.timestamp
  }

  // Runs: everything ever scheduled, and everything emitted, in order.
  datatype Action = Schedule(typ: EventType, offset: int, data: Data) | Step(e: Ev)

  datatype Log = Log(state: State, scheduled: set<Ev>, emitted: seq<Ev>)

  ghost predicate Allowed(l: Log, a: Action) {
    a.Step? ==> IsNext(l.state, a.e)
  }

  function Act(l: Log, a: Action): Log {
    match a
    case Schedule(t, o, d) =>
      Log(Scheduled(l.state, t, o, d), l.scheduled + {Ev(l.state.count + 1, l.state.clock + o, t, d)}, l.emitted)
    case Step(e) => Log(Stepped(l.state, e), l.scheduled, l.emitted + [e])
  }

  /** Scheduled = emitted + queued, disjointly and without repetition; IDs are unique for ever. */
  ghost predicate Conserved(l: Log) {
    && (forall e :: e in l.scheduled <==> e in l.emitted || e in l.state.queue)
    && (forall e :: e in l.emitted ==> e !in l.state.queue)
    && (forall i, j :: 0 <= i < j < |l.emitted| ==> l.emitted[i] != l.emitted[j])
    && (forall e :: e in l.scheduled ==> 1 <= e.id <= l.state.count)
    && (forall a, b :: a in l.scheduled && b in l.scheduled && a.id == b.id ==> a == b)
  }

  /** Events were emitted in time order and none is queued before the clock. */
  ghost predicate Chronological(l: Log) {
    && NothingPast(l.state)
    && (forall i, j :: 0 <= i <= j < |l.emitted| ==> l.emitted[i].timestamp <= l.emitted[j].timestamp)
    && (forall e :: e in l.emitted ==> e.timestamp <= l.state.clock)
  }

  ghost predicate Run(logs: seq<Log>, actions: seq<Action>) {
    && |logs| == |actions| + 1 && logs[0] == Log(EMPTY, {}, [])
    && forall i :: 0 <= i < |actions| ==> Allowed(logs[i], actions[i]) && logs[i + 1] == Act(logs[i], actions[i])
  }

  lemma ActConserves(l: Log, a: Action)
    requires Conserved(l) && Allowed(l, a)
    ensures Conserved(Act(l, a))
  {}

  lemma ActChronological(l: Log, a: Action)
    requires Conserved(l) && Chronological(l) && Allowed(l, a) && (a.Schedule? ==> a.offset >= 0)
    ensures Chronological(Act(l, a)) && l.state.clock <= Act(l, a).state.clock
  {}

  /** Conservation over whole runs, for any offsets. */
  lemma {:induction false} RunConserves(logs: seq<Log>, actions: seq<Action>, k: nat)
    requires Run(logs, actions) && k < |logs|
    ensures Conserved(logs[k])
  {
    if k > 0 {
      RunConserves(logs, actions, k - 1);
      assert logs[k - 1 + 1] == Act(logs[k - 1], actions[k - 1]);
      ActConserves(logs[k - 1], actions[k - 1]);
    }
  }

  /** With non-negative offsets the clock never moves back and events come out in time order. */
  lemma {:induction false} RunIsChronological(logs: seq<Log>, actions: seq<Action>, k: nat)
    requires Run(logs, actions) && k < |logs|
    requires forall i :: 0 <= i < |actions| && actions[i].Schedule? ==> actions[i].offset >= 0
    ensures Chronological(logs[k]) && (k > 0 ==> logs[k - 1].state.clock <= logs[k].state.clock)
  {
    if k > 0 {
      RunIsChronological(logs, actions, k - 1);
      RunConserves(logs, actions, k - 1);
      assert logs[k - 1 + 1] == Act(logs[k - 1], actions[k - 1]);
      ActChronological(logs[k - 1], actions[k - 1]);
    }
  }

  // ---------------------------------------------------------------- the heap

  class Event {
    const ID: nat
    const Timestamp: int
    const Type: EventType
    const Data: Data
    var Index: int

    constructor (id: nat, timestamp: int, typ: EventType, data: Data)
      ensures ID == id && Timestamp == timestamp && Type == typ && Data == data && Index == 0
    {
      ID, Timestamp, Type, Data, Index := id, timestamp, typ, data, 0;
    }

    function Value(): Ev {
      Ev(ID, Timestamp, Type, Data)
    }
  }

  /** The parent's slot; container/heap divides truncating, so slot 0 is its own parent. */
  function Parent(i: nat): nat {
    if i == 0 then 0 else (i - 1) / 2
  }

  predicate Below(pq: seq<Event>, i: nat)
    requires i < |pq|
  {
    pq[Parent(i)].Timestamp <= pq[i].Timestamp
  }

  /** Heap order on the first `n` slots. */
  ghost predicate HeapOrder(pq: seq<Event>, n: nat) {
    n <= |pq| && forall i :: 0 < i < n ==> Below(pq, i)
  }

  /** Heap order on the first `n` slots except that `j` may be smaller than its parent. */
  ghost predicate HeapButUp(pq: seq<Event>, n: nat, j: nat) {
    && j < n <= |pq|
    && (forall i :: 0 < i < n && i != j ==> Below(pq, i))
    && (forall i :: 0 < i < n && Parent(i) == j && j > 0 ==> pq[Parent(j)].Timestamp <= pq[i].Timestamp)
  }

  /** Heap order on the first `n` slots except that `j` may be greater than its children. */
  ghost predicate HeapButDown(pq: seq<Event>, n: nat, j: nat) {
    && n <= |pq|
    && (forall i :: 0 < i < n && Parent(i) != j ==> Below(pq, i))
    && (forall i :: 0 < i < n && Parent(i) == j && j > 0 ==> pq[Parent(j)].Timestamp <= pq[i].Timestamp)
  }

  ghost predicate SameEvents(a: seq<Event>, b: seq<Event>) {
    |a| == |b| && (forall e :: e in a ==> e in b) && (forall e :: e in b ==> e in a)
  }

  lemma {:induction false} RootIsLeast(pq: seq<Event>, n: nat, i: nat)
    requires HeapOrder(pq, n) && i < n
    ensures pq[0].Timestamp <= pq[i].Timestamp
  {
    if i > 0 {
      assert Below(pq, i);
      RootIsLeast(pq, n, Parent(i));
    }
  }

  /** The events of a heap, as values. */
  ghost function Values(pq: seq<Event>): set<Ev> {
    set e | e in pq :: e.Value()
  }

  /** IDs have been issued and identify events. */
  ghost predicate UniqueEvents(pq: seq<Event>, count: nat) {
    && (forall e :: e in pq ==> 1 <= e.ID <= count)
    && (forall a, b :: a in pq && b in pq && a.ID == b.ID ==> a == b)
  }

  lemma PushKeepsUnique(pq: seq<Event>, e: Event, q: seq<Event>, count: nat)
    requires UniqueEvents(pq, count) && e.ID == count + 1 && SameEvents(pq + [e], q)
    ensures UniqueEvents(q, count + 1)
  {
    forall a | a in q ensures a in pq || a == e {
      assert a in pq + [e];
    }
  }

  lemma SameEventsSameValues(a: seq<Event>, b: seq<Event>)
    requires SameEvents(a, b)
    ensures Values(a) == Values(b)
  {}

  lemma PushValues(pq: seq<Event>, e: Event)
    ensures Values(pq + [e]) == Values(pq) + {e.Value()}
  {
    forall v | v in Values(pq) ensures v in Values(pq + [e]) {
      var x :| x in pq && x.Value() == v;
      assert x in pq + [e];
    }
    assert e in pq + [e];
  }

  lemma PushedValues(pq: seq<Event>, e: Event, q: seq<Event>)
    requires SameEvents(pq + [e], q)
    ensures Values(q) == Values(pq) + {e.Value()}
    ensures forall x :: x in q ==> x in pq || x == e
  {
    PushValues(pq, e);
    SameEventsSameValues(pq + [e], q);
  }

  lemma PopValues(pq: seq<Event>, n: nat)
    requires n + 1 == |pq| && forall i :: 0 <= i < n ==> pq[i].ID != pq[n].ID
    ensures Values(pq[..n]) == Values(pq) - {pq[n].Value()}
  {
    forall v | v in Values(pq) && v != pq[n].Value() ensures v in Values(pq[..n]) {
      var x :| x in pq && x.Value() == v;
      var k :| 0 <= k < |pq| && pq[k] == x;
      assert pq[..n][k] == x;
    }
  }

  /** The child that heap.down considers: the left one unless the right one is smaller. */
  function SmallerChild(pq: seq<Event>, n: nat, i: nat): (j: nat)
    requires 2 * i + 1 < n <= |pq|
    ensures 0 < j < n && Parent(j) == i
    ensures forall k :: 0 < k < n && Parent(k) == i ==> pq[j].Timestamp <= pq[k].Timestamp
  {
    if 2 * i + 2 < n && pq[2 * i + 2].Timestamp < pq[2 * i + 1].Timestamp then 2 * i + 2 else 2 * i + 1
  }

  function SwapSeq(pq: seq<Event>, i: nat, j: nat): seq<Event>
    requires i < |pq| && j < |pq|
  {
    pq[i := pq[j]][j := pq[i]]
  }

  lemma SwapSameEvents(pq: seq<Event>, i: nat, j: nat)
    requires i < |pq| && j < |pq|
    ensures SameEvents(pq, SwapSeq(pq, i, j))
  {
    var q := SwapSeq(pq, i, j);
    forall e | e in pq ensures e in q {
      var k :| 0 <= k < |pq| && pq[k] == e;
      assert q[if k == i then j else if k == j then i else k] == e;
    }
    forall e | e in q ensures e in pq {
      var k :| 0 <= k < |q| && q[k] == e;
      assert pq[if k == i then j else if k == j then i else k] == e;
    }
  }

  lemma PushKeepsOrder(pq: seq<Event>, e: Event)
    requires HeapOrder(pq, |pq|)
    ensures HeapButUp(pq + [e], |pq| + 1, |pq|)
  {
    forall i | 0 < i < |pq| ensures Below(pq + [e], i) {
      assert Below(pq, i);
    }
  }

  lemma RootSwapKeepsOrder(pq: seq<Event>, n: nat)
    requires HeapOrder(pq, |pq|) && n == |pq| - 1
    ensures HeapButDown(SwapSeq(pq, 0, n), n, 0)
  {
    forall i | 0 < i < n && Parent(i) != 0 ensures Below(SwapSeq(pq, 0, n), i) {
      assert Below(pq, i);
    }
  }

  lemma PrefixKeepsOrder(pq: seq<Event>, n: nat)
    requires HeapOrder(pq, n)
    ensures HeapOrder(pq[..n], n)
  {
    forall i | 0 < i < n ensures Below(pq[..n], i) {
      assert Below(pq, i);
    }
  }

  lemma SiftUpStep(pq: seq<Event>, n: nat, j: nat)
    requires HeapButUp(pq, n, j) && j > 0 && pq[j].Timestamp < pq[Parent(j)].Timestamp
    ensures HeapButUp(SwapSeq(pq, Parent(j), j), n, Parent(j))
  {
    var i, q := Parent(j), SwapSeq(pq, Parent(j), j);
    forall k | 0 < k < n && k != i ensures Below(q, k) {
      if k == j {
      } else if Parent(k) == j {
      } else if Parent(k) == i {
        assert Below(pq, k);
      } else {
        assert Below(pq, k);
      }
    }
    forall k | 0 < k < n && Parent(k) == i && i > 0 ensures q[Parent(i)].Timestamp <= q[k].Timestamp {
      assert Below(pq, i);
      if k != j {
        assert Below(pq, k);
      }
    }
  }

  lemma SiftDownStep(pq: seq<Event>, n: nat, i: nat, j: nat)
    requires HeapButDown(pq, n, i) && 0 < j < n && Parent(j) == i
    requires forall k :: 0 < k < n && Parent(k) == i ==> pq[j].Timestamp <= pq[k].Timestamp
    requires pq[j].Timestamp < pq[i].Timestamp
    ensures HeapButDown(SwapSeq(pq, i, j), n, j)
  {
    var q := SwapSeq(pq, i, j);
    forall k | 0 < k < n && Parent(k) != j ensures Below(q, k) {
      if Parent(k) == i {
      } else if k == i {
        assert pq[Parent(i)].Timestamp <= pq[j].Timestamp;
      } else {
        assert Below(pq, k);
      }
    }
    forall k | 0 < k < n && Parent(k) == j ensures q[Parent(j)].Timestamp <= q[k].Timestamp {
      assert Below(pq, k);
    }
  }

  class EventScheduler {
    var pq: seq<Event>
    var simClock: int
    var eventCount: nat
    ghost var Repr: set<object>

    /** Every event knows its slot; hence no event is in two slots. */
    ghost predicate Indexed()
      reads this`pq, pq
    {
      forall i :: 0 <= i < |pq| ==> pq[i].Index == i
    }

    ghost function View(): State
      reads this`pq, this`simClock, this`eventCount
    {
      State(Values(pq), simClock, eventCount)
    }

    ghost predicate Valid()
      reads this, Repr
      ensures Valid() ==> this in Repr
    {
      && this in Repr && (forall e :: e in pq ==> e in Repr)
      && Indexed() && HeapOrder(pq, |pq|) && UniqueEvents(pq, eventCount)
    }

    constructor ()
      ensures Valid() && fresh(Repr) && View() == EMPTY
    {
      pq, simClock, eventCount, Repr := [], 0, 0, {this};
    }

    method Swap(i: nat, j: nat)
      requires i < |pq| && j < |pq| && Indexed()
      modifies this`pq, {pq[i], pq[j]}`Index
      ensures pq == SwapSeq(old(pq), i, j) && Indexed()
    {
      var a, b := pq[i], pq[j];
      pq := pq[i := b][j := a];
      pq[i].Index := i;
      pq[j].Index := j;
    }

    /** heap.up: swaps with the parent while smaller. */
    method Up(start: nat)
      requires Indexed() && HeapButUp(pq, |pq|, start)
      modifies this`pq, pq`Index
      ensures Indexed() && HeapOrder(pq, |pq|) && SameEvents(old(pq), pq)
    {
      var j := start;
      while true
        invariant Indexed() && HeapButUp(pq, |pq|, j) && SameEvents(old(pq), pq)
        decreases j
      {
        var i := Parent(j);
        if i == j || !(pq[j].Timestamp < pq[i].Timestamp) {
          break;
        }
        SiftUpStep(pq, |pq|, j);
        SwapSameEvents(pq, i, j);
        assert pq[i] in pq && pq[j] in pq;
        Swap(i, j);
        j := i;
      }
    }

    /** heap.down on the first `n` slots: swaps with the smaller child while greater. */
    method Down(n: nat)
      requires Indexed() && n <= |pq| && HeapButDown(pq, n, 0)
      modifies this`pq, pq`Index
      ensures Indexed() && HeapOrder(pq, n) && SameEvents(old(pq), pq)
      ensures forall k :: n <= k < |pq| ==> pq[k] == old(pq)[k]
    {
      var i := 0;
      while true
        invariant Indexed() && HeapButDown(pq, n, i) && SameEvents(old(pq), pq)
        invariant forall k :: n <= k < |pq| ==> pq[k] == old(pq)[k]
        decreases n - i
      {
        if 2 * i + 1 >= n {
          break;
        }
        var j := SmallerChild(pq, n, i);
        if !(pq[j].Timestamp < pq[i].Timestamp) {
          break;
        }
        SiftDownStep(pq, n, i, j);
        SwapSameEvents(pq, i, j);
        assert pq[i] in pq && pq[j] in pq;
        Swap(i, j);
        i := j;
      }
    }

    /** heap.Push: appended in the last slot, then sifted up. */
    method Push(event: Event)
      requires Indexed() && HeapOrder(pq, |pq|) && event !in pq
      modifies this`pq, pq`Index, event`Index
      ensures Indexed() && HeapOrder(pq, |pq|) && SameEvents(old(pq) + [event], pq)
    {
      event.Index := |pq|;
      PushKeepsOrder(pq, event);
      pq := pq + [event];
      Up(|pq| - 1);
    }

    /** Inserts a new event `offset` into the future of the clock. */
    method Schedule(eventType: EventType, offset: int, data: Data)
      requires Valid()
      modifies Repr
      ensures Valid() && fresh(Repr - old(Repr)) && View() == Scheduled(old(View()), eventType, offset, data)
    {
      ghost var was := pq;
      eventCount := eventCount + 1;
      var event := new Event(eventCount, simClock + offset, eventType, data);
      Repr := Repr + {event};
      Push(event);
      PushedValues(was, event, pq);
      PushKeepsUnique(was, event, pq, old(eventCount));
    }

    /** Removes the earliest event and advances the clock to it. */
    method Step() returns (event: Event?)
      requires Valid()
      modifies Repr
      ensures Valid() && Repr == old(Repr)
      ensures event == null <==> old(pq) == []
      ensures event == null ==> View() == old(View())
      ensures event != null ==> event in old(pq) && event.Index == -1 && IsNext(old(View()), event.Value())
                                && View() == Stepped(old(View()), event.Value())
    {
      if |pq| == 0 {
        return null;
      }
      var n := |pq| - 1;
      ghost var least := pq[0];
      forall i | 0 <= i < |pq| ensures least.Timestamp <= pq[i].Timestamp {
        RootIsLeast(pq, |pq|, i);
      }
      SwapSameEvents(pq, 0, n);
      RootSwapKeepsOrder(pq, n);
      Swap(0, n);
      Down(n);
      PrefixKeepsOrder(pq, n);
      SameEventsSameValues(old(pq), pq);
      PopValues(pq, n);
      event := pq[n];
      event.Index := -1;
      pq := pq[..n];
      simClock := event.Timestamp;
    }
  }
}
