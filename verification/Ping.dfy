/** Ping sessions: created with a pending timeout event, resolved by a reply, the timeout or the
    removal of their source. `tag` numbers the creations; the engine has no such field.
 */
module Ping {
  import opened Addressing
  import opened Scheduler
  import opened Timers

  const PING_TIMEOUT := 2_000_000_000

  datatype PingSession = PingSession(
    source: Id, destIP: string, icmpID: int, sequence: int, sentAt: int, requestID: string, tag: nat)

  type Sessions = map<SessionKey, PingSession>

  datatype PingResult = PingResult(source: Id, destIP: string, success: bool, rttMs: real, requestID: string, tag: nat)

  function Answered(x: PingSession, now: int): PingResult {
    PingResult(x.source, x.destIP, true, (now - x.sentAt) as real / 1_000_000.0, x.requestID, x.tag)
  }

  /** The result says that this session was answered now, in milliseconds since its start. */
  ghost predicate IsAnswer(r: PingResult, x: PingSession, now: int) {
    && r.source == x.source && r.destIP == x.destIP && r.requestID == x.requestID && r.tag == x.tag
    && r.success && r.rttMs * 1_000_000.0 == (now - x.sentAt) as real
  }

  function Failed(x: PingSession): PingResult {
    PingResult(x.source, x.destIP, false, 0.0, x.requestID, x.tag)
  }

  /** The echo identifier of a ping that starts now: the milliseconds, cut to 16 bits, modulo 65535. */
  function IcmpID(now: int): int {
    now / 1_000_000 % 65536 % 65535
  }

  /** The session that a start creates. */
  function NewSession(source: Id, destIP: string, requestID: string, now: int, tag: nat): PingSession {
    PingSession(source, destIP, IcmpID(now), 1, now, requestID, tag)
  }

  /** The results of cancelling the sessions of these keys, in this order. */
  function Cancelled(sessions: Sessions, order: seq<SessionKey>): seq<PingResult>
    requires forall k :: k in order ==> k in sessions
    decreases |order|
  {
    if order == [] then []
    else Cancelled(sessions, order[..|order| - 1]) + [Failed(sessions[order[|order| - 1]])]
  }

  /** The list names every session of the node, each once. */
  ghost predicate ListsSessionsOf(sessions: Sessions, node: Id, order: seq<SessionKey>) {
    && (forall k :: k in order <==> k in sessions && sessions[k].source == node)
    && (forall i, j :: 0 <= i < j < |order| ==> order[i] != order[j])
  }

  function WithoutSource(sessions: Sessions, node: Id): Sessions {
    map k | k in sessions && sessions[k].source != node :: sessions[k]
  }

  /** The state of the cancelling loop: `order` is what it deleted, `todo` what it has not met. */
  ghost predicate Cancelling(was: Sessions, node: Id, todo: set<SessionKey>, order: seq<SessionKey>) {
    && todo <= was.Keys
    && (forall k :: k in order <==> k in was && k !in todo && was[k].source == node)
    && (forall i, j :: 0 <= i < j < |order| ==> order[i] != order[j])
  }

  function Remaining(was: Sessions, order: seq<SessionKey>): Sessions {
    map k | k in was && k !in order :: was[k]
  }

  lemma CancellingStep(was: Sessions, node: Id, todo: set<SessionKey>, order: seq<SessionKey>, k: SessionKey, results: seq<PingResult>)
    requires Cancelling(was, node, todo, order) && k in todo
    ensures k in Remaining(was, order) && Remaining(was, order)[k] == was[k]
    ensures was[k].source != node ==> Cancelling(was, node, todo - {k}, order)
    ensures was[k].source == node ==>
              && Cancelling(was, node, todo - {k}, order + [k])
              && Remaining(was, order + [k]) == Remaining(was, order) - {k}
              && results + Cancelled(was, order + [k]) == results + Cancelled(was, order) + [Failed(was[k])]
  {
    assert (order + [k])[..|order|] == order;
  }

  lemma CancellingDone(was: Sessions, node: Id, order: seq<SessionKey>)
    requires Cancelling(was, node, {}, order)
    ensures ListsSessionsOf(was, node, order) && Remaining(was, order) == WithoutSource(was, node)
  {}

  // ---------------------------------------------------------------- what every event does

  /** What became of a creation: its session is live, result number `i` is its result, or its
      session was overwritten and will never have one. */
  datatype Fate = Live(key: SessionKey) | Resolved(i: nat) | Lost

  /** The sessions, every result ever produced, start time and fate of every creation, and the
      scheduler. */
  datatype World = World(sessions: Sessions, results: seq<PingResult>, startedAt: seq<int>, fate: seq<Fate>, s: State)

  datatype PingEvent =
    | Start(ipv6: bool, source: Id, destIP: string, requestID: string, frames: seq<Request>)
    | Reply(key: SessionKey)
    | Tick(e: Ev, handler: seq<Request>)
    | Remove(node: Id, order: seq<SessionKey>)

  predicate Forward(rs: seq<Request>) {
    forall r :: r in rs ==> r.offset >= 0
  }

  ghost predicate Possible(w: World, ev: PingEvent) {
    match ev
    case Start(_, _, _, _, frames) => Forward(frames)
    case Reply(key) => key in w.sessions
    case Tick(e, handler) => IsNext(w.s, e) && Forward(handler)
    case Remove(node, order) => ListsSessionsOf(w.sessions, node, order)
  }

  /** One session leaves and its result is appended; a key without a session changes nothing. */
  function Resolve(w: World, key: SessionKey, r: PingResult): World {
    if key !in w.sessions || r.tag >= |w.fate| then w
    else w.(sessions := w.sessions - {key}, results := w.results + [r], fate := w.fate[r.tag := Resolved(|w.results|)])
  }

  function Fail(w: World, key: SessionKey): World {
    if key in w.sessions then Resolve(w, key, Failed(w.sessions[key])) else w
  }

  function FailAll(w: World, order: seq<SessionKey>): World
    decreases |order|
  {
    if order == [] then w else Fail(FailAll(w, order[..|order| - 1]), order[|order| - 1])
  }

  /** The session filed under `key`, replaced by a new creation. */
  function Create(w: World, key: SessionKey, x: PingSession): World {
    var fate := if key in w.sessions && w.sessions[key].tag < |w.fate| then w.fate[w.sessions[key].tag := Lost] else w.fate;
    w.(sessions := w.sessions[key := x], startedAt := w.startedAt + [x.sentAt], fate := fate + [Live(key)])
  }

  /** The effect of an event. */
  function Effect(w: World, ev: PingEvent): World {
    match ev
    case Start(v6, source, dest, req, frames) =>
      var key := SessionKey(v6, source, w.s.clock);
      Create(w, key, NewSession(source, dest, req, w.s.clock, |w.fate|))
      .(s := Scheduled(Enqueue(w.s, frames), TimerIcmp, PING_TIMEOUT, Session(key)))
    case Reply(key) => if key in w.sessions then Resolve(w, key, Answered(w.sessions[key], w.s.clock)) else w
    case Tick(e, handler) =>
      (if e.typ == TimerIcmp && e.data.Session? then Fail(w, e.data.key) else w)
      .(s := Enqueue(Stepped(w.s, e), handler))
    case Remove(node, order) => FailAll(w, order)
  }

  datatype Run = Begin | Then(past: Run, ev: PingEvent)

  function Now(run: Run): World {
    match run
    case Begin => World(map[], [], [], [], EMPTY)
    case Then(past, ev) => Effect(Now(past), ev)
  }

  ghost predicate Legal(run: Run) {
    match run
    case Begin => true
    case Then(past, ev) => Legal(past) && Possible(Now(past), ev)
  }

  // ---------------------------------------------------------------- the manager

  class PingManager {
    var pingSessions: Sessions
    var pendingPingResults: seq<PingResult>
    var created: nat
    ghost var produced: seq<PingResult>
    ghost var startedAt: seq<int>
    ghost var fate: seq<Fate>
    ghost var drained: seq<PingResult>

    /** Every result produced has been handed out, in order, or is pending. */
    ghost predicate Valid()
      reads this
    {
      && created == |fate| && (forall k :: k in pingSessions ==> pingSessions[k].tag < created)
      && produced == drained + pendingPingResults
    }

    /** The manager and a scheduler state, as a world. */
    ghost function View(s: State): World
      reads this
    {
      World(pingSessions, produced, startedAt, fate, s)
    }

    constructor ()
      ensures Valid() && pendingPingResults == [] && drained == [] && View(EMPTY) == World(map[], [], [], [], EMPTY)
    {
      pingSessions, pendingPingResults, created := map[], [], 0;
      produced, startedAt, fate, drained := [], [], [], [];
    }

    /** startPingFromHost and its siblings: the session is filed under its source and the current
        time, the echo request is sent (`frames`), then the timeout is scheduled. */
    method StartPing(scheduler: EventScheduler, ipv6: bool, source: Id, destIP: string, requestID: string, frames: seq<Request>)
      requires Valid() && scheduler.Valid() && this !in scheduler.Repr
      modifies this, scheduler.Repr
      ensures Valid() && scheduler.Valid() && fresh(scheduler.Repr - old(scheduler.Repr))
      ensures View(scheduler.View()) == Effect(old(View(scheduler.View())), Start(ipv6, source, destIP, requestID, frames))
      ensures pendingPingResults == old(pendingPingResults) && drained == old(drained)
    {
      var simTime := scheduler.simClock;
      var sessionID := SessionKey(ipv6, source, simTime);
      var icmpID := simTime / 1_000_000 % 65536 % 65535;
      FileSession(sessionID, PingSession(source, destIP, icmpID, 1, simTime, requestID, created));
      ScheduleAll(scheduler, frames);
      scheduler.Schedule(TimerIcmp, PING_TIMEOUT, Session(sessionID));
    }

    method FileSession(key: SessionKey, x: PingSession)
      requires Valid() && x.tag == created
      modifies this
      ensures Valid() && pendingPingResults == old(pendingPingResults) && drained == old(drained)
      ensures forall s: State :: View(s) == Create(old(View(s)), key, x)
    {
      if key in pingSessions {
        fate := fate[pingSessions[key].tag := Lost];
      }
      pingSessions := pingSessions[key := x];
      startedAt, fate := startedAt + [x.sentAt], fate + [Live(key)];
      created := created + 1;
    }

    /** The session leaves and its result is queued. */
    method Finish(key: SessionKey, r: PingResult)
      requires Valid() && key in pingSessions && r.tag == pingSessions[key].tag
      modifies this
      ensures Valid() && pendingPingResults == old(pendingPingResults) + [r] && drained == old(drained)
      ensures pingSessions == old(pingSessions) - {key}
      ensures forall s: State :: View(s) == Resolve(old(View(s)), key, r)
    {
      pendingPingResults := pendingPingResults + [r];
      fate := fate[r.tag := Resolved(|produced|)];
      produced := produced + [r];
      assert produced == drained + pendingPingResults;
      pingSessions := pingSessions - {key};
    }

    /** The first session, in map order, that the reply answers is resolved; none, and nothing changes. */
    method CompletePing(hostID: Id, replyFrom: string, icmpID: int, sequence: int, simTime: int, ghost s: State)
        returns (key: Option<SessionKey>)
      requires Valid() && s.clock == simTime
      modifies this
      ensures Valid()
      ensures key.None? ==>
                && View(s) == old(View(s)) && pendingPingResults == old(pendingPingResults) && drained == old(drained)
                && forall k :: k in pingSessions ==>
                     pingSessions[k].source != hostID || pingSessions[k].destIP != replyFrom
                     || pingSessions[k].icmpID != icmpID || pingSessions[k].sequence != sequence
      ensures key.Some? ==>
                && key.value in old(pingSessions)
                && var x := old(pingSessions)[key.value];
                && x.source == hostID && x.destIP == replyFrom && x.icmpID == icmpID && x.sequence == sequence
                && View(s) == Effect(old(View(s)), Reply(key.value))
                && |pendingPingResults| == |old(pendingPingResults)| + 1
                && pendingPingResults == old(pendingPingResults) + [pendingPingResults[|old(pendingPingResults)|]]
                && IsAnswer(pendingPingResults[|old(pendingPingResults)|], x, simTime)
    {
      var todo := pingSessions.Keys;
      while todo != {}
        invariant todo <= pingSessions.Keys && Valid()
        invariant View(s) == old(View(s)) && pendingPingResults == old(pendingPingResults) && drained == old(drained)
        invariant forall k :: k in pingSessions && k !in todo ==>
                    pingSessions[k].source != hostID || pingSessions[k].destIP != replyFrom
                    || pingSessions[k].icmpID != icmpID || pingSessions[k].sequence != sequence
        decreases todo
      {
        var id :| id in todo;
        todo := todo - {id};
        var session := pingSessions[id];
        if session.source != hostID || session.icmpID != icmpID || session.sequence != sequence {
          continue;
        }
        if replyFrom != session.destIP {
          continue;
        }
        Finish(id, Answered(session, simTime));
        return Some(id);
      }
      return None;
    }

    method HandlePingTimeout(sessionID: SessionKey)
      requires Valid()
      modifies this
      ensures Valid() && drained == old(drained) && forall s: State :: View(s) == Fail(old(View(s)), sessionID)
      ensures pendingPingResults ==
              old(pendingPingResults) + if sessionID in old(pingSessions) then [Failed(old(pingSessions)[sessionID])] else []
    {
      if sessionID !in pingSessions {
        return;
      }
      Finish(sessionID, Failed(pingSessions[sessionID]));
    }

    /** One iteration of the run loop as far as pings go: a timeout event resolves its session,
        any other handler only schedules. */
    method RunOnce(scheduler: EventScheduler, handler: seq<Request>) returns (event: Event?)
      requires Valid() && scheduler.Valid() && this !in scheduler.Repr
      modifies this, scheduler.Repr
      ensures Valid() && scheduler.Valid() && fresh(scheduler.Repr - old(scheduler.Repr)) && drained == old(drained)
      ensures event == null ==> View(scheduler.View()) == old(View(scheduler.View()))
      ensures event != null ==>
                && IsNext(old(scheduler.View()), event.Value())
                && View(scheduler.View()) == Effect(old(View(scheduler.View())), Tick(event.Value(), handler))
    {
      event := scheduler.Step();
      if event != null {
        if event.Type == TimerIcmp && event.Data.Session? {
          HandlePingTimeout(event.Data.key);
        }
        ScheduleAll(scheduler, handler);
      }
    }

    /** Everything produced since the last call is handed out, once and in order. */
    method DrainPingResults() returns (results: seq<PingResult>)
      requires Valid()
      modifies this`pendingPingResults, this`drained
      ensures Valid() && drained == old(drained) + results && drained == produced && pendingPingResults == []
    {
      results := pendingPingResults;
      drained := drained + results;
      pendingPingResults := [];
    }

    /** The part of RemoveDevice that cancels the sessions of the removed node, deleting from the
        map while ranging over it. */
    method CancelSessionsOf(nodeID: Id) returns (ghost order: seq<SessionKey>)
      requires Valid()
      modifies this
      ensures Valid() && ListsSessionsOf(old(pingSessions), nodeID, order)
      ensures pingSessions == WithoutSource(old(pingSessions), nodeID)
      ensures pendingPingResults == old(pendingPingResults) + Cancelled(old(pingSessions), order)
      ensures forall s: State :: View(s) == FailAll(old(View(s)), order)
    {
      ghost var was, results := pingSessions, pendingPingResults;
      order := [];
      var todo := pingSessions.Keys;
      while todo != {}
        invariant Valid() && Cancelling(was, nodeID, todo, order) && pingSessions == Remaining(was, order)
        invariant pendingPingResults == results + Cancelled(was, order)
        invariant forall s: State :: View(s) == FailAll(old(View(s)), order)
        decreases todo
      {
        var id :| id in todo;
        CancellingStep(was, nodeID, todo, order, id, results);
        todo := todo - {id};
        if pingSessions[id].source == nodeID {
          Finish(id, Failed(pingSessions[id]));
          assert (order + [id])[..|order|] == order;
          order := order + [id];
        }
      }
      CancellingDone(was, nodeID, order);
    }
  }

  // ---------------------------------------------------------------- the invariant

  ghost predicate HasTimeout(s: State, key: SessionKey, time: int) {
    exists e :: e in s.queue && e.typ == TimerIcmp && e.data == Session(key) && e.timestamp == time
  }

  /** A live session is filed under its own source and start, and its timeout is pending. */
  ghost predicate TimeoutPending(s: State, k: SessionKey, x: PingSession) {
    && k.source == x.source && k.sentAt == x.sentAt && x.sentAt <= s.clock
    && HasTimeout(s, k, x.sentAt + 2_000_000_000)
  }

  ghost predicate AllPending(sessions: Sessions, s: State) {
    NothingPast(s) && forall k :: k in sessions ==> TimeoutPending(s, k, sessions[k])
  }

  ghost predicate SessionOk(w: World, k: SessionKey)
    requires k in w.sessions
  {
    var x := w.sessions[k];
    x.tag < |w.fate| == |w.startedAt| && w.fate[x.tag] == Live(k) && w.startedAt[x.tag] == x.sentAt
  }

  ghost predicate ResultOk(w: World, i: nat)
    requires i < |w.results|
  {
    var r := w.results[i];
    r.tag < |w.fate| && w.fate[r.tag] == Resolved(i) && (r.success ==> 0.0 <= r.rttMs <= 2000.0)
  }

  ghost predicate FateOk(w: World, t: nat)
    requires t < |w.fate|
  {
    match w.fate[t]
    case Live(k) => k in w.sessions && w.sessions[k].tag == t
    case Resolved(i) => i < |w.results| && w.results[i].tag == t
    case Lost => true
  }

  /** Creations, sessions and results are matched one to one. */
  ghost predicate Matched(w: World) {
    && |w.fate| == |w.startedAt|
    && (forall k :: k in w.sessions ==> SessionOk(w, k))
    && (forall i :: 0 <= i < |w.results| ==> ResultOk(w, i))
    && (forall t :: 0 <= t < |w.fate| ==> FateOk(w, t))
  }

  ghost predicate Inv(w: World) {
    AllPending(w.sessions, w.s) && Matched(w)
  }

  // ---------------------------------------------------------------- pending timeouts

  lemma {:induction false} EnqueueKeepsQueue(s: State, rs: seq<Request>)
    requires Forward(rs) && NothingPast(s)
    ensures NothingPast(Enqueue(s, rs)) && Enqueue(s, rs).clock == s.clock && s.queue <= Enqueue(s, rs).queue
    decreases |rs|
  {
    if rs != [] {
      var r := rs[0];
      assert r in rs && forall x :: x in rs[1..] ==> x in rs;
      EnqueueKeepsQueue(Scheduled(s, r.typ, r.offset, r.data), rs[1..]);
    }
  }

  lemma TimeoutPersists(s: State, s': State, k: SessionKey, x: PingSession)
    requires TimeoutPending(s, k, x) && s.queue <= s'.queue && s.clock <= s'.clock
    ensures TimeoutPending(s', k, x)
  {
    var e :| e in s.queue && e.typ == TimerIcmp && e.data == Session(k) && e.timestamp == x.sentAt + 2_000_000_000;
    assert e in s'.queue;
  }

  lemma EnqueueKeepsPending(sessions: Sessions, s: State, rs: seq<Request>)
    requires AllPending(sessions, s) && Forward(rs)
    ensures AllPending(sessions, Enqueue(s, rs))
  {
    EnqueueKeepsQueue(s, rs);
    forall k | k in sessions ensures TimeoutPending(Enqueue(s, rs), k, sessions[k]) {
      TimeoutPersists(s, Enqueue(s, rs), k, sessions[k]);
    }
  }

  /** Popping another event keeps a timeout pending. */
  lemma StepKeepsPending(sessions: Sessions, sessions': Sessions, s: State, e: Ev)
    requires AllPending(sessions, s) && IsNext(s, e)
    requires forall k :: k in sessions' ==> k in sessions && sessions'[k] == sessions[k]
    requires e.typ == TimerIcmp && e.data.Session? ==> e.data.key !in sessions'
    ensures AllPending(sessions', Stepped(s, e))
  {
    forall k | k in sessions' ensures TimeoutPending(Stepped(s, e), k, sessions'[k]) {
      var x := sessions'[k];
      assert TimeoutPending(s, k, x);
      var y :| y in s.queue && y.typ == TimerIcmp && y.data == Session(k) && y.timestamp == x.sentAt + 2_000_000_000;
      assert y in Stepped(s, e).queue;
    }
  }

  lemma StartKeepsPending(sessions: Sessions, s: State, key: SessionKey, x: PingSession, frames: seq<Request>)
    requires AllPending(sessions, s) && Forward(frames)
    requires key.source == x.source && key.sentAt == x.sentAt == s.clock
    ensures AllPending(sessions[key := x], Scheduled(Enqueue(s, frames), TimerIcmp, PING_TIMEOUT, Session(key)))
  {
    var mid := Enqueue(s, frames);
    var s' := Scheduled(mid, TimerIcmp, PING_TIMEOUT, Session(key));
    EnqueueKeepsQueue(s, frames);
    EnqueueKeepsPending(sessions, s, frames);
    var sessions' := sessions[key := x];
    forall k | k in sessions' ensures TimeoutPending(s', k, sessions'[k]) {
      if k == key {
        assert Ev(mid.count + 1, mid.clock + PING_TIMEOUT, TimerIcmp, Session(key)) in s'.queue;
      } else {
        TimeoutPersists(mid, s', k, sessions[k]);
      }
    }
  }

  /** A live session is no older than its timeout. */
  lemma LiveIsRecent(sessions: Sessions, s: State, k: SessionKey)
    requires AllPending(sessions, s) && k in sessions
    ensures 0 <= s.clock - sessions[k].sentAt <= 2_000_000_000
  {
    assert TimeoutPending(s, k, sessions[k]);
  }

  // ---------------------------------------------------------------- matching

  lemma ResolveKeepsMatched(w: World, key: SessionKey, r: PingResult)
    requires Matched(w) && key in w.sessions && r.tag == w.sessions[key].tag && (r.success ==> 0.0 <= r.rttMs <= 2000.0)
    ensures Matched(Resolve(w, key, r)) && Resolve(w, key, r).sessions == w.sessions - {key}
  {
    assert SessionOk(w, key);
    var w' := Resolve(w, key, r);
    forall k | k in w'.sessions ensures SessionOk(w', k) {
      assert SessionOk(w, k);
    }
    forall i | 0 <= i < |w'.results| ensures ResultOk(w', i) {
      if i < |w.results| {
        assert ResultOk(w, i);
      }
    }
    forall t | 0 <= t < |w'.fate| ensures FateOk(w', t) {
      assert FateOk(w, t);
    }
  }

  lemma {:induction false} FailAllKeepsMatched(w: World, order: seq<SessionKey>)
    requires Matched(w)
    ensures Matched(FailAll(w, order))
    ensures FailAll(w, order).s == w.s && FailAll(w, order).startedAt == w.startedAt
    ensures forall k :: k in FailAll(w, order).sessions <==> k in w.sessions && k !in order
    ensures forall k :: k in FailAll(w, order).sessions ==> FailAll(w, order).sessions[k] == w.sessions[k]
    decreases |order|
  {
    if order != [] {
      var front, key := order[..|order| - 1], order[|order| - 1];
      FailAllKeepsMatched(w, front);
      assert forall k :: k in order <==> k in front || k == key;
      var mid := FailAll(w, front);
      if key in mid.sessions {
        ResolveKeepsMatched(mid, key, Failed(mid.sessions[key]));
      }
    }
  }

  /** Failing the listed sessions one by one is what CancelSessionsOf does. */
  lemma {:induction false} FailAllIsCancelling(w: World, order: seq<SessionKey>)
    requires Matched(w) && (forall k :: k in order ==> k in w.sessions)
    requires forall i, j :: 0 <= i < j < |order| ==> order[i] != order[j]
    ensures FailAll(w, order).results == w.results + Cancelled(w.sessions, order)
    decreases |order|
  {
    if order != [] {
      var front, key := order[..|order| - 1], order[|order| - 1];
      forall k | k in front ensures k in order && k != key {
      }
      FailAllIsCancelling(w, front);
      FailAllKeepsMatched(w, front);
      FailAppends(FailAll(w, front), key);
    }
  }

  lemma FailAppends(w: World, key: SessionKey)
    requires Matched(w) && key in w.sessions
    ensures Fail(w, key).results == w.results + [Failed(w.sessions[key])]
  {
    assert SessionOk(w, key);
  }

  lemma RemoveIsCancelling(w: World, node: Id, order: seq<SessionKey>)
    requires Matched(w) && ListsSessionsOf(w.sessions, node, order)
    ensures FailAll(w, order).sessions == WithoutSource(w.sessions, node)
    ensures FailAll(w, order).results == w.results + Cancelled(w.sessions, order)
  {
    FailAllKeepsMatched(w, order);
    FailAllIsCancelling(w, order);
  }

  /** In every reachable state a removal cancels a session exactly when the device is its source,
      whatever address it targets; the others keep their timeouts. */
  lemma SurvivesRemovalIff(run: Run, node: Id, order: seq<SessionKey>, key: SessionKey)
    requires Legal(Then(run, Remove(node, order)))
    ensures var before, after := Now(run), Now(Then(run, Remove(node, order)));
            && (key in after.sessions <==> key in before.sessions && before.sessions[key].source != node)
            && (key in after.sessions ==> after.sessions[key] == before.sessions[key] && SessionOk(after, key))
  {
    InvHolds(run);
    RemoveIsCancelling(Now(run), node, order);
    InvHolds(Then(run, Remove(node, order)));
  }

  lemma CreateKeepsMatched(w: World, key: SessionKey, x: PingSession)
    requires Matched(w) && x.tag == |w.fate|
    ensures Matched(Create(w, key, x))
  {
    var w' := Create(w, key, x);
    if key in w.sessions {
      assert SessionOk(w, key);
    }
    forall k | k in w'.sessions ensures SessionOk(w', k) {
      if k != key {
        assert SessionOk(w, k);
      }
    }
    forall i | 0 <= i < |w'.results| ensures ResultOk(w', i) {
      assert ResultOk(w, i);
    }
    forall t | 0 <= t < |w'.fate| ensures FateOk(w', t) {
      if t < |w.fate| {
        assert FateOk(w, t);
      }
    }
  }

  // ---------------------------------------------------------------- every event

  lemma MatchedIgnoresScheduler(w: World, s: State)
    requires Matched(w)
    ensures Matched(w.(s := s))
  {
    var w' := w.(s := s);
    forall k | k in w'.sessions ensures SessionOk(w', k) {
      assert SessionOk(w, k);
    }
    forall i | 0 <= i < |w'.results| ensures ResultOk(w', i) {
      assert ResultOk(w, i);
    }
    forall t | 0 <= t < |w'.fate| ensures FateOk(w', t) {
      assert FateOk(w, t);
    }
  }

  lemma EventKeepsInv(w: World, ev: PingEvent)
    requires Inv(w) && Possible(w, ev)
    ensures Inv(Effect(w, ev))
  {
    match ev
    case Start(v6, source, dest, req, frames) =>
      var key := SessionKey(v6, source, w.s.clock);
      var x := NewSession(source, dest, req, w.s.clock, |w.fate|);
      CreateKeepsMatched(w, key, x);
      StartKeepsPending(w.sessions, w.s, key, x, frames);
      MatchedIgnoresScheduler(Create(w, key, x), Effect(w, ev).s);
    case Reply(key) =>
      LiveIsRecent(w.sessions, w.s, key);
      ResolveKeepsMatched(w, key, Answered(w.sessions[key], w.s.clock));
    case Tick(e, handler) =>
      var expired := e.typ == TimerIcmp && e.data.Session?;
      var w1 := if expired then Fail(w, e.data.key) else w;
      if expired && e.data.key in w.sessions {
        ResolveKeepsMatched(w, e.data.key, Failed(w.sessions[e.data.key]));
      }
      StepKeepsPending(w.sessions, w1.sessions, w.s, e);
      EnqueueKeepsPending(w1.sessions, Stepped(w.s, e), handler);
      MatchedIgnoresScheduler(w1, Effect(w, ev).s);
    case Remove(node, order) =>
      FailAllKeepsMatched(w, order);
  }

  /** In every reachable state each live session has a pending timeout at its start plus 2 s, and
      creations, sessions and results are matched one to one. */
  lemma {:induction false} InvHolds(run: Run)
    requires Legal(run)
    ensures Inv(Now(run))
  {
    if run.Then? {
      InvHolds(run.past);
      EventKeepsInv(Now(run.past), run.ev);
    }
  }

  /** No creation ever has two results, and a success took at most 2000 ms. */
  lemma AtMostOneResult(run: Run, i: nat, j: nat)
    requires Legal(run) && i < |Now(run).results| && j < |Now(run).results|
    ensures Now(run).results[i].tag == Now(run).results[j].tag ==> i == j
    ensures Now(run).results[i].success ==> 0.0 <= Now(run).results[i].rttMs <= 2000.0
  {
    InvHolds(run);
    assert ResultOk(Now(run), i) && ResultOk(Now(run), j);
  }

  /** Once the clock has passed its timeout a creation has its result, or its session was
      overwritten; and then it never has one. */
  lemma ResolvedAfterTimeout(run: Run, t: nat)
    requires Legal(run) && t < |Now(run).startedAt| && Now(run).s.clock > Now(run).startedAt[t] + 2_000_000_000
    ensures var w := Now(run);
            t < |w.fate| && !w.fate[t].Live?
            && (w.fate[t] == Lost <==> forall i :: 0 <= i < |w.results| ==> w.results[i].tag != t)
  {
    var w := Now(run);
    InvHolds(run);
    assert FateOk(w, t);
    forall k | k in w.sessions ensures w.sessions[k].tag != t {
      LiveIsRecent(w.sessions, w.s, k);
      assert SessionOk(w, k);
    }
    forall i | 0 <= i < |w.results| ensures w.results[i].tag == t ==> w.fate[t] == Resolved(i) {
      assert ResultOk(w, i);
    }
  }

  /** Exactly when a live creation is lost: a ping of the same family, source and instant starts. */
  lemma LostIffOverwritten(w: World, ev: PingEvent, t: nat)
    requires Inv(w) && Possible(w, ev) && t < |w.fate| && w.fate[t].Live?
    ensures t < |Effect(w, ev).fate|
    ensures Effect(w, ev).fate[t] == Lost <==> ev.Start? && w.fate[t].key == SessionKey(ev.ipv6, ev.source, w.s.clock)
  {
    match ev
    case Start(v6, source, dest, req, _) =>
      CreateLosesIff(w, SessionKey(v6, source, w.s.clock), NewSession(source, dest, req, w.s.clock, |w.fate|), t);
    case Reply(key) => assert SessionOk(w, key);
    case Tick(e, _) =>
    case Remove(_, order) => FailAllLosesNothing(w, order, t);
  }

  lemma CreateLosesIff(w: World, key: SessionKey, x: PingSession, t: nat)
    requires Matched(w) && t < |w.fate| && w.fate[t].Live?
    ensures t < |Create(w, key, x).fate|
    ensures Create(w, key, x).fate[t] == Lost <==> w.fate[t].key == key
  {
    assert FateOk(w, t);
    if key in w.sessions {
      assert SessionOk(w, key);
    }
  }

  lemma {:induction false} FailAllLosesNothing(w: World, order: seq<SessionKey>, t: nat)
    requires t < |w.fate| && w.fate[t] != Lost
    ensures t < |FailAll(w, order).fate| && FailAll(w, order).fate[t] != Lost
    decreases |order|
  {
    if order != [] {
      FailAllLosesNothing(w, order[..|order| - 1], t);
    }
  }

  /** A lost creation stays lost. */
  lemma {:induction false} LostForEver(w: World, ev: PingEvent, t: nat)
    requires Inv(w) && Possible(w, ev) && t < |w.fate| && w.fate[t] == Lost
    ensures t < |Effect(w, ev).fate| && Effect(w, ev).fate[t] == Lost
  {
    match ev
    case Start(_, _, _, _, _) =>
    case Reply(key) => assert SessionOk(w, key);
    case Tick(e, _) =>
      if e.typ == TimerIcmp && e.data.Session? && e.data.key in w.sessions {
        assert SessionOk(w, e.data.key);
      }
    case Remove(_, order) => FailAllKeepsLost(w, order, t);
  }

  lemma {:induction false} FailAllKeepsLost(w: World, order: seq<SessionKey>, t: nat)
    requires Matched(w) && t < |w.fate| && w.fate[t] == Lost
    ensures t < |FailAll(w, order).fate| && FailAll(w, order).fate[t] == Lost
    decreases |order|
  {
    if order != [] {
      var front, key := order[..|order| - 1], order[|order| - 1];
      FailAllKeepsLost(w, front, t);
      FailAllKeepsMatched(w, front);
      if key in FailAll(w, front).sessions {
        assert SessionOk(FailAll(w, front), key);
      }
    }
  }

  /** It happens: two pings of one source at one instant leave the first without any result. */
  lemma OverwrittenPingIsLost(source: Id)
    ensures var run := Then(Then(Begin, Start(false, source, "a", "1", [])), Start(false, source, "b", "2", []));
            Legal(run) && |Now(run).fate| == 2 && Now(run).fate[0] == Lost
  {
    var once := Then(Begin, Start(false, source, "a", "1", []));
    assert Now(once).fate == [Live(SessionKey(false, source, 0))];
    assert SessionKey(false, source, 0) in Now(once).sessions;
    assert Now(once).sessions[SessionKey(false, source, 0)].tag == 0;
    assert Now(once).s.clock == 0;
  }

  // ---------------------------------------------------------------- what a result says

  /** What was asked for: one entry per start, in order, with its time. */
  datatype Asked = Asked(source: Id, destIP: string, requestID: string, at: int)

  function Asks(run: Run): seq<Asked> {
    match run
    case Begin => []
    case Then(past, ev) =>
      Asks(past) + if ev.Start? then [Asked(ev.source, ev.destIP, ev.requestID, Now(past).s.clock)] else []
  }

  /** A reply at this time completed creation `t`. */
  ghost predicate RepliedAt(run: Run, t: nat, at: int) {
    match run
    case Begin => false
    case Then(past, ev) =>
      || RepliedAt(past, t, at)
      || (ev.Reply? && ev.key in Now(past).sessions && Now(past).sessions[ev.key].tag == t && Now(past).s.clock == at)
  }

  ghost predicate SessionSays(asks: seq<Asked>, x: PingSession) {
    && x.tag < |asks| && asks[x.tag] == Asked(x.source, x.destIP, x.requestID, x.sentAt)
    && x.sequence == 1 && x.icmpID == x.sentAt / 1_000_000 % 65536 % 65535
  }

  /** The result carries what its start asked for; it is a success only by a reply, whose time it gives. */
  ghost predicate ResultSays(run: Run, r: PingResult) {
    && r.tag < |Asks(run)|
    && var a := Asks(run)[r.tag];
    && r.source == a.source && r.destIP == a.destIP && r.requestID == a.requestID
    && if r.success then exists at :: RepliedAt(run, r.tag, at) && r.rttMs * 1_000_000.0 == (at - a.at) as real
       else r.rttMs == 0.0
  }

  lemma {:induction false} CancelledFail(sessions: Sessions, order: seq<SessionKey>, r: PingResult)
    requires (forall k :: k in order ==> k in sessions) && r in Cancelled(sessions, order)
    ensures exists k :: k in order && r == Failed(sessions[k])
    decreases |order|
  {
    var front, key := order[..|order| - 1], order[|order| - 1];
    if r in Cancelled(sessions, front) {
      CancelledFail(sessions, front, r);
    } else {
      assert key in order;
    }
  }

  /** A result of the past still says the same, and so does the failure of a live session. */
  lemma SaysLater(run: Run, ev: PingEvent, r: PingResult)
    requires ResultSays(run, r)
    ensures ResultSays(Then(run, ev), r)
  {
    if r.success {
      var at :| RepliedAt(run, r.tag, at) && r.rttMs * 1_000_000.0 == (at - Asks(run)[r.tag].at) as real;
      assert RepliedAt(Then(run, ev), r.tag, at);
    }
  }

  /** What an event adds to the results: the answer of a reply, or failures of live sessions. */
  lemma NewResults(w: World, ev: PingEvent, r: PingResult)
    requires Inv(w) && Possible(w, ev) && r in Effect(w, ev).results && r !in w.results
    ensures (ev.Reply? && r == Answered(w.sessions[ev.key], w.s.clock)) || (exists k :: k in w.sessions && r == Failed(w.sessions[k]))
  {
    match ev
    case Start(_, _, _, _, _) =>
    case Reply(key) =>
    case Tick(e, _) =>
    case Remove(node, order) =>
      RemoveIsCancelling(w, node, order);
      CancelledFail(w.sessions, order, r);
  }

  /** What an event leaves of the sessions: the old ones, and the one that it starts. */
  lemma OldSessions(w: World, ev: PingEvent, k: SessionKey)
    requires Inv(w) && Possible(w, ev) && k in Effect(w, ev).sessions
    ensures || (ev.Start? && Effect(w, ev).sessions[k] == NewSession(ev.source, ev.destIP, ev.requestID, w.s.clock, |w.fate|))
            || (k in w.sessions && Effect(w, ev).sessions[k] == w.sessions[k])
  {
    if ev.Remove? {
      RemoveIsCancelling(w, ev.node, ev.order);
    }
  }

  lemma Creations(w: World, ev: PingEvent)
    requires Inv(w) && Possible(w, ev)
    ensures Effect(w, ev).startedAt == w.startedAt + if ev.Start? then [w.s.clock] else []
  {
    if ev.Remove? {
      FailAllKeepsMatched(w, ev.order);
    }
  }

  lemma {:induction false} SessionsSay(run: Run)
    requires Legal(run)
    ensures |Asks(run)| == |Now(run).fate| == |Now(run).startedAt|
    ensures forall t :: 0 <= t < |Asks(run)| ==> Now(run).startedAt[t] == Asks(run)[t].at
    ensures forall k :: k in Now(run).sessions ==> SessionSays(Asks(run), Now(run).sessions[k])
  {
    InvHolds(run);
    if run.Then? {
      var w, ev := Now(run.past), run.ev;
      SessionsSay(run.past);
      InvHolds(run.past);
      Creations(w, ev);
      forall k | k in Now(run).sessions ensures SessionSays(Asks(run), Now(run).sessions[k]) {
        OldSessions(w, ev, k);
        if k in w.sessions && Now(run).sessions[k] == w.sessions[k] {
          assert SessionSays(Asks(run.past), w.sessions[k]);
        }
      }
    }
  }

  /** In every reachable state every result carries the source, destination and request of the
      start that made its creation; a success gives the time from that start to a reply to it. */
  lemma {:induction false} ResultsSay(run: Run, i: nat)
    requires Legal(run) && i < |Now(run).results|
    ensures ResultSays(run, Now(run).results[i])
  {
    var past, ev, r := run.past, run.ev, Now(run).results[i];
    var w := Now(past);
    InvHolds(past);
    SessionsSay(past);
    if r in w.results {
      var j: nat :| j < |w.results| && w.results[j] == r;
      ResultsSay(past, j);
      SaysLater(past, ev, r);
    } else {
      NewResults(w, ev, r);
      if ev.Reply? && r == Answered(w.sessions[ev.key], w.s.clock) {
        assert SessionSays(Asks(past), w.sessions[ev.key]);
        assert RepliedAt(run, r.tag, w.s.clock);
      } else {
        var k :| k in w.sessions && r == Failed(w.sessions[k]);
        assert SessionSays(Asks(past), w.sessions[k]);
      }
    }
  }

  /** A reply to a live session appends one success, with the milliseconds since its start. */
  lemma ReplyReports(run: Run, key: SessionKey)
    requires Legal(Then(run, Reply(key)))
    ensures var before, after := Now(run), Now(Then(run, Reply(key)));
            && key !in after.sessions && |after.results| == |before.results| + 1
            && before.results <= after.results
            && var r, t := after.results[|before.results|], before.sessions[key].tag;
            && t < |before.startedAt| && r.tag == t && r.success
            && r.rttMs * 1_000_000.0 == (before.s.clock - before.startedAt[t]) as real
  {
    InvHolds(run);
    assert SessionOk(Now(run), key);
  }

  /** The timeout of a live session appends one failure; without a live session it changes no result. */
  lemma TimeoutReports(run: Run, e: Ev, key: SessionKey, handler: seq<Request>)
    requires Legal(Then(run, Tick(e, handler))) && e.typ == TimerIcmp && e.data == Session(key)
    ensures var before, after := Now(run), Now(Then(run, Tick(e, handler)));
            if key !in before.sessions then after.results == before.results && after.sessions == before.sessions
            else
              && after.sessions == before.sessions - {key} && |after.results| == |before.results| + 1
              && before.results <= after.results
              && after.results[|before.results|].tag == before.sessions[key].tag && !after.results[|before.results|].success
  {
    InvHolds(run);
    if key in Now(run).sessions {
      assert SessionOk(Now(run), key);
    }
  }

  /** When a reply can be taken for the answer to another ping: two live sessions carry one echo
      identifier exactly when they started in one millisecond, or in the two around a wrap. */
  lemma SameIdentifierIff(run: Run, k: SessionKey, l: SessionKey)
    requires Legal(run) && k in Now(run).sessions && l in Now(run).sessions
    ensures var x, y := Now(run).sessions[k], Now(run).sessions[l];
            var a, b := x.sentAt / 1_000_000, y.sentAt / 1_000_000;
            x.icmpID == y.icmpID <==> a == b || (a % 65536 == 65535 && b == a + 1) || (b % 65536 == 65535 && a == b + 1)
  {
    InvHolds(run);
    SessionsSay(run);
    var w := Now(run);
    LiveIsRecent(w.sessions, w.s, k);
    LiveIsRecent(w.sessions, w.s, l);
    assert SessionSays(Asks(run), w.sessions[k]) && SessionSays(Asks(run), w.sessions[l]);
    NearIdentifiers(w.sessions[k].sentAt / 1_000_000, w.sessions[l].sentAt / 1_000_000);
  }

  lemma NearIdentifiers(a: int, b: int)
    requires -2_000 <= a - b <= 2_000
    ensures a % 65536 % 65535 == b % 65536 % 65535
            <==> a == b || (a % 65536 == 65535 && b == a + 1) || (b % 65536 == 65535 && a == b + 1)
  {
    var p, q := a / 65536, b / 65536;
    assert a == 65536 * p + a % 65536 && b == 65536 * q + b % 65536;
    assert -1 <= p - q <= 1;
  }
}
