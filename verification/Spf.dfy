/** Dijkstra's algorithm over the link-state database. */
module Spf {
  import opened Addressing

  datatype LsaLink = LsaLink(connectedID: Id, cost: int)

  datatype RouterLsa = RouterLsa(routerID: Id, sequence: nat, links: seq<LsaLink>)

  type Lsdb = map<Id, RouterLsa>

  datatype SpfResult = SpfResult(destination: Id, nextHop: Id, metric: int)

  /** The distance that stands for "not reached". */
  const UNREACHED := 999999

  /** The empty string, which the selection loop uses for "no node". */
  const NOBODY := Id("")

  // ---------------------------------------------------------------- paths, the definition

  /** Where a path of links that starts at the root ends. */
  function Last(root: Id, path: seq<LsaLink>): Id {
    if path == [] then root else path[|path| - 1].connectedID
  }

  /** Every link is listed in the LSA of the router the path has reached. */
  ghost predicate IsPath(lsdb: Lsdb, root: Id, path: seq<LsaLink>)
    decreases |path|
  {
    path == []
    || (var front := path[..|path| - 1];
        IsPath(lsdb, root, front) && Last(root, front) in lsdb && path[|path| - 1] in lsdb[Last(root, front)].links)
  }

  function Cost(path: seq<LsaLink>): int
    decreases |path|
  {
    if path == [] then 0 else Cost(path[..|path| - 1]) + path[|path| - 1].cost
  }

  /** The cost of a path is the sum of the costs of its links. */
  lemma {:induction false} CostAdds(a: seq<LsaLink>, b: seq<LsaLink>)
    ensures Cost(a + b) == Cost(a) + Cost(b) && (|b| == 1 ==> Cost(b) == b[0].cost)
    decreases |b|
  {
    if b == [] {
      assert a + b == a;
    } else {
      CostAdds(a, b[..|b| - 1]);
      assert (a + b)[..|a + b| - 1] == a + b[..|b| - 1];
    }
  }

  /** A path to `d` of this cost. */
  ghost predicate PathTo(lsdb: Lsdb, root: Id, d: Id, path: seq<LsaLink>, cost: int) {
    IsPath(lsdb, root, path) && Last(root, path) == d && Cost(path) == cost
  }

  /** `cost` is the least cost of any path to `d`. */
  ghost predicate LeastCost(lsdb: Lsdb, root: Id, d: Id, cost: int) {
    && (exists path :: PathTo(lsdb, root, d, path, cost))
    && (forall path :: IsPath(lsdb, root, path) && Last(root, path) == d ==> cost <= Cost(path))
  }

  /** Non-negative costs, and no router named by the empty string. */
  ghost predicate Proper(lsdb: Lsdb, root: Id) {
    && root != NOBODY && NOBODY !in lsdb
    && forall u, l :: u in lsdb && l in lsdb[u].links ==> l.cost >= 0
  }

  /** Some path reaches `d` at a cost below the cut-off. */
  ghost predicate Reachable(lsdb: Lsdb, root: Id, d: Id) {
    exists path :: IsPath(lsdb, root, path) && Last(root, path) == d && Cost(path) < 999_999
  }

  /** The next hop is the far end of a link of the root that starts a path of this cost. */
  ghost predicate GoodNextHop(lsdb: Lsdb, root: Id, d: Id, nextHop: Id, cost: int) {
    exists path: seq<LsaLink> :: path != [] && PathTo(lsdb, root, d, path, cost) && path[0].connectedID == nextHop
                   && root in lsdb && path[0] in lsdb[root].links
  }

  ghost predicate Correct(lsdb: Lsdb, root: Id, results: map<Id, SpfResult>) {
    && (forall d :: d in results <==> d in lsdb && d != root && Reachable(lsdb, root, d))
    && (forall d :: d in results ==>
          && results[d].destination == d
          && LeastCost(lsdb, root, d, results[d].metric)
          && GoodNextHop(lsdb, root, d, results[d].nextHop, results[d].metric))
  }

  /** Destinations and metrics are determined; only ties between next hops are left open. */
  lemma OrderDoesNotMatter(lsdb: Lsdb, root: Id, a: map<Id, SpfResult>, b: map<Id, SpfResult>)
    requires Correct(lsdb, root, a) && Correct(lsdb, root, b)
    ensures a.Keys == b.Keys && forall d :: d in a ==> a[d].metric == b[d].metric
  {
    forall d | d in a ensures d in b && a[d].metric == b[d].metric {
      LeastCostIsUnique(lsdb, root, d, a[d].metric, b[d].metric);
    }
  }

  lemma LeastCostIsUnique(lsdb: Lsdb, root: Id, d: Id, a: int, b: int)
    requires LeastCost(lsdb, root, d, a) && LeastCost(lsdb, root, d, b)
    ensures a == b
  {
    var p :| PathTo(lsdb, root, d, p, a);
    var q :| PathTo(lsdb, root, d, q, b);
  }

  // ---------------------------------------------------------------- the state of the search

  datatype Search = Search(dist: map<Id, int>, next: map<Id, Id>, visited: set<Id>)

  /** Reading a missing key of a Go map gives the zero value. */
  function DistOf(dist: map<Id, int>, d: Id): int {
    if d in dist then dist[d] else 0
  }

  function NextOf(next: map<Id, Id>, d: Id): Id {
    if d in next then next[d] else NOBODY
  }

  /** A path that witnesses the distance and the next hop of `d`. */
  ghost predicate Witnessed(lsdb: Lsdb, root: Id, s: Search, paths: map<Id, seq<LsaLink>>, d: Id) {
    && d in s.dist && d in paths && PathTo(lsdb, root, d, paths[d], s.dist[d])
    && (d == root ==> paths[d] == [])
    && (d != root ==> paths[d] != [] && d in s.next && s.next[d] == paths[d][0].connectedID)
  }

  /** No link out of a settled router improves a distance. */
  ghost predicate Relaxed(lsdb: Lsdb, s: Search, u: Id) {
    u in s.dist && (u in lsdb ==> forall l :: l in lsdb[u].links && l.connectedID in s.dist ==> s.dist[l.connectedID] <= s.dist[u] + l.cost)
  }

  ghost predicate Bounded(lsdb: Lsdb, root: Id, s: Search) {
    && (forall d :: d in s.dist <==> d in lsdb || d == root)
    && s.dist[root] == 0
    && (forall d :: d in s.dist ==> 0 <= s.dist[d] <= UNREACHED)
    && (forall u :: u in s.visited ==> u in s.dist && s.dist[u] < UNREACHED)
  }

  ghost predicate AllWitnessed(lsdb: Lsdb, root: Id, s: Search, paths: map<Id, seq<LsaLink>>) {
    forall d :: d in s.dist && s.dist[d] < UNREACHED ==> Witnessed(lsdb, root, s, paths, d)
  }

  /** Settled nodes are at least as near as the others. */
  ghost predicate Layered(s: Search) {
    forall u, v :: u in s.visited && u in s.dist && v in s.dist && v !in s.visited ==> s.dist[u] <= s.dist[v]
  }

  ghost predicate Basic(lsdb: Lsdb, root: Id, s: Search, paths: map<Id, seq<LsaLink>>) {
    Bounded(lsdb, root, s) && AllWitnessed(lsdb, root, s, paths) && Layered(s)
  }

  ghost predicate Inv(lsdb: Lsdb, root: Id, s: Search, paths: map<Id, seq<LsaLink>>) {
    Basic(lsdb, root, s, paths) && forall u :: u in s.visited ==> Relaxed(lsdb, s, u)
  }

  /** Nothing is left to settle. */
  ghost predicate Finished(lsdb: Lsdb, root: Id, s: Search) {
    forall d :: d in s.dist && s.dist[d] < UNREACHED ==> d in s.visited || root !in lsdb
  }

  lemma {:induction false} PathLeavesRoot(lsdb: Lsdb, root: Id, path: seq<LsaLink>)
    requires IsPath(lsdb, root, path) && path != []
    ensures root in lsdb && path[0] in lsdb[root].links
    decreases |path|
  {
    var front := path[..|path| - 1];
    if front != [] {
      PathLeavesRoot(lsdb, root, front);
    }
  }

  /** Once finished, no path beats the recorded distance. */
  lemma {:induction false} NoPathIsShorter(lsdb: Lsdb, root: Id, s: Search, paths: map<Id, seq<LsaLink>>, path: seq<LsaLink>)
    requires Proper(lsdb, root) && Inv(lsdb, root, s, paths) && Finished(lsdb, root, s)
    requires IsPath(lsdb, root, path) && Last(root, path) in s.dist
    ensures s.dist[Last(root, path)] <= Cost(path) || Cost(path) >= UNREACHED
    decreases |path|
  {
    if path != [] && Cost(path) < UNREACHED {
      var front, l := path[..|path| - 1], path[|path| - 1];
      var u := Last(root, front);
      PathLeavesRoot(lsdb, root, path);
      assert l.cost >= 0;
      NoPathIsShorter(lsdb, root, s, paths, front);
      assert s.dist[u] < UNREACHED;
      assert Relaxed(lsdb, s, u);
    }
  }

  lemma ExtendPath(lsdb: Lsdb, root: Id, path: seq<LsaLink>, l: LsaLink)
    requires IsPath(lsdb, root, path) && Last(root, path) in lsdb && l in lsdb[Last(root, path)].links
    ensures IsPath(lsdb, root, path + [l]) && Last(root, path + [l]) == l.connectedID && Cost(path + [l]) == Cost(path) + l.cost
  {
    assert (path + [l])[..|path + [l]| - 1] == path;
  }

  // ---------------------------------------------------------------- the algorithm

  /** The selection loop: an unvisited node of least distance below the cut-off, in map order. */
  method SelectNearest(dist: map<Id, int>, visited: set<Id>) returns (u: Id)
    ensures u != NOBODY ==> u in dist && u !in visited && dist[u] < UNREACHED
    ensures u != NOBODY ==> forall d :: d in dist && d !in visited ==> dist[u] <= dist[d]
    ensures u == NOBODY && NOBODY !in dist ==> forall d :: d in dist && d !in visited ==> dist[d] >= UNREACHED
  {
    u := NOBODY;
    var minDist := UNREACHED;
    var todo := dist.Keys;
    while todo != {}
      invariant todo <= dist.Keys
      invariant minDist <= UNREACHED
      invariant forall d :: d in dist && d !in todo && d !in visited ==> minDist <= dist[d]
      invariant u != NOBODY ==> u in dist && u !in visited && dist[u] == minDist < UNREACHED
      invariant u == NOBODY && NOBODY !in dist ==> minDist == UNREACHED
      decreases todo
    {
      var d :| d in todo;
      if d !in visited && dist[d] < minDist {
        minDist := dist[d];
        u := d;
      }
      todo := todo - {d};
    }
  }

  /** `u` has just been settled: it is the farthest of the settled nodes. */
  ghost predicate Frontier(s: Search, u: Id) {
    && u in s.visited && u in s.dist
    && (forall x :: x in s.visited && x in s.dist ==> s.dist[x] <= s.dist[u])
  }

  ghost predicate LinkDone(s: Search, u: Id, l: LsaLink) {
    u in s.dist && (l.connectedID in s.dist ==> s.dist[l.connectedID] <= s.dist[u] + l.cost)
  }

  /** Progress of the relaxation of the links of `u`: the first `k` are done. */
  ghost predicate Relaxing(lsdb: Lsdb, root: Id, s: Search, paths: map<Id, seq<LsaLink>>, u: Id, k: nat) {
    && Basic(lsdb, root, s, paths) && Frontier(s, u)
    && (forall x :: x in s.visited && x != u ==> Relaxed(lsdb, s, x))
    && (u in lsdb ==> k <= |lsdb[u].links| && forall i :: 0 <= i < k ==> LinkDone(s, u, lsdb[u].links[i]))
  }

  /** What relaxing one link does to the search. */
  function RelaxLink(root: Id, s: Search, u: Id, l: LsaLink): Search {
    var alt := DistOf(s.dist, u) + l.cost;
    if l.connectedID in s.visited || alt >= DistOf(s.dist, l.connectedID) then s
    else s.(dist := s.dist[l.connectedID := alt],
            next := s.next[l.connectedID := if u == root then l.connectedID else NextOf(s.next, u)])
  }

  /** Distances only shrink, settled ones stay, and the link itself is done. */
  lemma RelaxLinkShrinks(root: Id, s: Search, u: Id, l: LsaLink)
    requires Frontier(s, u) && s.dist[u] >= 0 && l.cost >= 0
    ensures var s' := RelaxLink(root, s, u, l);
            && LinkDone(s', u, l) && s'.visited == s.visited && s'.dist.Keys == s.dist.Keys
            && (forall d :: d in s.dist ==> s'.dist[d] <= s.dist[d])
            && (forall x :: x in s.visited && x in s.dist ==> s'.dist[x] == s.dist[x])
  {}

  /** The bounds, the layering and the frontier survive. */
  lemma RelaxLinkKeepsShape(lsdb: Lsdb, root: Id, s: Search, u: Id, l: LsaLink)
    requires Bounded(lsdb, root, s) && Layered(s) && Frontier(s, u) && l.cost >= 0
    ensures var s' := RelaxLink(root, s, u, l);
            Bounded(lsdb, root, s') && Layered(s') && Frontier(s', u)
  {}

  lemma RelaxLinkKeepsWitnesses(lsdb: Lsdb, root: Id, s: Search, paths: map<Id, seq<LsaLink>>, u: Id, l: LsaLink)
      returns (paths': map<Id, seq<LsaLink>>)
    requires Bounded(lsdb, root, s) && AllWitnessed(lsdb, root, s, paths) && u in s.visited
    requires u in lsdb && l in lsdb[u].links && l.cost >= 0
    ensures AllWitnessed(lsdb, root, RelaxLink(root, s, u, l), paths')
  {
    var v := l.connectedID;
    var s' := RelaxLink(root, s, u, l);
    paths' := paths;
    if s' != s {
      assert Witnessed(lsdb, root, s, paths, u);
      ExtendPath(lsdb, root, paths[u], l);
      paths' := paths[v := paths[u] + [l]];
      forall d | d in s'.dist && s'.dist[d] < UNREACHED ensures Witnessed(lsdb, root, s', paths', d) {
        if d != v {
          assert Witnessed(lsdb, root, s, paths, d);
        }
      }
    }
  }

  /** Relaxing the next link of `u` is one step of progress. */
  lemma RelaxLinkProgress(lsdb: Lsdb, root: Id, s: Search, paths: map<Id, seq<LsaLink>>, u: Id, k: nat)
      returns (paths': map<Id, seq<LsaLink>>)
    requires Proper(lsdb, root) && Relaxing(lsdb, root, s, paths, u, k) && u in lsdb && k < |lsdb[u].links|
    ensures Relaxing(lsdb, root, RelaxLink(root, s, u, lsdb[u].links[k]), paths', u, k + 1)
  {
    var l := lsdb[u].links[k];
    var s' := RelaxLink(root, s, u, l);
    assert l in lsdb[u].links && l.cost >= 0;
    RelaxLinkShrinks(root, s, u, l);
    RelaxLinkKeepsShape(lsdb, root, s, u, l);
    paths' := RelaxLinkKeepsWitnesses(lsdb, root, s, paths, u, l);
    forall x | x in s'.visited && x != u ensures Relaxed(lsdb, s', x) {
      assert Relaxed(lsdb, s, x);
    }
    forall i | 0 <= i < k + 1 ensures LinkDone(s', u, lsdb[u].links[i]) {
      if i < k {
        assert LinkDone(s, u, lsdb[u].links[i]);
      }
    }
  }

  lemma SettlesNearest(lsdb: Lsdb, root: Id, s: Search, paths: map<Id, seq<LsaLink>>, u: Id)
    requires Inv(lsdb, root, s, paths) && Nearest(s, u)
    ensures Relaxing(lsdb, root, s.(visited := s.visited + {u}), paths, u, 0)
  {
    var s' := s.(visited := s.visited + {u});
    forall d | d in s'.dist && s'.dist[d] < UNREACHED ensures Witnessed(lsdb, root, s', paths, d) {
      assert Witnessed(lsdb, root, s, paths, d);
    }
    forall x | x in s'.visited && x != u ensures Relaxed(lsdb, s', x) {
      assert Relaxed(lsdb, s, x);
    }
  }

  lemma RelaxingEnds(lsdb: Lsdb, root: Id, s: Search, paths: map<Id, seq<LsaLink>>, u: Id, k: nat)
    requires Relaxing(lsdb, root, s, paths, u, k)
    requires u in lsdb ==> k == |lsdb[u].links|
    ensures Inv(lsdb, root, s, paths)
  {
    if u in lsdb {
      forall l | l in lsdb[u].links ensures LinkDone(s, u, l) {
        var i :| 0 <= i < k && lsdb[u].links[i] == l;
        assert LinkDone(s, u, lsdb[u].links[i]);
      }
    }
    assert Relaxed(lsdb, s, u);
  }

  /** The node may be settled next: unvisited, below the cut-off, and nearest. */
  ghost predicate Nearest(s: Search, u: Id) {
    u in s.dist && u !in s.visited && s.dist[u] < UNREACHED && forall d :: d in s.dist && d !in s.visited ==> s.dist[u] <= s.dist[d]
  }

  /** The body of the link loop. */
  method RelaxOne(root: Id, s: Search, u: Id, link: LsaLink) returns (s': Search)
    ensures s' == RelaxLink(root, s, u, link)
  {
    s' := s;
    if link.connectedID !in s.visited {
      var altCost := DistOf(s.dist, u) + link.cost;
      if altCost < DistOf(s.dist, link.connectedID) {
        var hop := if u == root then link.connectedID else NextOf(s.next, u);
        s' := s.(dist := s.dist[link.connectedID := altCost], next := s.next[link.connectedID := hop]);
      }
    }
  }

  /** One round: settle `u` and relax its links in order. */
  method Settle(lsdb: Lsdb, root: Id, s: Search, u: Id, ghost paths: map<Id, seq<LsaLink>>)
      returns (s': Search, ghost paths': map<Id, seq<LsaLink>>)
    ensures s'.visited == s.visited + {u}
    ensures Proper(lsdb, root) && Inv(lsdb, root, s, paths) && Nearest(s, u) ==> Inv(lsdb, root, s', paths')
  {
    s', paths' := s.(visited := s.visited + {u}), paths;
    ghost var good := Proper(lsdb, root) && Inv(lsdb, root, s, paths) && Nearest(s, u);
    if good {
      SettlesNearest(lsdb, root, s, paths, u);
    }
    var links := if u in lsdb then lsdb[u].links else [];
    for k := 0 to |links|
      invariant s'.visited == s.visited + {u}
      invariant good ==> Relaxing(lsdb, root, s', paths', u, k)
    {
      var link := links[k];
      if good {
        paths' := RelaxLinkProgress(lsdb, root, s', paths', u, k);
      }
      s' := RelaxOne(root, s', u, link);
    }
    if good {
      RelaxingEnds(lsdb, root, s', paths', u, |links|);
    }
  }

  lemma StartInv(lsdb: Lsdb, root: Id, s: Search)
    requires s == Search((map d | d in lsdb :: UNREACHED)[root := 0], map[], {})
    ensures Inv(lsdb, root, s, map[root := []])
  {
    assert Witnessed(lsdb, root, s, map[root := []], root);
  }

  /** After as many rounds as there are LSAs nothing is left to settle. */
  lemma RoundsSuffice(lsdb: Lsdb, root: Id, s: Search, paths: map<Id, seq<LsaLink>>)
    requires Inv(lsdb, root, s, paths) && |s.visited| == |lsdb|
    ensures Finished(lsdb, root, s)
  {
    if root in lsdb {
      assert s.visited <= lsdb.Keys;
      SubsetOfSameSize(s.visited, lsdb.Keys);
    }
  }

  lemma SubsetOfSameSize<T>(a: set<T>, b: set<T>)
    requires a <= b && |a| == |b|
    ensures a == b
  {
    if a != b {
      var x :| x in b && x !in a;
      assert a <= b - {x};
      SubsetCardinality(a, b - {x});
    }
  }

  lemma {:induction false} SubsetCardinality<T>(a: set<T>, b: set<T>)
    requires a <= b
    ensures |a| <= |b|
  {
    if a != {} {
      var x :| x in a;
      SubsetCardinality(a - {x}, b - {x});
    }
  }

  /** A finished search holds exactly the right answer. */
  lemma FinishedIsCorrect(lsdb: Lsdb, root: Id, s: Search, paths: map<Id, seq<LsaLink>>, d: Id)
    requires Proper(lsdb, root) && Inv(lsdb, root, s, paths) && Finished(lsdb, root, s) && d != root
    ensures d in s.dist && s.dist[d] < UNREACHED <==> d in lsdb && Reachable(lsdb, root, d)
    ensures d in s.dist && s.dist[d] < UNREACHED ==>
              LeastCost(lsdb, root, d, s.dist[d]) && GoodNextHop(lsdb, root, d, NextOf(s.next, d), s.dist[d])
  {
    if d in s.dist && s.dist[d] < UNREACHED {
      assert Witnessed(lsdb, root, s, paths, d);
      PathLeavesRoot(lsdb, root, paths[d]);
      forall path | IsPath(lsdb, root, path) && Last(root, path) == d ensures s.dist[d] <= Cost(path) {
        NoPathIsShorter(lsdb, root, s, paths, path);
      }
    } else if d in lsdb && Reachable(lsdb, root, d) {
      var path :| IsPath(lsdb, root, path) && Last(root, path) == d && Cost(path) < UNREACHED;
      NoPathIsShorter(lsdb, root, s, paths, path);
    }
  }

  /** The results loop: every node but the root with a distance below the cut-off. */
  method Collect(root: Id, s: Search) returns (results: map<Id, SpfResult>)
    ensures forall d :: d in results <==> d in s.dist && d != root && s.dist[d] < UNREACHED
    ensures forall d :: d in results ==> results[d] == SpfResult(d, NextOf(s.next, d), s.dist[d])
  {
    results := map[];
    var todo := s.dist.Keys;
    while todo != {}
      invariant todo <= s.dist.Keys
      invariant forall d :: d in results <==> d in s.dist && d !in todo && d != root && s.dist[d] < UNREACHED
      invariant forall d :: d in results ==> results[d] == SpfResult(d, NextOf(s.next, d), s.dist[d])
      decreases todo
    {
      var dest :| dest in todo;
      if dest != root && s.dist[dest] < UNREACHED {
        results := results[dest := SpfResult(dest, NextOf(s.next, dest), s.dist[dest])];
      }
      todo := todo - {dest};
    }
  }

  lemma CollectedIsCorrect(lsdb: Lsdb, root: Id, s: Search, paths: map<Id, seq<LsaLink>>, results: map<Id, SpfResult>)
    requires Proper(lsdb, root) && Inv(lsdb, root, s, paths) && Finished(lsdb, root, s)
    requires forall d :: d in results <==> d in s.dist && d != root && s.dist[d] < UNREACHED
    requires forall d :: d in results ==> results[d] == SpfResult(d, NextOf(s.next, d), s.dist[d])
    ensures Correct(lsdb, root, results)
  {
    forall d | d != root
      ensures d in results <==> d in lsdb && Reachable(lsdb, root, d)
      ensures d in results ==> LeastCost(lsdb, root, d, results[d].metric) && GoodNextHop(lsdb, root, d, results[d].nextHop, results[d].metric)
    {
      FinishedIsCorrect(lsdb, root, s, paths, d);
    }
  }

  /** After `i` rounds, if the database is proper, `i` nodes are settled and the invariant holds. */
  ghost predicate OnCourse(lsdb: Lsdb, root: Id, s: Search, paths: map<Id, seq<LsaLink>>, i: nat) {
    Proper(lsdb, root) ==> Inv(lsdb, root, s, paths) && |s.visited| == i
  }

  lemma RoundDone(lsdb: Lsdb, root: Id, s: Search, paths: map<Id, seq<LsaLink>>, u: Id, s': Search, paths': map<Id, seq<LsaLink>>, i: nat)
    requires OnCourse(lsdb, root, s, paths, i) && u !in s.visited && s'.visited == s.visited + {u}
    requires Proper(lsdb, root) && Inv(lsdb, root, s, paths) ==> Inv(lsdb, root, s', paths')
    ensures OnCourse(lsdb, root, s', paths', i + 1)
  {}

  /** The search is over: every round was used, or nothing below the cut-off was left. */
  lemma SearchIsOver(lsdb: Lsdb, root: Id, s: Search, paths: map<Id, seq<LsaLink>>, i: nat, stuck: bool)
    requires OnCourse(lsdb, root, s, paths, i)
    requires if stuck then NOBODY !in s.dist ==> forall d :: d in s.dist && d !in s.visited ==> s.dist[d] >= UNREACHED else i == |lsdb|
    ensures Proper(lsdb, root) ==> Inv(lsdb, root, s, paths) && Finished(lsdb, root, s)
  {
    if Proper(lsdb, root) && !stuck {
      RoundsSuffice(lsdb, root, s, paths);
    }
  }

  /** The rounds: at most one for each LSA, stopping when no node is left below the cut-off. */
  method RunRounds(lsdb: Lsdb, rootID: Id) returns (s: Search, ghost paths: map<Id, seq<LsaLink>>)
    ensures Proper(lsdb, rootID) ==> Inv(lsdb, rootID, s, paths) && Finished(lsdb, rootID, s)
  {
    s, paths := Search((map d | d in lsdb :: UNREACHED)[rootID := 0], map[], {}), map[rootID := []];
    StartInv(lsdb, rootID, s);
    for i := 0 to |lsdb|
      invariant OnCourse(lsdb, rootID, s, paths, i)
    {
      var u := SelectNearest(s.dist, s.visited);
      if u == NOBODY {
        SearchIsOver(lsdb, rootID, s, paths, i, true);
        return;
      }
      ghost var before, found := s, paths;
      s, paths := Settle(lsdb, rootID, s, u, paths);
      RoundDone(lsdb, rootID, before, found, u, s, paths, i);
    }
    SearchIsOver(lsdb, rootID, s, paths, |lsdb|, false);
  }

  /** ComputeSPF. */
  method ComputeSpf(lsdb: Lsdb, rootID: Id) returns (results: map<Id, SpfResult>)
    ensures forall d :: d in results ==> results[d].destination == d
    ensures Proper(lsdb, rootID) ==> Correct(lsdb, rootID, results)
  {
    ghost var paths;
    var s;
    s, paths := RunRounds(lsdb, rootID);
    results := Collect(rootID, s);
    if Proper(lsdb, rootID) {
      CollectedIsCorrect(lsdb, rootID, s, paths, results);
    }
  }
}
