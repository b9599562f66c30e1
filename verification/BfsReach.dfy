/**
 Which directories the breadth-first scan lists. The argument is made for any edge relation between
 directories, and then for the edges of a provider graph.
 */
module BfsReach {
  import opened Common
  import opened Text
  import opened Scan
  import opened Paths
  import opened Bfs

  type Edge = (Dir, Dir) -> bool

  // ---- Any edge relation --------------------------------------------------------------------

  /** A way down from the root along edges. */
  ghost predicate Route(edge: Edge, root: Dir, route: seq<Dir>) {
    route != [] && route[0] == root && forall i, j :: 0 <= i < j < |route| && j == i + 1 ==> edge(route[i], route[j])
  }

  ghost predicate RouteTo(edge: Edge, root: Dir, route: seq<Dir>, d: Dir) {
    Route(edge, root, route) && route[|route| - 1] == d
  }

  ghost predicate Reached(edge: Edge, root: Dir, d: Dir) { exists route :: RouteTo(edge, root, route, d) }

  /** Some directory of the list has this identity and lies at this depth or above it. */
  ghost predicate Covered(all: seq<Dir>, id: string, depth: nat) {
    exists k :: 0 <= k < |all| && all[k].id == id && all[k].depth <= depth
  }

  ghost predicate Mentions(all: seq<Dir>, id: string) { exists k :: 0 <= k < |all| && all[k].id == id }

  predicate MarksChild(edge: Edge, a: Dir, b: Dir, visited: set<string>) { edge(a, b) ==> b.id in visited }

  /** The turn from w to v lists the first directory: its children are marked, the new ones are queued. */
  ghost predicate Explored(edge: Edge, w: Walk, v: Walk)
    requires w.queue != []
  {
    && w.queue[1..] <= v.queue
    && (forall i :: |w.queue| - 1 <= i < |v.queue| ==> edge(w.queue[0], v.queue[i]))
    && (forall b :: MarksChild(edge, w.queue[0], b, v.visited))
    && (forall id :: id in v.visited ==> id in w.visited || Mentions(v.queue, id))
  }

  ghost predicate ExploresAt(turn: Walk -> Turn, edge: Edge, w: Walk) {
    && (w.queue != [] && Continues(turn, w) ==> Explored(edge, w, Next(turn, w)))
    && (turn(w).Turned? && turn(w).visited.Overflow? ==> turn(w).visited.result.partial)
  }

  ghost predicate Explores(turn: Walk -> Turn, edge: Edge) { forall w :: ExploresAt(turn, edge, w) }

  /** Edges lead one level down. */
  predicate DescendsAt(edge: Edge, a: Dir, b: Dir) { edge(a, b) ==> b.depth == a.depth + 1 }

  ghost predicate Descends(edge: Edge) { forall a, b :: DescendsAt(edge, a, b) }

  /** Depths never decrease along the list, and from position `from` on they stay within one level. */
  ghost predicate Levels(all: seq<Dir>, from: nat) {
    && (forall i, j :: 0 <= i < j < |all| ==> all[i].depth <= all[j].depth)
    && (from < |all| ==> forall i :: 0 <= i < |all| ==> all[i].depth <= all[from].depth + 1)
  }

  ghost predicate ClosedAt(edge: Edge, all: seq<Dir>, a: Dir, b: Dir) { edge(a, b) ==> Covered(all, b.id, b.depth) }

  /** Every child of the first n directories has been found, at its level or above. */
  ghost predicate Closed(edge: Edge, all: seq<Dir>, n: nat)
    requires n <= |all|
  {
    forall i, b :: 0 <= i < n ==> ClosedAt(edge, all, all[i], b)
  }

  ghost predicate Marks(w: Walk, all: seq<Dir>) { forall id :: id in w.visited ==> Mentions(all, id) }

  ghost predicate AllReached(edge: Edge, root: Dir, all: seq<Dir>) {
    forall i :: 0 <= i < |all| ==> Reached(edge, root, all[i])
  }

  /** What holds between turns, with `done` the directories listed so far. */
  ghost predicate Known(edge: Edge, root: Dir, done: seq<Dir>, w: Walk) {
    var all := done + w.queue;
    all != [] && all[0] == root && Levels(all, |done|) && Closed(edge, all, |done|) && Marks(w, all)
    && AllReached(edge, root, all)
  }

  lemma ReachedNext(edge: Edge, root: Dir, a: Dir, b: Dir)
    requires Reached(edge, root, a) && edge(a, b)
    ensures Reached(edge, root, b)
  {
    var route :| RouteTo(edge, root, route, a);
    var longer := route + [b];
    forall i, j | 0 <= i < j < |longer| && j == i + 1 ensures edge(longer[i], longer[j]) {
      if j < |route| { assert edge(route[i], route[j]); }
    }
    assert RouteTo(edge, root, longer, b);
  }

  /** After a turn the list of found directories has grown by children of the one just listed. */
  lemma Grown(edge: Edge, done: seq<Dir>, w: Walk, v: Walk) returns (more: seq<Dir>)
    requires w.queue != [] && Explored(edge, w, v)
    ensures done + [w.queue[0]] + v.queue == done + w.queue + more
    ensures forall d :: d in more ==> edge(w.queue[0], d)
  {
    var n := |w.queue| - 1;
    more := v.queue[n..];
    assert v.queue == w.queue[1..] + more && w.queue == [w.queue[0]] + w.queue[1..];
    forall d | d in more ensures edge(w.queue[0], d) {
      var i :| 0 <= i < |more| && more[i] == d;
      assert v.queue[n + i] == d;
    }
  }

  lemma LevelsGrow(edge: Edge, all: seq<Dir>, from: nat, more: seq<Dir>)
    requires Descends(edge) && from < |all| && Levels(all, from) && forall d :: d in more ==> edge(all[from], d)
    ensures Levels(all + more, from + 1)
  {
    forall i | 0 <= i < |more| ensures more[i].depth == all[from].depth + 1 {
      assert more[i] in more && DescendsAt(edge, all[from], more[i]);
    }
    var longer := all + more;
    assert forall i :: 0 <= i < |longer| ==> longer[i].depth <= all[from].depth + 1;
    if from + 1 < |longer| { assert longer[from].depth <= longer[from + 1].depth; }
  }

  lemma ReachedGrow(edge: Edge, root: Dir, all: seq<Dir>, from: nat, more: seq<Dir>)
    requires from < |all| && AllReached(edge, root, all) && forall d :: d in more ==> edge(all[from], d)
    ensures AllReached(edge, root, all + more)
  {
    forall i | 0 <= i < |all + more| ensures Reached(edge, root, (all + more)[i]) {
      if i >= |all| {
        assert (all + more)[i] in more;
        ReachedNext(edge, root, all[from], (all + more)[i]);
      }
    }
  }

  lemma CoveredGrow(all: seq<Dir>, more: seq<Dir>, id: string, depth: nat)
    requires Covered(all, id, depth)
    ensures Covered(all + more, id, depth)
  {
    var k :| 0 <= k < |all| && all[k].id == id && all[k].depth <= depth;
    assert (all + more)[k] == all[k];
  }

  lemma ClosedGrow(edge: Edge, all: seq<Dir>, from: nat, more: seq<Dir>)
    requires from < |all| && Closed(edge, all, from)
    requires forall b :: ClosedAt(edge, all + more, all[from], b)
    ensures Closed(edge, all + more, from + 1)
  {
    forall i, b | 0 <= i < from + 1 ensures ClosedAt(edge, all + more, (all + more)[i], b) {
      if i < from && edge(all[i], b) {
        assert ClosedAt(edge, all, all[i], b);
        CoveredGrow(all, more, b.id, b.depth);
      }
    }
  }

  lemma MarksGrow(edge: Edge, done: seq<Dir>, w: Walk, v: Walk)
    requires w.queue != [] && Explored(edge, w, v) && Marks(w, done + w.queue)
    ensures Marks(v, done + [w.queue[0]] + v.queue)
  {
    var all := done + [w.queue[0]] + v.queue;
    var more := Grown(edge, done, w, v);
    forall id | id in v.visited ensures Mentions(all, id) {
      if id in w.visited {
        var k :| 0 <= k < |done + w.queue| && (done + w.queue)[k].id == id;
        assert all[k].id == id;
      } else {
        var k :| 0 <= k < |v.queue| && v.queue[k].id == id;
        assert all[|done| + 1 + k].id == id;
      }
    }
  }

  lemma ChildrenCovered(edge: Edge, a: Dir, v: Walk, all: seq<Dir>)
    requires Descends(edge) && Marks(v, all) && forall b :: MarksChild(edge, a, b, v.visited)
    requires forall i :: 0 <= i < |all| ==> all[i].depth <= a.depth + 1
    ensures forall b :: ClosedAt(edge, all, a, b)
  {
    forall b | edge(a, b) ensures Covered(all, b.id, b.depth) {
      assert MarksChild(edge, a, b, v.visited) && DescendsAt(edge, a, b);
      var k :| 0 <= k < |all| && all[k].id == b.id;
    }
  }

  /** One turn of the queue loop keeps the account of what has been found. */
  lemma KnownNext(edge: Edge, root: Dir, done: seq<Dir>, w: Walk, v: Walk)
    requires Descends(edge) && w.queue != [] && Known(edge, root, done, w) && Explored(edge, w, v)
    ensures Known(edge, root, done + [w.queue[0]], v)
  {
    var all, from, current := done + w.queue, |done|, w.queue[0];
    assert all[from] == current;
    var more := Grown(edge, done, w, v);
    LevelsGrow(edge, all, from, more);
    ReachedGrow(edge, root, all, from, more);
    MarksGrow(edge, done, w, v);
    forall i | 0 <= i < |all + more| ensures (all + more)[i].depth <= current.depth + 1 {
      if i >= |all| { assert (all + more)[i] in more && DescendsAt(edge, current, (all + more)[i]); }
    }
    ChildrenCovered(edge, current, v, all + more);
    ClosedGrow(edge, all, from, more);
  }

  /** An undisturbed walk that has not ended yet takes a turn. */
  lemma TakesTurn(turn: Walk -> Turn, edge: Edge, w: Walk, alive: nat)
    requires Shrinks(turn) && w.seen <= MAX_ENTRIES && w.queue != [] && ExploresAt(turn, edge, w)
    requires RunFrom(turn, w, alive).end.Walked? && !RunFrom(turn, w, alive).end.result.partial
    ensures alive > 0 && Continues(turn, w) && Explored(edge, w, Next(turn, w)) && ShrinksAt(turn, w)
    ensures Next(turn, w).seen <= MAX_ENTRIES
    ensures var rest := RunFrom(turn, Next(turn, w), alive - 1);
            RunFrom(turn, w, alive) == WalkRun(rest.end, [w.queue[0]] + rest.listing)
  {
    assert ShrinksAt(turn, w);
  }

  /** A walk that ends undisturbed has listed a set closed under edges. */
  lemma {:induction false} WalkedKnows(turn: Walk -> Turn, edge: Edge, root: Dir, done: seq<Dir>, w: Walk, alive: nat)
    returns (all: seq<Dir>, last: Walk)
    requires Shrinks(turn) && Explores(turn, edge) && Descends(edge)
    requires w.seen <= MAX_ENTRIES && Known(edge, root, done, w)
    requires RunFrom(turn, w, alive).end.Walked? && !RunFrom(turn, w, alive).end.result.partial
    ensures all == done + RunFrom(turn, w, alive).listing && last.queue == [] && Known(edge, root, all, last)
    decreases MAX_ENTRIES - w.seen + |w.queue|
  {
    if w.queue == [] {
      return done, w;
    }
    assert ExploresAt(turn, edge, w);
    TakesTurn(turn, edge, w, alive);
    var v := Next(turn, w);
    KnownNext(edge, root, done, w, v);
    all, last := WalkedKnows(turn, edge, root, done + [w.queue[0]], v, alive - 1);
    Regroup(done, [w.queue[0]], RunFrom(turn, v, alive - 1).listing);
  }

  predicate SameChild(edge: Edge, c: Dir, b: Dir, d: Dir) { edge(c, d) && d.id == b.id && d.depth <= b.depth }

  /** The child b of a is found under the handle c of the same directory as well. */
  ghost predicate TransportsAt(edge: Edge, a: Dir, b: Dir, c: Dir) {
    edge(a, b) && a.id == c.id && c.depth <= a.depth ==> exists d :: SameChild(edge, c, b, d)
  }

  /** Children of a directory are found under whichever handle it was listed. */
  ghost predicate Transports(edge: Edge, root: Dir) {
    forall a, b, c :: Reached(edge, root, a) && Reached(edge, root, c) ==> TransportsAt(edge, a, b, c)
  }

  lemma CoveredStep(edge: Edge, root: Dir, all: seq<Dir>, a: Dir, b: Dir)
    requires Transports(edge, root) && Closed(edge, all, |all|) && AllReached(edge, root, all)
    requires Reached(edge, root, a) && edge(a, b) && Covered(all, a.id, a.depth)
    ensures Covered(all, b.id, b.depth)
  {
    var k :| 0 <= k < |all| && all[k].id == a.id && all[k].depth <= a.depth;
    assert TransportsAt(edge, a, b, all[k]);
    var d :| SameChild(edge, all[k], b, d);
    assert ClosedAt(edge, all, all[k], d);
    var j :| 0 <= j < |all| && all[j].id == d.id && all[j].depth <= d.depth;
  }

  lemma RoutePrefix(edge: Edge, root: Dir, route: seq<Dir>, n: nat)
    requires Route(edge, root, route) && 0 < n <= |route|
    ensures Route(edge, root, route[..n]) && Reached(edge, root, route[n - 1])
  {
    assert RouteTo(edge, root, route[..n], route[n - 1]);
  }

  lemma {:induction false} RouteCovered(edge: Edge, root: Dir, all: seq<Dir>, route: seq<Dir>)
    requires Transports(edge, root) && all != [] && all[0] == root && Closed(edge, all, |all|)
    requires AllReached(edge, root, all) && Route(edge, root, route)
    ensures Covered(all, route[|route| - 1].id, route[|route| - 1].depth)
    decreases |route|
  {
    var n := |route| - 1;
    if n == 0 {
      assert all[0].id == route[n].id;
    } else {
      RoutePrefix(edge, root, route, n);
      RouteCovered(edge, root, all, route[..n]);
      CoveredStep(edge, root, all, route[n - 1], route[n]);
    }
  }

  // ---- The edges of a provider graph --------------------------------------------------------

  /** The item is a directory that the walk may enter from a, and b is its handle there. */
  predicate Child(rules: Rules, a: Dir, item: Item, b: Dir) {
    && item.isDir && a.depth + 1 < MAX_DEPTH && !ShouldIgnore(a.path + "/" + item.name, rules.ignores)
    && b == Dir(item.id, a.path + "/" + item.name, a.depth + 1)
  }

  ghost predicate ChildOf(rules: Rules, a: Dir, items: seq<Item>, b: Dir) {
    exists k :: 0 <= k < |items| && Child(rules, a, items[k], b)
  }

  ghost predicate Below(graph: Graph, rules: Rules, a: Dir, b: Dir) {
    a.id in graph && ChildOf(rules, a, graph[a.id], b)
  }

  ghost function EdgesOf(graph: Graph, rules: Rules): Edge { (a, b) => Below(graph, rules, a, b) }

  function Root(rootId: string): Dir { Dir(rootId, "", 0) }

  /** Visiting the items queues children only, and marks every child. */
  ghost predicate Entered(rules: Rules, current: Dir, items: seq<Item>, w: Walk, v: Walk) {
    && w.queue <= v.queue && w.visited <= v.visited
    && (forall i :: |w.queue| <= i < |v.queue| ==> ChildOf(rules, current, items, v.queue[i]))
    && (forall b :: ChildOf(rules, current, items, b) ==> MarkedIn(v, b))
    && (forall id :: id in v.visited ==> id in w.visited || Mentions(v.queue, id))
  }

  predicate MarkedIn(v: Walk, b: Dir) { b.id in v.visited }

  lemma EnteredOne(rules: Rules, current: Dir, item: Item, w: Walk)
    ensures Entered(rules, current, [item], w, Visit(true, rules, current, item, w))
  {
    var v := Visit(true, rules, current, item, w);
    forall b | ChildOf(rules, current, [item], b) ensures MarkedIn(v, b) {
      assert Child(rules, current, item, b);
    }
    forall i | |w.queue| <= i < |v.queue| ensures ChildOf(rules, current, [item], v.queue[i]) {
      assert Child(rules, current, [item][0], v.queue[i]);
    }
    forall id | id in v.visited ensures id in w.visited || Mentions(v.queue, id) {
      if id !in w.visited { assert v.queue[|v.queue| - 1].id == id; }
    }
  }

  lemma EnteredMore(rules: Rules, current: Dir, first: Item, rest: seq<Item>, w: Walk, m: Walk, v: Walk)
    requires Entered(rules, current, [first], w, m) && Entered(rules, current, rest, m, v)
    ensures Entered(rules, current, [first] + rest, w, v)
  {
    var items := [first] + rest;
    forall i | |w.queue| <= i < |v.queue| ensures ChildOf(rules, current, items, v.queue[i]) {
      if i < |m.queue| {
        assert v.queue[i] == m.queue[i] && ChildOf(rules, current, [first], m.queue[i]);
        assert Child(rules, current, items[0], v.queue[i]);
      } else {
        var k :| 0 <= k < |rest| && Child(rules, current, rest[k], v.queue[i]);
        assert Child(rules, current, items[k + 1], v.queue[i]);
      }
    }
    forall b | ChildOf(rules, current, items, b) ensures MarkedIn(v, b) {
      var k :| 0 <= k < |items| && Child(rules, current, items[k], b);
      if k == 0 {
        assert Child(rules, current, [first][0], b) && ChildOf(rules, current, [first], b);
        assert MarkedIn(m, b);
      } else {
        assert Child(rules, current, rest[k - 1], b);
      }
    }
    forall id | id in v.visited ensures id in w.visited || Mentions(v.queue, id) {
      if id in m.visited && id !in w.visited {
        var k :| 0 <= k < |m.queue| && m.queue[k].id == id;
        assert v.queue[k].id == id;
      }
    }
  }

  lemma {:induction false} VisitAllEnters(rules: Rules, current: Dir, items: seq<Item>, w: Walk)
    ensures var v := VisitAll(true, rules, current, items, w);
            if v.Within? then Entered(rules, current, items, w, v.walk) else v.result.partial
    decreases |items|
  {
    if items == [] || w.seen + 1 > MAX_ENTRIES {
    } else {
      var m := Visit(true, rules, current, items[0], w);
      var v := VisitAll(true, rules, current, items[1..], m);
      VisitAllEnters(rules, current, items[1..], m);
      assert items == [items[0]] + items[1..];
      if v.Within? {
        EnteredOne(rules, current, items[0], w);
        EnteredMore(rules, current, items[0], items[1..], w, m, v.walk);
      }
    }
  }

  lemma TurnExplores(graph: Graph, rules: Rules, w: Walk)
    ensures ExploresAt(Turns(graph, true, rules), EdgesOf(graph, rules), w)
  {
    var turn, edge := Turns(graph, true, rules), EdgesOf(graph, rules);
    if w.queue == [] || w.queue[0].id !in graph {
    } else {
      var current, popped := w.queue[0], w.(queue := w.queue[1..]);
      VisitAllEnters(rules, current, graph[current.id], popped);
      if Continues(turn, w) {
        var v := Next(turn, w);
        forall b ensures MarksChild(edge, current, b, v.visited) {
          if edge(current, b) { assert ChildOf(rules, current, graph[current.id], b) && MarkedIn(v, b); }
        }
        forall i | |popped.queue| <= i < |v.queue| ensures edge(current, v.queue[i]) {
          assert ChildOf(rules, current, graph[current.id], v.queue[i]);
        }
      }
    }
  }

  lemma EdgesDescend(graph: Graph, rules: Rules)
    ensures Descends(EdgesOf(graph, rules))
  {
    var edge := EdgesOf(graph, rules);
    forall a, b ensures DescendsAt(edge, a, b) {
      if edge(a, b) {
        var k :| 0 <= k < |graph[a.id]| && Child(rules, a, graph[a.id][k], b);
      }
    }
  }

  lemma StartKnown(edge: Edge, rootId: string)
    ensures Known(edge, Root(rootId), [], Start(rootId))
  {
    var root, all := Root(rootId), [] + Start(rootId).queue;
    assert RouteTo(edge, root, [root], root);
    assert all == [root] && all[0].id == rootId;
    forall id | id in Start(rootId).visited ensures Mentions(all, id) { assert all[0].id == id; }
  }

  lemma KnownEnds(edge: Edge, root: Dir, all: seq<Dir>, last: Walk)
    requires Known(edge, root, all, last) && last.queue == []
    ensures all != [] && all[0] == root && Closed(edge, all, |all|) && AllReached(edge, root, all)
  {
    assert all + last.queue == all;
  }

  lemma UndisturbedCloses(turn: Walk -> Turn, edge: Edge, rootId: string, alive: nat, run: WalkRun)
    requires Shrinks(turn) && Explores(turn, edge) && Descends(edge) && run == RunFrom(turn, Start(rootId), alive)
    requires run.end.Walked? && !run.end.result.partial
    ensures run.listing != [] && run.listing[0] == Root(rootId)
    ensures Closed(edge, run.listing, |run.listing|) && AllReached(edge, Root(rootId), run.listing)
  {
    StartKnown(edge, rootId);
    var all, last := WalkedKnows(turn, edge, Root(rootId), [], Start(rootId), alive);
    assert [] + run.listing == run.listing;
    KnownEnds(edge, Root(rootId), all, last);
  }

  /** The listing is a set of reached directories that is closed under children. */
  ghost predicate Closing(edge: Edge, rootId: string, listing: seq<Dir>) {
    && listing != [] && listing[0] == Root(rootId)
    && Closed(edge, listing, |listing|) && AllReached(edge, Root(rootId), listing)
  }

  /** The scan ends by itself: no listing error, no cancellation, no entry limit. */
  ghost predicate Undisturbed(graph: Graph, rules: Rules, rootId: string, alive: nat) {
    var end := WalkAll(graph, true, rules, Start(rootId), alive).end;
    end.Walked? && !end.result.partial
  }

  /**
   Every directory an undisturbed recursive scan lists is reached by a way down on which nothing is ignored, and
   with a listed directory every child is listed, at its level or above.
   */
  lemma ListingCloses(graph: Graph, rules: Rules, rootId: string, alive: nat)
    requires Undisturbed(graph, rules, rootId, alive)
    ensures Closing(EdgesOf(graph, rules), rootId, WalkAll(graph, true, rules, Start(rootId), alive).listing)
  {
    var turn, edge := Turns(graph, true, rules), EdgesOf(graph, rules);
    forall w ensures ExploresAt(turn, edge, w) { TurnExplores(graph, rules, w); }
    EdgesDescend(graph, rules);
    UndisturbedCloses(turn, edge, rootId, alive, WalkAll(graph, true, rules, Start(rootId), alive));
  }

  // ---- Exactly the reachable directories ----------------------------------------------------

  lemma RootNotIgnored(patterns: seq<string>)
    ensures !ShouldIgnore("", patterns)
  {
    assert Lower("") == "" && Split("", '/') == [""];
  }

  lemma ReachedNotIgnored(graph: Graph, rules: Rules, rootId: string, d: Dir)
    requires Reached(EdgesOf(graph, rules), Root(rootId), d)
    ensures !ShouldIgnore(d.path, rules.ignores)
  {
    var edge := EdgesOf(graph, rules);
    var route :| RouteTo(edge, Root(rootId), route, d);
    if |route| == 1 {
      RootNotIgnored(rules.ignores);
    } else {
      var a := route[|route| - 2];
      assert edge(a, d);
      var k :| 0 <= k < |graph[a.id]| && Child(rules, a, graph[a.id][k], d);
    }
  }

  /** A directory that was reached is the root, or has a path that starts with a slash. */
  lemma ReachedPath(graph: Graph, rules: Rules, rootId: string, d: Dir) returns (p: string)
    requires Reached(EdgesOf(graph, rules), Root(rootId), d)
    ensures d == Root(rootId) || (d.depth > 0 && d.path == "/" + p)
  {
    var edge, root := EdgesOf(graph, rules), Root(rootId);
    var route :| RouteTo(edge, root, route, d);
    p := "";
    if |route| > 1 {
      var a := route[|route| - 2];
      assert edge(a, d);
      var k :| 0 <= k < |graph[a.id]| && Child(rules, a, graph[a.id][k], d);
      RoutePrefix(edge, root, route, |route| - 1);
      p := ReachedTail(graph, rules, rootId, a, graph[a.id][k].name, route[..|route| - 1]);
    }
  }

  lemma {:induction false} ReachedTail(graph: Graph, rules: Rules, rootId: string, a: Dir, name: string,
                                       route: seq<Dir>)
    returns (p: string)
    requires RouteTo(EdgesOf(graph, rules), Root(rootId), route, a)
    ensures a.path + "/" + name == "/" + p
    decreases |route|
  {
    var edge, root := EdgesOf(graph, rules), Root(rootId);
    var n := |route| - 1;
    if n == 0 {
      p := name;
      assert "" + "/" + name == "/" + p;
    } else {
      var above := route[n - 1];
      assert edge(above, a);
      var k :| 0 <= k < |graph[above.id]| && Child(rules, above, graph[above.id][k], a);
      RoutePrefix(edge, root, route, n);
      assert RouteTo(edge, root, route[..n], above);
      var q := ReachedTail(graph, rules, rootId, above, graph[above.id][k].name, route[..n]);
      p := q + "/" + name;
      assert "/" + q + "/" + name == "/" + (q + "/" + name);
    }
  }

  /** The verdict on a child is the same under a handle that lies no deeper. */
  lemma SameVerdict(patterns: seq<string>, a: Dir, p: string, c: Dir, q: string, root: Dir, name: string)
    requires NamesAgree(patterns) && root.path == "" && root.depth == 0 && c.depth <= a.depth
    requires a == root || (a.depth > 0 && a.path == "/" + p)
    requires c == root || (c.depth > 0 && c.path == "/" + q)
    requires !ShouldIgnore(c.path, patterns) && !ShouldIgnore(a.path + "/" + name, patterns)
    ensures !ShouldIgnore(c.path + "/" + name, patterns)
  {
    assert root.path + "/" + name == "/" + name;
    if c == root {
      if ShouldIgnore("/" + name, patterns) { IgnoreAbove(a.path, name, patterns); }
    } else {
      assert AgreeAt(patterns, q, p, name);
    }
  }

  lemma EdgesTransport(graph: Graph, rules: Rules, rootId: string)
    requires NamesAgree(rules.ignores)
    ensures Transports(EdgesOf(graph, rules), Root(rootId))
  {
    var edge, root := EdgesOf(graph, rules), Root(rootId);
    forall a, b, c | Reached(edge, root, a) && Reached(edge, root, c) ensures TransportsAt(edge, a, b, c) {
      if edge(a, b) && a.id == c.id && c.depth <= a.depth {
        var items := graph[a.id];
        var k :| 0 <= k < |items| && Child(rules, a, items[k], b);
        ReachedNotIgnored(graph, rules, rootId, c);
        var p := ReachedPath(graph, rules, rootId, a);
        var q := ReachedPath(graph, rules, rootId, c);
        SameVerdict(rules.ignores, a, p, c, q, root, items[k].name);
        var d := Dir(b.id, c.path + "/" + items[k].name, c.depth + 1);
        assert Child(rules, c, items[k], d) && ChildOf(rules, c, items, d);
        assert SameChild(edge, c, b, d);
      }
    }
  }

  ghost predicate Reachable(graph: Graph, rules: Rules, rootId: string, id: string) {
    exists d :: Reached(EdgesOf(graph, rules), Root(rootId), d) && d.id == id
  }

  /** An undisturbed scan lists this directory exactly when it is reachable. */
  ghost predicate ListsExactly(graph: Graph, rules: Rules, rootId: string, alive: nat, id: string) {
    Undisturbed(graph, rules, rootId, alive) ==>
      (Mentions(WalkAll(graph, true, rules, Start(rootId), alive).listing, id) <==> Reachable(graph, rules, rootId, id))
  }

  lemma AgreeingListsExactly(graph: Graph, rules: Rules, rootId: string, alive: nat, id: string)
    requires Undisturbed(graph, rules, rootId, alive) && NamesAgree(rules.ignores)
    ensures Mentions(WalkAll(graph, true, rules, Start(rootId), alive).listing, id) <==>
            Reachable(graph, rules, rootId, id)
  {
    var edge, root, all :=
      EdgesOf(graph, rules), Root(rootId), WalkAll(graph, true, rules, Start(rootId), alive).listing;
    ListingCloses(graph, rules, rootId, alive);
    EdgesTransport(graph, rules, rootId);
    if Mentions(all, id) {
      var k :| 0 <= k < |all| && all[k].id == id;
      assert Reached(edge, root, all[k]);
    }
    if Reachable(graph, rules, rootId, id) {
      var d :| Reached(edge, root, d) && d.id == id;
      var route :| RouteTo(edge, root, route, d);
      RouteCovered(edge, root, all, route);
    }
  }

  // ---- Patterns that disagree hide a shared directory ---------------------------------------

  function Folder(id: string, name: string): Item { Item(id, name, true, 0, 0, "") }

  /** One directory under two names p and q, and a directory n in it. */
  ghost function Shared(p: string, q: string, n: string): Graph {
    imap["r" := [Folder("s", p), Folder("s", q)], "s" := [Folder("x", n)], "x" := []]
  }

  /** The patterns ignore n under p, but not under q. */
  predicate Disagree(rules: Rules, p: string, q: string, n: string) {
    && !ShouldIgnore("/" + p, rules.ignores) && !ShouldIgnore("/" + q, rules.ignores)
    && ShouldIgnore("/" + p + "/" + n, rules.ignores) && !ShouldIgnore("/" + q + "/" + n, rules.ignores)
  }

  lemma SharedReach(rules: Rules, p: string, q: string, n: string)
    requires !ShouldIgnore("/" + q, rules.ignores) && !ShouldIgnore("/" + q + "/" + n, rules.ignores)
    ensures Reachable(Shared(p, q, n), rules, "r", "x")
  {
    var graph := Shared(p, q, n);
    var edge, root, b, x := EdgesOf(graph, rules), Root("r"), Dir("s", "/" + q, 1), Dir("x", "/" + q + "/" + n, 2);
    assert "" + "/" + q == "/" + q;
    assert Child(rules, root, graph["r"][1], b);
    assert Child(rules, b, graph["s"][0], x);
    assert edge(root, b) && edge(b, x);
    assert RouteTo(edge, root, [root, b, x], x);
  }

  lemma SharedFirst(rules: Rules, p: string, q: string, n: string) returns (v: Walk)
    requires !ShouldIgnore("/" + p, rules.ignores) && !ShouldIgnore("/" + q, rules.ignores)
    ensures TurnOf(Shared(p, q, n), true, rules, Start("r")) == Turned(Within(v))
    ensures v.queue == [Dir("s", "/" + p, 1)] && v.seen == 2 && !v.result.partial
  {
    var root, a, b := Root("r"), Folder("s", p), Folder("s", q);
    var popped := Start("r").(queue := []);
    assert "" + "/" + p == "/" + p && "" + "/" + q == "/" + q;
    var m := Visit(true, rules, root, a, popped);
    v := Visit(true, rules, root, b, m);
    assert [a, b][1..] == [b] && [b][1..] == [];
    assert VisitAll(true, rules, root, [b], m) == VisitAll(true, rules, root, [b][1..], v) == Within(v);
    assert VisitAll(true, rules, root, [a, b], popped) == VisitAll(true, rules, root, [a, b][1..], m);
    assert Start("r").queue[1..] == [];
  }

  lemma SharedSecond(rules: Rules, p: string, q: string, n: string, w: Walk) returns (v: Walk)
    requires ShouldIgnore("/" + p + "/" + n, rules.ignores)
    requires w.queue == [Dir("s", "/" + p, 1)] && w.seen == 2 && !w.result.partial
    ensures TurnOf(Shared(p, q, n), true, rules, w) == Turned(Within(v))
    ensures v.queue == [] && v.seen == 3 && !v.result.partial
  {
    var x, popped := Folder("x", n), w.(queue := []);
    assert w.queue[1..] == [] && [x][1..] == [];
    v := Visit(true, rules, w.queue[0], x, popped);
    assert VisitAll(true, rules, w.queue[0], [x], popped) == VisitAll(true, rules, w.queue[0], [x][1..], v);
  }

  lemma SharedWalk(rules: Rules, p: string, q: string, n: string, alive: nat)
    requires alive >= 2 && Disagree(rules, p, q, n)
    ensures Undisturbed(Shared(p, q, n), rules, "r", alive)
    ensures WalkAll(Shared(p, q, n), true, rules, Start("r"), alive).listing == [Root("r"), Dir("s", "/" + p, 1)]
  {
    var v1 := SharedFirst(rules, p, q, n);
    var v2 := SharedSecond(rules, p, q, n, v1);
    TwoTurns(Turns(Shared(p, q, n), true, rules), Start("r"), v1, v2, alive);
  }

  /** A walk of two turns. */
  lemma TwoTurns(turn: Walk -> Turn, w: Walk, v1: Walk, v2: Walk, alive: nat)
    requires Shrinks(turn) && alive >= 2 && w.seen <= MAX_ENTRIES && w.queue != [] && v1.queue != [] && v2.queue == []
    requires turn(w) == Turned(Within(v1)) && turn(v1) == Turned(Within(v2))
    ensures RunFrom(turn, w, alive) == WalkRun(Walked(v2.result), [w.queue[0], v1.queue[0]])
  {
    assert ShrinksAt(turn, w) && ShrinksAt(turn, v1);
    assert RunFrom(turn, v2, alive - 2) == WalkRun(Walked(v2.result), []);
    assert RunFrom(turn, v1, alive - 1) == WalkRun(Walked(v2.result), [v1.queue[0]] + []);
    assert RunFrom(turn, w, alive) == WalkRun(Walked(v2.result), [w.queue[0]] + ([v1.queue[0]] + []));
  }

  /** The directory n can be reached under q, but its parent was listed under p, where n is ignored. */
  lemma DisagreementHides(rules: Rules, p: string, q: string, n: string, alive: nat)
    requires alive >= 2 && Disagree(rules, p, q, n)
    ensures Undisturbed(Shared(p, q, n), rules, "r", alive)
    ensures Reachable(Shared(p, q, n), rules, "r", "x")
    ensures !Mentions(WalkAll(Shared(p, q, n), true, rules, Start("r"), alive).listing, "x")
  {
    SharedReach(rules, p, q, n);
    SharedWalk(rules, p, q, n, alive);
  }

  /**
   For every graph an undisturbed recursive scan lists exactly the directories that some way down of fewer than 64
   levels reaches without an ignored path, if and only if the patterns agree on names.
   */
  lemma ListsExactlyReachable(rules: Rules)
    ensures (forall graph, rootId, alive, id :: ListsExactly(graph, rules, rootId, alive, id)) <==>
            NamesAgree(rules.ignores)
  {
    if NamesAgree(rules.ignores) {
      forall graph, rootId, alive, id ensures ListsExactly(graph, rules, rootId, alive, id) {
        if Undisturbed(graph, rules, rootId, alive) { AgreeingListsExactly(graph, rules, rootId, alive, id); }
      }
    } else {
      var p, q, n :| !AgreeAt(rules.ignores, p, q, n);
      if ShouldIgnore("/" + q, rules.ignores) { IgnoreBelow("/" + q, n, rules.ignores); }
      DisagreementHides(rules, p, q, n, 2);
      assert !ListsExactly(Shared(p, q, n), rules, "r", 2, "x");
    }
  }

  // ---- An instance --------------------------------------------------------------------------

  const SPANNING := Rules({}, {}, ["a/x"])

  lemma SpanningVerdicts()
    ensures !ShouldIgnore("/a", ["a/x"]) && !ShouldIgnore("/b", ["a/x"]) && !ShouldIgnore("/b/x", ["a/x"])
    ensures ShouldIgnore("/a/x", ["a/x"])
  {
    var p := ["a/x"];
    assert TrimSpace("a/x") == "a/x" && Lower("a/x") == "a/x";
    assert Lower("/a") == "/a" && Lower("/b") == "/b" && Lower("/b/x") == "/b/x" && Lower("/a/x") == "/a/x";
    assert OccursAt("/a/x", "a/x", 1);
    assert MatchesPattern(Lower("/a/x"), p, 0);
    NoRecycle("/a");
    NoRecycle("/b");
    NoRecycle("/b/x");
    assert !Contains("/b/x", "a/x") by {
      assert forall i :: 0 <= i <= 1 ==> "/b/x"[i] != 'a';
    }
  }

  lemma SpanningDisagrees()
    ensures Disagree(SPANNING, "a", "b", "x")
  {
    assert "/" + "a" == "/a" && "/" + "b" == "/b";
    assert "/" + "a" + "/" + "x" == "/a/x" && "/" + "b" + "/" + "x" == "/b/x";
    SpanningVerdicts();
  }

  lemma NoRecycle(path: string)
    requires |path| < |RECYCLE|
    ensures RECYCLE !in Split(TrimSlashesRight(TrimSlashesLeft(path)), '/')
  {
    RecycleSegment(path);
    SplitShort(path);
  }

  lemma {:induction false} SplitShort(s: string)
    ensures forall i :: 0 <= i < |Split(s, '/')| ==> |Split(s, '/')[i]| <= |s|
  {
    if s == [] {
    } else {
      SplitShort(s[1..]);
    }
  }

  /** With the pattern a/x, the directory x can be reached as /b/x, but its parent is listed as /a. */
  lemma SpanningPatternHides()
    ensures !NamesAgree(SPANNING.ignores)
    ensures Undisturbed(Shared("a", "b", "x"), SPANNING, "r", 2)
    ensures Reachable(Shared("a", "b", "x"), SPANNING, "r", "x")
    ensures !Mentions(WalkAll(Shared("a", "b", "x"), true, SPANNING, Start("r"), 2).listing, "x")
  {
    SpanningDisagrees();
    DisagreementHides(SPANNING, "a", "b", "x", 2);
    assert !AgreeAt(SPANNING.ignores, "a", "b", "x");
  }
}
