/**
 On a well-formed provider tree the breadth-first scan finds the same files and assets as the bulk
 scan of the flattened tree. The argument is a conservation law: what has been found plus what the
 queued subtrees still hold never changes.
 */
module TreeScan {
  import opened Common
  import opened Text
  import opened Sorting
  import opened Scan
  import opened Paths
  import opened Bfs

  datatype Node = FileNode(item: Item) | DirNode(item: Item, kids: seq<Node>)

  function ItemsOf(kids: seq<Node>): (r: seq<Item>)
    ensures |r| == |kids| && forall i :: 0 <= i < |kids| ==> r[i] == kids[i].item
  {
    seq(|kids|, i requires 0 <= i < |kids| => kids[i].item)
  }

  /** Good, pairwise different sibling names, and kinds that match the nodes. */
  ghost predicate GoodKids(kids: seq<Node>)
    decreases kids
  {
    kids == [] ||
    (&& GoodName(kids[0].item.name)
     && kids[0].item.isDir == kids[0].DirNode?
     && (forall i :: 0 < i < |kids| ==> kids[i].item.name != kids[0].item.name)
     && (kids[0].DirNode? ==> GoodKids(kids[0].kids))
     && GoodKids(kids[1..]))
  }

  /** All directories below a directory of depth d stay under the depth limit. */
  predicate DepthOk(kids: seq<Node>, d: nat)
    decreases kids
  {
    kids == [] ||
    ((kids[0].DirNode? ==> d + 1 < MAX_DEPTH && DepthOk(kids[0].kids, d + 1)) && DepthOk(kids[1..], d))
  }

  function Size(kids: seq<Node>): nat
    decreases kids
  {
    if kids == [] then 0
    else 1 + (if kids[0].DirNode? then Size(kids[0].kids) else 0) + Size(kids[1..])
  }

  function Ids(kids: seq<Node>): set<string>
    decreases kids
  {
    if kids == [] then {}
    else (if kids[0].DirNode? then {kids[0].item.id} + Ids(kids[0].kids) else {}) + Ids(kids[1..])
  }

  /** Directory identities are pairwise different. */
  ghost predicate UniqueIds(kids: seq<Node>)
    decreases kids
  {
    kids == [] ||
    (&& UniqueIds(kids[1..])
     && (kids[0].DirNode? ==>
           && UniqueIds(kids[0].kids) && kids[0].item.id !in Ids(kids[0].kids)
           && kids[0].item.id !in Ids(kids[1..]) && Ids(kids[0].kids) !! Ids(kids[1..])))
  }

  /** The provider lists exactly the children of every directory of the tree. */
  ghost predicate Lists(graph: Graph, kids: seq<Node>)
    decreases kids
  {
    kids == [] ||
    (&& Lists(graph, kids[1..])
     && (kids[0].DirNode? ==>
           kids[0].item.id in graph && graph[kids[0].item.id] == ItemsOf(kids[0].kids) && Lists(graph, kids[0].kids)))
  }

  /** The file entries of a recursive listing, children of `pid` at the path spelled by `names`. */
  function Flatten(pid: string, names: seq<string>, kids: seq<Node>): seq<Entry>
    decreases kids
  {
    if kids == [] then []
    else
      var here := names + [kids[0].item.name];
      (match kids[0]
       case FileNode(item) => [EntryOf(item, pid, Rooted(here))]
       case DirNode(item, sub) => Flatten(item.id, here, sub))
      + Flatten(pid, names, kids[1..])
  }

  function CountIf(f: Entry -> bool, entries: seq<Entry>): nat {
    if entries == [] then 0 else One(f(entries[0])) + CountIf(f, entries[1..])
  }

  lemma {:induction false} CountIfAppend(f: Entry -> bool, a: seq<Entry>, b: seq<Entry>)
    ensures CountIf(f, a + b) == CountIf(f, a) + CountIf(f, b)
  {
    if a == [] {
      assert a + b == b;
    } else {
      CountIfAppend(f, a[1..], b);
      assert (a + b)[1..] == a[1..] + b;
    }
  }

  /** How often x is projected from a list of entries. */
  function Count(rules: Rules, entries: seq<Entry>, x: Projected): nat {
    CountIf(e => Project(rules, e) == x, entries)
  }

  lemma CountAppend(rules: Rules, a: seq<Entry>, b: seq<Entry>, x: Projected)
    ensures Count(rules, a + b, x) == Count(rules, a, x) + Count(rules, b, x)
  {
    CountIfAppend(e => Project(rules, e) == x, a, b);
  }

  // ---- Conservation over the breadth-first walk ---------------------------------------------

  /** The subtree a queued directory stands for. */
  datatype Spot = Spot(names: seq<string>, kids: seq<Node>)

  function Tally(r: Result, x: Projected): nat {
    match x
    case FileItem(f) => multiset(r.files)[f]
    case AssetItem(a) => multiset(r.assets)[a]
    case _ => 0
  }

  function Held(rules: Rules, queue: seq<Dir>, spots: seq<Spot>, x: Projected): nat
    requires |queue| == |spots|
  {
    if queue == [] then 0
    else Held(rules, queue[..|queue| - 1], spots[..|queue| - 1], x)
         + Count(rules, Flatten(queue[|queue| - 1].id, spots[|queue| - 1].names, spots[|queue| - 1].kids), x)
  }

  function Sizes(spots: seq<Spot>): nat {
    if spots == [] then 0 else Sizes(spots[..|spots| - 1]) + Size(spots[|spots| - 1].kids)
  }

  lemma {:induction false} HeldFront(rules: Rules, queue: seq<Dir>, spots: seq<Spot>, x: Projected)
    requires |queue| == |spots| > 0
    ensures Held(rules, queue, spots, x) ==
            Count(rules, Flatten(queue[0].id, spots[0].names, spots[0].kids), x)
            + Held(rules, queue[1..], spots[1..], x)
  {
    var n := |queue| - 1;
    if n > 0 {
      HeldFront(rules, queue[..n], spots[..n], x);
      assert queue[1..][..n - 1] == queue[..n][1..] && spots[1..][..n - 1] == spots[..n][1..];
    } else {
      assert queue[..0] == [] && queue[1..] == [];
    }
  }

  lemma {:induction false} SizesFront(spots: seq<Spot>)
    requires spots != []
    ensures Sizes(spots) == Size(spots[0].kids) + Sizes(spots[1..])
  {
    var n := |spots| - 1;
    if n == 0 {
    } else {
      SizesFront(spots[..n]);
      assert spots[1..][..n - 1] == spots[..n][1..];
    }
  }

  /** A directory handle that denotes a well-formed, listed, shallow enough subtree. */
  ghost predicate Sound(graph: Graph, dir: Dir, spot: Spot) {
    && GoodNames(spot.names) && dir.path == Rooted(spot.names)
    && GoodKids(spot.kids) && DepthOk(spot.kids, dir.depth) && UniqueIds(spot.kids)
    && dir.id in graph && graph[dir.id] == ItemsOf(spot.kids) && Lists(graph, spot.kids)
  }

  ghost predicate SoundQueue(graph: Graph, queue: seq<Dir>, spots: seq<Spot>) {
    |queue| == |spots| && forall i :: 0 <= i < |queue| ==> Sound(graph, queue[i], spots[i])
  }

  /** The directories below the queued ones are new to the walk and to each other. */
  ghost predicate Fresh(visited: set<string>, spots: seq<Spot>) {
    && (forall i :: 0 <= i < |spots| ==> Ids(spots[i].kids) !! visited)
    && (forall i, j :: 0 <= i < j < |spots| ==> Ids(spots[i].kids) !! Ids(spots[j].kids))
  }

  /** Every file below an ignored directory is ignored. */
  lemma {:induction false} IgnoredHoldsNothing(rules: Rules, pid: string, names: seq<string>, kids: seq<Node>,
                                               x: Projected)
    requires GoodNames(names) && GoodKids(kids) && x.Keyed()
    requires ShouldIgnore(Rooted(names), rules.ignores)
    ensures Count(rules, Flatten(pid, names, kids), x) == 0
    decreases kids
  {
    if kids == [] {
    } else {
      var here := names + [kids[0].item.name];
      RootedNext(names, kids[0].item.name);
      IgnoreBelow(Rooted(names), kids[0].item.name, rules.ignores);
      IgnoredHoldsNothing(rules, pid, names, kids[1..], x);
      match kids[0]
      case FileNode(item) =>
        var e := EntryOf(item, pid, Rooted(here));
        ProjectGood(rules, e, here);
        CountAppend(rules, [e], Flatten(pid, names, kids[1..]), x);
      case DirNode(item, sub) =>
        IgnoredHoldsNothing(rules, item.id, here, sub, x);
        CountAppend(rules, Flatten(item.id, here, sub), Flatten(pid, names, kids[1..]), x);
    }
  }

  ghost predicate FreshBeside(visited: set<string>, spots: seq<Spot>, ids: set<string>) {
    && Fresh(visited, spots)
    && ids !! visited
    && forall i :: 0 <= i < |spots| ==> Ids(spots[i].kids) !! ids
  }

  /** The kids still to visit of the directory being scanned. */
  ghost predicate Remaining(graph: Graph, current: Dir, names: seq<string>, rest: seq<Node>) {
    && GoodNames(names) && current.path == Rooted(names)
    && GoodKids(rest) && DepthOk(rest, current.depth) && UniqueIds(rest) && Lists(graph, rest)
  }

  lemma AddTally(r: Result, found: Projected, x: Projected)
    requires x.Keyed()
    ensures Add(r, found).partial == r.partial && Tally(Add(r, found), x) == Tally(r, x) + One(found == x)
  {
  }

  lemma VisitAdds(rules: Rules, current: Dir, item: Item, w: Walk)
    requires !item.isDir
    ensures var path := current.path + "/" + item.name;
            Visit(true, rules, current, item, w) ==
            w.(seen := w.seen + 1,
               result := Add(w.result, if ShouldIgnore(path, rules.ignores) then Skipped
                                       else Classify(rules, EntryOf(item, current.id, path), path)))
  {
  }

  lemma VisitFile(rules: Rules, current: Dir, names: seq<string>, item: Item, w: Walk, x: Projected)
    requires GoodNames(names) && current.path == Rooted(names) && GoodName(item.name) && !item.isDir && x.Keyed()
    ensures var v := Visit(true, rules, current, item, w);
            var e := EntryOf(item, current.id, Rooted(names + [item.name]));
            && v == w.(seen := w.seen + 1, result := v.result)
            && v.result.partial == w.result.partial
            && Tally(v.result, x) == Tally(w.result, x) + One(Project(rules, e) == x)
  {
    var here := names + [item.name];
    RootedNext(names, item.name);
    var e := EntryOf(item, current.id, Rooted(here));
    ProjectGood(rules, e, here);
    VisitAdds(rules, current, item, w);
    AddTally(w.result, Project(rules, e), x);
  }

  lemma EnqueueFresh(visited: set<string>, spots: seq<Spot>, rest: seq<Node>, spot: Spot)
    requires rest != [] && rest[0].DirNode? && spot.kids == rest[0].kids && UniqueIds(rest)
    requires FreshBeside(visited, spots, Ids(rest))
    ensures FreshBeside(visited + {rest[0].item.id}, spots + [spot], Ids(rest[1..]))
  {
    assert Ids(rest) == {rest[0].item.id} + Ids(spot.kids) + Ids(rest[1..]);
  }

  lemma EnqueueHeld(rules: Rules, queue: seq<Dir>, spots: seq<Spot>, dir: Dir, spot: Spot, x: Projected)
    requires |queue| == |spots|
    ensures Held(rules, queue + [dir], spots + [spot], x) ==
            Held(rules, queue, spots, x) + Count(rules, Flatten(dir.id, spot.names, spot.kids), x)
    ensures Sizes(spots + [spot]) == Sizes(spots) + Size(spot.kids)
  {
    assert (queue + [dir])[..|queue|] == queue && (spots + [spot])[..|spots|] == spots;
  }

  /** Between two visits: the walk, the subtrees of its queue, and the subtrees beside it that are still unseen. */
  ghost predicate Between(graph: Graph, w: Walk, spots: seq<Spot>, ids: set<string>) {
    !w.result.partial && SoundQueue(graph, w.queue, spots) && FreshBeside(w.visited, spots, ids)
  }

  function Balance(rules: Rules, w: Walk, spots: seq<Spot>, x: Projected): nat
    requires |w.queue| == |spots|
  {
    Tally(w.result, x) + Held(rules, w.queue, spots, x)
  }

  lemma VisitIgnoredDir(graph: Graph, rules: Rules, current: Dir, names: seq<string>, rest: seq<Node>, w: Walk,
                        spots: seq<Spot>, x: Projected)
    requires rest != [] && rest[0].DirNode? && x.Keyed()
    requires Remaining(graph, current, names, rest) && Between(graph, w, spots, Ids(rest))
    requires ShouldIgnore(Rooted(names + [rest[0].item.name]), rules.ignores)
    ensures var sub := Flatten(rest[0].item.id, names + [rest[0].item.name], rest[0].kids);
            && Visit(true, rules, current, rest[0].item, w) == w.(seen := w.seen + 1)
            && Between(graph, w.(seen := w.seen + 1), spots, Ids(rest[1..]))
            && Count(rules, sub, x) == 0
  {
    RootedNext(names, rest[0].item.name);
    IgnoredHoldsNothing(rules, rest[0].item.id, names + [rest[0].item.name], rest[0].kids, x);
    assert Ids(rest[1..]) <= Ids(rest);
  }

  lemma VisitNewDir(rules: Rules, current: Dir, names: seq<string>, item: Item, w: Walk) returns (dir: Dir, v: Walk)
    requires current.path == Rooted(names) && item.isDir && item.id !in w.visited && current.depth + 1 < MAX_DEPTH
    requires !ShouldIgnore(Rooted(names + [item.name]), rules.ignores)
    ensures dir == Dir(item.id, Rooted(names + [item.name]), current.depth + 1)
    ensures v == Visit(true, rules, current, item, w)
    ensures v == w.(seen := w.seen + 1, visited := w.visited + {item.id}, queue := w.queue + [dir], result := v.result)
    ensures v.result == w.result.(directories := v.result.directories)
  {
    RootedNext(names, item.name);
    dir := Dir(item.id, Rooted(names + [item.name]), current.depth + 1);
    v := Visit(true, rules, current, item, w);
  }

  lemma KidSound(graph: Graph, current: Dir, names: seq<string>, rest: seq<Node>)
    requires rest != [] && rest[0].DirNode? && Remaining(graph, current, names, rest)
    ensures Sound(graph, Dir(rest[0].item.id, Rooted(names + [rest[0].item.name]), current.depth + 1),
                  Spot(names + [rest[0].item.name], rest[0].kids))
    ensures current.depth + 1 < MAX_DEPTH && rest[0].item.isDir
  {
  }

  lemma EnqueueSound(graph: Graph, queue: seq<Dir>, spots: seq<Spot>, dir: Dir, spot: Spot)
    requires SoundQueue(graph, queue, spots) && Sound(graph, dir, spot)
    ensures SoundQueue(graph, queue + [dir], spots + [spot])
  {
  }

  lemma VisitQueuedDir(graph: Graph, rules: Rules, current: Dir, names: seq<string>, rest: seq<Node>, w: Walk,
                       spots: seq<Spot>, x: Projected)
    requires rest != [] && rest[0].DirNode? && x.Keyed()
    requires Remaining(graph, current, names, rest) && Between(graph, w, spots, Ids(rest))
    requires !ShouldIgnore(Rooted(names + [rest[0].item.name]), rules.ignores)
    ensures var v := Visit(true, rules, current, rest[0].item, w);
            var spot := Spot(names + [rest[0].item.name], rest[0].kids);
            && v.seen == w.seen + 1
            && Between(graph, v, spots + [spot], Ids(rest[1..]))
            && Balance(rules, v, spots + [spot], x) ==
               Balance(rules, w, spots, x) + Count(rules, Flatten(rest[0].item.id, spot.names, spot.kids), x)
  {
    var spot := Spot(names + [rest[0].item.name], rest[0].kids);
    assert rest[0].item.id in Ids(rest);
    KidSound(graph, current, names, rest);
    var dir, v := VisitNewDir(rules, current, names, rest[0].item, w);
    EnqueueFresh(w.visited, spots, rest, spot);
    EnqueueHeld(rules, w.queue, spots, dir, spot, x);
    EnqueueSound(graph, w.queue, spots, dir, spot);
    assert Tally(v.result, x) == Tally(w.result, x);
  }

  /** Visiting one kid queues its subtree, drops an ignored one, or finds its file: the balance shows which. */
  lemma VisitKid(graph: Graph, rules: Rules, current: Dir, names: seq<string>, rest: seq<Node>, w: Walk,
                 spots: seq<Spot>, x: Projected) returns (after: seq<Spot>)
    requires rest != [] && x.Keyed()
    requires Remaining(graph, current, names, rest) && Between(graph, w, spots, Ids(rest))
    ensures var v := Visit(true, rules, current, rest[0].item, w);
            && v.seen == w.seen + 1
            && Between(graph, v, after, Ids(rest[1..]))
            && Sizes(after) + Size(rest[1..]) < Sizes(spots) + Size(rest)
            && Balance(rules, v, after, x) + Count(rules, Flatten(current.id, names, rest[1..]), x) ==
               Balance(rules, w, spots, x) + Count(rules, Flatten(current.id, names, rest), x)
  {
    var here, tail := names + [rest[0].item.name], Flatten(current.id, names, rest[1..]);
    after := spots;
    match rest[0]
    case FileNode(item) =>
      VisitFile(rules, current, names, item, w, x);
      CountAppend(rules, [EntryOf(item, current.id, Rooted(here))], tail, x);
    case DirNode(item, sub) =>
      CountAppend(rules, Flatten(item.id, here, sub), tail, x);
      if ShouldIgnore(Rooted(here), rules.ignores) {
        VisitIgnoredDir(graph, rules, current, names, rest, w, spots, x);
      } else {
        VisitQueuedDir(graph, rules, current, names, rest, w, spots, x);
        after := spots + [Spot(here, sub)];
        EnqueueHeld(rules, w.queue, spots, Dir(item.id, Rooted(here), 0), Spot(here, sub), x);
      }
  }

  lemma VisitAllStep(rules: Rules, current: Dir, rest: seq<Node>, w: Walk)
    requires rest != [] && w.seen < MAX_ENTRIES
    ensures VisitAll(true, rules, current, ItemsOf(rest), w) ==
            VisitAll(true, rules, current, ItemsOf(rest[1..]), Visit(true, rules, current, rest[0].item, w))
  {
    assert ItemsOf(rest)[1..] == ItemsOf(rest[1..]);
  }

  lemma {:induction false} VisitKids(graph: Graph, rules: Rules, current: Dir, names: seq<string>, rest: seq<Node>,
                                     w: Walk, spots: seq<Spot>, x: Projected)
    returns (after: seq<Spot>)
    requires x.Keyed() && Remaining(graph, current, names, rest) && Between(graph, w, spots, Ids(rest))
    requires w.seen + Size(rest) + Sizes(spots) <= MAX_ENTRIES
    ensures var v := VisitAll(true, rules, current, ItemsOf(rest), w);
            && v.Within? && Between(graph, v.walk, after, {})
            && v.walk.seen + Sizes(after) <= w.seen + Size(rest) + Sizes(spots)
            && Balance(rules, v.walk, after, x) ==
               Balance(rules, w, spots, x) + Count(rules, Flatten(current.id, names, rest), x)
    decreases rest
  {
    if rest == [] {
      return spots;
    }
    var between := VisitKid(graph, rules, current, names, rest, w, spots, x);
    VisitAllStep(rules, current, rest, w);
    var next := Visit(true, rules, current, rest[0].item, w);
    after := VisitKids(graph, rules, current, names, rest[1..], next, between, x);
  }

  lemma PopBetween(graph: Graph, rules: Rules, w: Walk, spots: seq<Spot>, x: Projected)
    requires w.queue != [] && Between(graph, w, spots, {})
    ensures var popped := w.(queue := w.queue[1..]);
            && Between(graph, popped, spots[1..], Ids(spots[0].kids))
            && Remaining(graph, w.queue[0], spots[0].names, spots[0].kids)
            && w.queue[0].id in graph && graph[w.queue[0].id] == ItemsOf(spots[0].kids)
            && Sizes(spots) == Size(spots[0].kids) + Sizes(spots[1..])
            && Balance(rules, w, spots, x) ==
               Balance(rules, popped, spots[1..], x)
               + Count(rules, Flatten(w.queue[0].id, spots[0].names, spots[0].kids), x)
  {
    HeldFront(rules, w.queue, spots, x);
    SizesFront(spots);
    assert Sound(graph, w.queue[0], spots[0]);
  }

  /** What has been found and what the queued subtrees hold of x make up the total, within the entry limit. */
  ghost predicate Account(graph: Graph, rules: Rules, w: Walk, spots: seq<Spot>, x: Projected, total: nat) {
    && x.Keyed() && Between(graph, w, spots, {}) && w.seen + Sizes(spots) <= MAX_ENTRIES
    && Balance(rules, w, spots, x) == total
  }

  /** How many more turns the walk can take at most. */
  function Ahead(w: Walk, spots: seq<Spot>): nat { |w.queue| + Sizes(spots) }

  /** One turn of the queue loop keeps the account. */
  lemma AccountStep(graph: Graph, rules: Rules, w: Walk, spots: seq<Spot>, x: Projected, total: nat)
    returns (v: Walk, after: seq<Spot>)
    requires Account(graph, rules, w, spots, x, total) && w.queue != []
    ensures TurnOf(graph, true, rules, w) == Turned(Within(v))
    ensures Account(graph, rules, v, after, x, total) && Ahead(v, after) < Ahead(w, spots)
  {
    var current, popped := w.queue[0], w.(queue := w.queue[1..]);
    PopBetween(graph, rules, w, spots, x);
    after := VisitKids(graph, rules, current, spots[0].names, spots[0].kids, popped, spots[1..], x);
    v := VisitAll(true, rules, current, graph[current.id], popped).walk;
  }

  lemma AccountSettled(graph: Graph, rules: Rules, w: Walk, spots: seq<Spot>, x: Projected, total: nat)
    requires Account(graph, rules, w, spots, x, total) && w.queue == []
    ensures !w.result.partial && Tally(w.result, x) == total
  {
  }

  /** A property of states that every turn passes on, with one turn less to go. */
  ghost predicate PassedOnAt(turn: Walk -> Turn, holds: (Walk, nat) -> bool, w: Walk, n: nat) {
    holds(w, n) && w.queue != [] ==> n > 0 && Continues(turn, w) && holds(Next(turn, w), n - 1)
  }

  ghost predicate PassedOn(turn: Walk -> Turn, holds: (Walk, nat) -> bool) {
    forall w, n :: PassedOnAt(turn, holds, w, n)
  }

  /** Then the walk ends by itself, in a state with that property. */
  lemma {:induction false} RunHolds(turn: Walk -> Turn, holds: (Walk, nat) -> bool, w: Walk, alive: nat)
    returns (last: Walk, n: nat)
    requires Shrinks(turn) && PassedOn(turn, holds) && w.seen <= MAX_ENTRIES && holds(w, alive)
    ensures RunFrom(turn, w, alive).end == Walked(last.result) && last.queue == [] && holds(last, n)
    decreases alive
  {
    if w.queue == [] {
      return w, alive;
    } else {
      assert PassedOnAt(turn, holds, w, alive) && ShrinksAt(turn, w);
      last, n := RunHolds(turn, holds, Next(turn, w), alive - 1);
    }
  }

  ghost predicate HasAccount(graph: Graph, rules: Rules, w: Walk, x: Projected, total: nat, n: nat) {
    exists spots :: Account(graph, rules, w, spots, x, total) && Ahead(w, spots) <= n
  }

  lemma AccountPassedOn(graph: Graph, rules: Rules, x: Projected, total: nat, w: Walk, n: nat)
    requires HasAccount(graph, rules, w, x, total, n) && w.queue != []
    ensures n > 0 && TurnOf(graph, true, rules, w).Turned? && TurnOf(graph, true, rules, w).visited.Within?
    ensures HasAccount(graph, rules, TurnOf(graph, true, rules, w).visited.walk, x, total, n - 1)
  {
    var spots :| Account(graph, rules, w, spots, x, total) && Ahead(w, spots) <= n;
    var v, after := AccountStep(graph, rules, w, spots, x, total);
  }

  ghost function Accounts(graph: Graph, rules: Rules, x: Projected, total: nat): (Walk, nat) -> bool {
    (w: Walk, n: nat) => HasAccount(graph, rules, w, x, total, n)
  }

  lemma AccountsPassedOn(graph: Graph, rules: Rules, x: Projected, total: nat)
    ensures PassedOn(Turns(graph, true, rules), Accounts(graph, rules, x, total))
  {
    var turn, holds := Turns(graph, true, rules), Accounts(graph, rules, x, total);
    forall w: Walk, n: nat ensures PassedOnAt(turn, holds, w, n) {
      if HasAccount(graph, rules, w, x, total, n) && w.queue != [] { AccountPassedOn(graph, rules, x, total, w, n); }
    }
  }

  lemma HasAccountSettled(graph: Graph, rules: Rules, w: Walk, x: Projected, total: nat, n: nat)
    requires HasAccount(graph, rules, w, x, total, n) && w.queue == []
    ensures !w.result.partial && Tally(w.result, x) == total
  {
    var spots :| Account(graph, rules, w, spots, x, total) && Ahead(w, spots) <= n;
    AccountSettled(graph, rules, w, spots, x, total);
  }

  /** What the walk finds, counted item by item, is what the queued subtrees hold. */
  lemma WalkTree(graph: Graph, rules: Rules, w: Walk, alive: nat, x: Projected, total: nat)
    requires w.seen <= MAX_ENTRIES && HasAccount(graph, rules, w, x, total, alive)
    ensures var end := WalkAll(graph, true, rules, w, alive).end;
            end.Walked? && !end.result.partial && Tally(end.result, x) == total
  {
    AccountsPassedOn(graph, rules, x, total);
    var last, n := RunHolds(Turns(graph, true, rules), Accounts(graph, rules, x, total), w, alive);
    HasAccountSettled(graph, rules, last, x, total, n);
  }

  // ---- The flattened tree has distinct paths ------------------------------------------------

  /** The segment lists of the flattened entries, in the same order. */
  ghost function Spellings(names: seq<string>, kids: seq<Node>): seq<seq<string>>
    decreases kids
  {
    if kids == [] then []
    else
      var here := names + [kids[0].item.name];
      (if kids[0].DirNode? then Spellings(here, kids[0].kids) else [here]) + Spellings(names, kids[1..])
  }

  ghost predicate Under(names: seq<string>, kids: seq<Node>, spelling: seq<string>) {
    && |spelling| > |names| && spelling[..|names|] == names && GoodNames(spelling)
    && exists i :: 0 <= i < |kids| && kids[i].item.name == spelling[|names|]
  }

  lemma UnderTail(names: seq<string>, kids: seq<Node>, spelling: seq<string>)
    requires kids != [] && Under(names, kids[1..], spelling)
    ensures Under(names, kids, spelling)
  {
    var i :| 0 <= i < |kids[1..]| && kids[1..][i].item.name == spelling[|names|];
    assert kids[i + 1].item.name == spelling[|names|];
  }

  lemma UnderHead(names: seq<string>, kids: seq<Node>, spelling: seq<string>)
    requires kids != [] && kids[0].DirNode? && Under(names + [kids[0].item.name], kids[0].kids, spelling)
    ensures Under(names, kids, spelling)
  {
    var here := names + [kids[0].item.name];
    assert spelling[..|here|] == here;
    assert spelling[..|names|] == here[..|names|] == names && spelling[|names|] == here[|names|];
  }

  lemma {:induction false} SpellingsUnder(names: seq<string>, kids: seq<Node>, k: nat)
    requires GoodNames(names) && GoodKids(kids) && k < |Spellings(names, kids)|
    ensures Under(names, kids, Spellings(names, kids)[k])
    decreases kids
  {
    var here := names + [kids[0].item.name];
    var first := FirstSpellings(names, kids);
    if k >= |first| {
      SpellingsUnder(names, kids[1..], k - |first|);
      UnderTail(names, kids, Spellings(names, kids)[k]);
    } else if kids[0].DirNode? {
      SpellingsUnder(here, kids[0].kids, k);
      UnderHead(names, kids, Spellings(names, kids)[k]);
    }
  }

  lemma {:induction false} FlattenLength(pid: string, names: seq<string>, kids: seq<Node>)
    ensures |Spellings(names, kids)| == |Flatten(pid, names, kids)|
    decreases kids
  {
    if kids == [] {
    } else {
      FlattenLength(pid, names, kids[1..]);
      if kids[0].DirNode? { FlattenLength(kids[0].item.id, names + [kids[0].item.name], kids[0].kids); }
    }
  }

  lemma {:induction false} FlattenSpelled(pid: string, names: seq<string>, kids: seq<Node>, k: nat)
    requires GoodKids(kids) && k < |Spellings(names, kids)|
    ensures |Spellings(names, kids)| == |Flatten(pid, names, kids)|
    ensures var e := Flatten(pid, names, kids)[k]; e.relativePath == Rooted(Spellings(names, kids)[k]) && !e.isDir
    decreases kids
  {
    var here, first := names + [kids[0].item.name], FirstSpellings(names, kids);
    FlattenLength(pid, names, kids[1..]);
    if kids[0].DirNode? { FlattenLength(kids[0].item.id, here, kids[0].kids); }
    if k >= |first| {
      FlattenSpelled(pid, names, kids[1..], k - |first|);
    } else if kids[0].DirNode? {
      FlattenSpelled(kids[0].item.id, here, kids[0].kids, k);
    }
  }

  lemma DistinctConcat<T>(a: seq<T>, b: seq<T>)
    requires Distinct(a) && Distinct(b)
    requires forall i, j :: 0 <= i < |a| && 0 <= j < |b| ==> a[i] != b[j]
    ensures Distinct(a + b)
  {
  }

  lemma UnderApart(names: seq<string>, kids: seq<Node>, x: seq<string>, y: seq<string>)
    requires kids != [] && GoodKids(kids)
    requires |x| > |names| && x[|names|] == kids[0].item.name && Under(names, kids[1..], y)
    ensures x != y
  {
    var k :| 0 <= k < |kids[1..]| && kids[1..][k].item.name == y[|names|];
    assert kids[k + 1].item.name != kids[0].item.name;
  }

  ghost function FirstSpellings(names: seq<string>, kids: seq<Node>): seq<seq<string>>
    requires kids != []
  {
    var here := names + [kids[0].item.name];
    if kids[0].DirNode? then Spellings(here, kids[0].kids) else [here]
  }

  lemma FirstNamed(names: seq<string>, kids: seq<Node>, i: nat)
    requires GoodNames(names) && kids != [] && GoodKids(kids) && i < |FirstSpellings(names, kids)|
    ensures var x := FirstSpellings(names, kids)[i]; |x| > |names| && x[|names|] == kids[0].item.name
  {
    var here, x := names + [kids[0].item.name], FirstSpellings(names, kids)[i];
    if kids[0].DirNode? {
      SpellingsUnder(here, kids[0].kids, i);
      assert x[..|here|] == here;
      assert x[|names|] == here[|names|];
    }
  }

  lemma {:induction false} SpellingsDistinct(names: seq<string>, kids: seq<Node>)
    requires GoodNames(names) && GoodKids(kids)
    ensures Distinct(Spellings(names, kids))
    decreases kids
  {
    if kids == [] {
    } else {
      var first, rest := FirstSpellings(names, kids), Spellings(names, kids[1..]);
      SpellingsDistinct(names, kids[1..]);
      if kids[0].DirNode? { SpellingsDistinct(names + [kids[0].item.name], kids[0].kids); }
      forall i, j | 0 <= i < |first| && 0 <= j < |rest| ensures first[i] != rest[j] {
        FirstNamed(names, kids, i);
        SpellingsUnder(names, kids[1..], j);
        UnderApart(names, kids, first[i], rest[j]);
      }
      DistinctConcat(first, rest);
    }
  }

  ghost predicate DistinctPaths(entries: seq<Entry>) {
    forall i, j :: 0 <= i < j < |entries| ==> entries[i].relativePath != entries[j].relativePath
  }

  lemma FlattenDistinct(pid: string, kids: seq<Node>)
    requires GoodKids(kids)
    ensures DistinctPaths(Flatten(pid, [], kids))
    ensures forall i :: 0 <= i < |Flatten(pid, [], kids)| ==> !Flatten(pid, [], kids)[i].isDir
  {
    SpellingsDistinct([], kids);
    FlattenLength(pid, [], kids);
    var entries, all := Flatten(pid, [], kids), Spellings([], kids);
    forall i | 0 <= i < |entries| ensures entries[i].relativePath == Rooted(all[i]) && !entries[i].isDir {
      FlattenSpelled(pid, [], kids, i);
    }
    forall i, j | 0 <= i < j < |entries| ensures entries[i].relativePath != entries[j].relativePath {
      SpellingsUnder([], kids, i);
      SpellingsUnder([], kids, j);
      if entries[i].relativePath == entries[j].relativePath { RootedInjective(all[i], all[j]); }
    }
  }

  // ---- Counting does not depend on the order ------------------------------------------------

  lemma {:induction false} CountIfPermutes(f: Entry -> bool, a: seq<Entry>, b: seq<Entry>)
    requires multiset(a) == multiset(b)
    ensures CountIf(f, a) == CountIf(f, b)
    decreases |a|
  {
    SameMembers(a, b);
    if a == [] {
    } else {
      assert a[0] in b;
      var k :| 0 <= k < |b| && b[k] == a[0];
      Without(a, b, k);
      CountIfPermutes(f, a[1..], b[..k] + b[k + 1..]);
      CountIfAppend(f, b[..k], b[k + 1..]);
      CountIfAppend(f, b[..k], [b[k]] + b[k + 1..]);
      assert b == b[..k] + ([b[k]] + b[k + 1..]);
      assert ([b[k]] + b[k + 1..])[1..] == b[k + 1..];
    }
  }

  lemma Without(a: seq<Entry>, b: seq<Entry>, k: nat)
    requires a != [] && k < |b| && b[k] == a[0] && multiset(a) == multiset(b)
    ensures multiset(a[1..]) == multiset(b[..k] + b[k + 1..])
  {
    var c := [b[k]] + (b[..k] + b[k + 1..]);
    assert multiset(b) == multiset(c) by { assert b == b[..k] + [b[k]] + b[k + 1..]; }
    TailMembers(a, c);
    assert c[1..] == b[..k] + b[k + 1..];
  }

  lemma {:induction false} AtMostOne(f: Entry -> bool, s: seq<Entry>)
    ensures CountIf(f, s) <= 1 <==> forall i, j :: 0 <= i < j < |s| ==> !(f(s[i]) && f(s[j]))
  {
    if s == [] {
    } else {
      AtMostOne(f, s[1..]);
      NoneFrom(f, s[1..]);
      if forall i, j :: 0 <= i < j < |s| ==> !(f(s[i]) && f(s[j])) {
        forall i, j | 0 <= i < j < |s[1..]| ensures !(f(s[1..][i]) && f(s[1..][j])) {
          assert !(f(s[i + 1]) && f(s[j + 1]));
        }
        if f(s[0]) {
          forall j | 0 <= j < |s[1..]| ensures !f(s[1..][j]) { assert !(f(s[0]) && f(s[j + 1])); }
        }
      } else {
        var i, j :| 0 <= i < j < |s| && f(s[i]) && f(s[j]);
        assert s[1..][j - 1] == s[j];
        if i > 0 { assert s[1..][i - 1] == s[i]; }
      }
    }
  }

  lemma {:induction false} NoneFrom(f: Entry -> bool, s: seq<Entry>)
    ensures CountIf(f, s) == 0 <==> forall i :: 0 <= i < |s| ==> !f(s[i])
  {
    if s == [] {
    } else {
      NoneFrom(f, s[1..]);
      assert forall i :: 0 < i < |s| ==> s[i] == s[1..][i - 1];
    }
  }

  /** No two entries share a path or a non-empty identity. */
  ghost predicate Apart(entries: seq<Entry>) {
    forall i, j :: 0 <= i < j < |entries| ==>
      entries[i].relativePath != entries[j].relativePath && (entries[i].id != entries[j].id || entries[i].id == "")
  }

  lemma ApartPermutes(a: seq<Entry>, b: seq<Entry>)
    requires multiset(a) == multiset(b) && Apart(a)
    ensures Apart(b)
  {
    forall i, j | 0 <= i < j < |b|
      ensures b[i].relativePath != b[j].relativePath && (b[i].id != b[j].id || b[i].id == "")
    {
      var path, id := (e: Entry) => e.relativePath == b[i].relativePath, (e: Entry) => e.id != "" && e.id == b[i].id;
      CountIfPermutes(path, a, b);
      CountIfPermutes(id, a, b);
      AtMostOne(path, a);
      AtMostOne(path, b);
      AtMostOne(id, a);
      AtMostOne(id, b);
      assert !(path(b[i]) && path(b[j])) && !(id(b[i]) && id(b[j]));
    }
  }

  // ---- The bulk side ------------------------------------------------------------------------

  function FilesOnly(entries: seq<Entry>): seq<Entry> {
    if entries == [] then []
    else FilesOnly(entries[..|entries| - 1]) + if entries[|entries| - 1].isDir then [] else [entries[|entries| - 1]]
  }

  lemma ItemsPrefix(rules: Rules, entries: seq<Entry>)
    requires entries != []
    ensures var n := |entries| - 1;
            && Items(rules, entries)[..n] == Items(rules, entries[..n])
            && Fold(Items(rules, entries)) ==
               Consume(Fold(Items(rules, entries[..n])), Project(rules, entries[n]))
  {
    assert Items(rules, entries)[..|entries| - 1] == Items(rules, entries[..|entries| - 1]);
  }

  /** Directory entries of a recursive listing leave the fold alone. */
  lemma {:induction false} FoldSkipsDirectories(rules: Rules, entries: seq<Entry>)
    ensures Fold(Items(rules, entries)) == Fold(Items(rules, FilesOnly(entries)))
  {
    if entries == [] {
    } else {
      var n := |entries| - 1;
      FoldSkipsDirectories(rules, entries[..n]);
      ItemsPrefix(rules, entries);
      if !entries[n].isDir {
        assert FilesOnly(entries)[..|FilesOnly(entries)| - 1] == FilesOnly(entries[..n]);
        ItemsPrefix(rules, FilesOnly(entries));
      } else {
        assert FilesOnly(entries) == FilesOnly(entries[..n]);
      }
    }
  }

  /** A projected entry keeps the key of the entry. */
  predicate KeepsKey(rules: Rules, e: Entry) {
    var p := Project(rules, e);
    !p.Failed? && (p.Keyed() ==> p.Path() == e.relativePath && p.Provider() == e.id)
  }

  function AccTally(acc: Acc, x: Projected): nat {
    match x
    case FileItem(f) => multiset(acc.files)[f]
    case AssetItem(a) => multiset(acc.assets)[a]
    case _ => 0
  }

  /** Entries that are apart are all admitted: the fold's seen sets only hold earlier keys. */
  ghost predicate SeenOnly(acc: Acc, entries: seq<Entry>) {
    && (forall p :: p in acc.seenPaths ==> exists i :: 0 <= i < |entries| && entries[i].relativePath == p)
    && (forall p :: p in acc.seenProviders ==> exists i :: 0 <= i < |entries| && entries[i].id == p)
  }

  lemma AdmitsApart(rules: Rules, entries: seq<Entry>, acc: Acc)
    requires entries != [] && Apart(entries) && KeepsKey(rules, entries[|entries| - 1])
    requires SeenOnly(acc, entries[..|entries| - 1])
    ensures var p := Project(rules, entries[|entries| - 1]);
            (p.Keyed() ==> Admits(acc, p)) && SeenOnly(Consume(acc, p), entries)
  {
    var n := |entries| - 1;
    var last, p := entries[n], Project(rules, entries[n]);
    forall q | q in acc.seenPaths
      ensures q != last.relativePath && exists i :: 0 <= i < |entries| && entries[i].relativePath == q
    {
      var i :| 0 <= i < n && entries[..n][i].relativePath == q;
      assert entries[i].relativePath == q;
    }
    forall q | q in acc.seenProviders
      ensures (q != last.id || q == "") && exists i :: 0 <= i < |entries| && entries[i].id == q
    {
      var i :| 0 <= i < n && entries[..n][i].id == q;
      assert entries[i].id == q;
    }
  }

  lemma ConsumeTally(acc: Acc, p: Projected, x: Projected)
    requires x.Keyed() && (p.Keyed() ==> Admits(acc, p))
    ensures AccTally(Consume(acc, p), x) == AccTally(acc, x) + One(p == x)
  {
  }

  lemma CountOne(rules: Rules, e: Entry, x: Projected)
    ensures Count(rules, [e], x) == One(Project(rules, e) == x)
  {
    var f := (e: Entry) => Project(rules, e) == x;
    assert [e][1..] == [] && CountIf(f, []) == 0;
    assert CountIf(f, [e]) == One(f(e)) + CountIf(f, [e][1..]);
  }

  lemma {:induction false} FoldTally(rules: Rules, entries: seq<Entry>, x: Projected)
    requires Apart(entries) && x.Keyed()
    requires forall i :: 0 <= i < |entries| ==> KeepsKey(rules, entries[i])
    ensures var acc := Fold(Items(rules, entries));
            && AccTally(acc, x) == Count(rules, entries, x)
            && acc.Accepted() <= |entries| && !acc.failed && SeenOnly(acc, entries)
  {
    if entries == [] {
    } else {
      var n := |entries| - 1;
      FoldTally(rules, entries[..n], x);
      ItemsPrefix(rules, entries);
      AdmitsApart(rules, entries, Fold(Items(rules, entries[..n])));
      ConsumeTally(Fold(Items(rules, entries[..n])), Project(rules, entries[n]), x);
      CountAppend(rules, entries[..n], [entries[n]], x);
      CountOne(rules, entries[n], x);
      assert entries == entries[..n] + [entries[n]];
    }
  }

  // ---- The two scans agree ------------------------------------------------------------------

  lemma {:induction false} FlattenFits(pid: string, names: seq<string>, kids: seq<Node>)
    ensures |Flatten(pid, names, kids)| <= Size(kids)
    decreases kids
  {
    if kids == [] {
    } else {
      FlattenFits(pid, names, kids[1..]);
      if kids[0].DirNode? { FlattenFits(kids[0].item.id, names + [kids[0].item.name], kids[0].kids); }
    }
  }

  lemma FlattenKeepsKeys(rules: Rules, pid: string, kids: seq<Node>, e: Entry)
    requires GoodKids(kids) && e in Flatten(pid, [], kids)
    ensures KeepsKey(rules, e)
  {
    var k :| 0 <= k < |Flatten(pid, [], kids)| && Flatten(pid, [], kids)[k] == e;
    FlattenLength(pid, [], kids);
    FlattenSpelled(pid, [], kids, k);
    SpellingsUnder([], kids, k);
    ProjectGood(rules, e, Spellings([], kids)[k]);
  }

  /** A provider tree the two scans can be compared on. */
  ghost predicate GoodTree(graph: Graph, rootId: string, kids: seq<Node>) {
    && TrimSpace(rootId) != ""
    && GoodKids(kids) && DepthOk(kids, 0) && Size(kids) <= MAX_ENTRIES
    && UniqueIds(kids) && rootId !in Ids(kids)
    && rootId in graph && graph[rootId] == ItemsOf(kids) && Lists(graph, kids)
    && forall i, j :: 0 <= i < j < |Flatten(rootId, [], kids)| ==>
         Flatten(rootId, [], kids)[i].id != Flatten(rootId, [], kids)[j].id || Flatten(rootId, [], kids)[i].id == ""
  }

  /** The bulk listing of the tree: its files in any order, with or without directory entries. */
  ghost predicate Flattens(tree: Tree, rootId: string, kids: seq<Node>) {
    !tree.partial && multiset(FilesOnly(tree.entries)) == multiset(Flatten(rootId, [], kids))
  }

  lemma StartBalance(graph: Graph, rules: Rules, rootId: string, kids: seq<Node>, x: Projected)
    requires Sound(graph, Dir(rootId, "", 0), Spot([], kids)) && rootId !in Ids(kids) && x.Keyed()
    ensures var spots := [Spot([], kids)];
            && Between(graph, Start(rootId), spots, {}) && Sizes(spots) == Size(kids)
            && Balance(rules, Start(rootId), spots, x) == Count(rules, Flatten(rootId, [], kids), x)
  {
    var queue, spots := Start(rootId).queue, [Spot([], kids)];
    assert spots[..0] == [] && queue[..0] == [];
    assert Held(rules, queue[..0], spots[..0], x) == 0 && Sizes(spots[..0]) == 0;
    assert Tally(NOTHING, x) == 0;
  }

  lemma WalkTallies(graph: Graph, rules: Rules, rootId: string, kids: seq<Node>, alive: nat, x: Projected)
    requires Sound(graph, Dir(rootId, "", 0), Spot([], kids)) && rootId !in Ids(kids) && x.Keyed()
    requires Size(kids) <= MAX_ENTRIES && alive > Size(kids)
    ensures var end := WalkAll(graph, true, rules, Start(rootId), alive).end;
            end.Walked? && !end.result.partial && Tally(end.result, x) == Count(rules, Flatten(rootId, [], kids), x)
  {
    StartBalance(graph, rules, rootId, kids, x);
    var total := Count(rules, Flatten(rootId, [], kids), x);
    assert Account(graph, rules, Start(rootId), [Spot([], kids)], x, total);
    WalkTree(graph, rules, Start(rootId), alive, x, total);
  }

  lemma BulkTallies(rules: Rules, tree: Tree, rootId: string, kids: seq<Node>, x: Projected)
    requires GoodKids(kids) && Size(kids) <= MAX_ENTRIES && Apart(Flatten(rootId, [], kids))
    requires Flattens(tree, rootId, kids) && x.Keyed()
    ensures var acc := Fold(Items(rules, tree.entries));
            && AccTally(acc, x) == Count(rules, Flatten(rootId, [], kids), x)
            && acc.Accepted() <= MAX_ENTRIES && !acc.failed
  {
    var files, flat := FilesOnly(tree.entries), Flatten(rootId, [], kids);
    ApartPermutes(flat, files);
    SameMembers(flat, files);
    forall i | 0 <= i < |files| ensures KeepsKey(rules, files[i]) {
      assert files[i] in files;
      FlattenKeepsKeys(rules, rootId, kids, files[i]);
    }
    FoldTally(rules, files, x);
    FoldSkipsDirectories(rules, tree.entries);
    CountIfPermutes(e => Project(rules, e) == x, flat, files);
    FlattenFits(rootId, [], kids);
  }

  lemma SameTallies(r: Result, acc: Acc)
    requires forall x: Projected :: x.Keyed() ==> Tally(r, x) == AccTally(acc, x)
    ensures multiset(r.files) == multiset(acc.files) && multiset(r.assets) == multiset(acc.assets)
  {
    forall f: File ensures multiset(r.files)[f] == multiset(acc.files)[f] {
      assert Tally(r, FileItem(f)) == AccTally(acc, FileItem(f));
    }
    forall a: Asset ensures multiset(r.assets)[a] == multiset(acc.assets)[a] {
      assert Tally(r, AssetItem(a)) == AccTally(acc, AssetItem(a));
    }
  }

  lemma SortedSame(rules: Rules, entries: seq<Entry>, r: Result, tree: Tree)
    requires var acc := Fold(Items(rules, entries));
             multiset(r.files) == multiset(acc.files) && multiset(r.assets) == multiset(acc.assets)
    ensures var bulk := SortedResult(Snapshot(tree, Fold(Items(rules, entries)), false));
            SortedResult(r).files == bulk.files && SortedResult(r).assets == bulk.assets
  {
    var acc := Fold(Items(rules, entries));
    SortedResultSorts(r);
    SortedResultSorts(Snapshot(tree, acc, false));
    FoldSortUnique(Items(rules, entries), SortedResult(r).files, SortedResult(Snapshot(tree, acc, false)).files,
                   SortedResult(r).assets, SortedResult(Snapshot(tree, acc, false)).assets);
  }

  lemma SameFound(graph: Graph, rules: Rules, rootId: string, kids: seq<Node>, tree: Tree, alive: nat)
    requires GoodTree(graph, rootId, kids) && Flattens(tree, rootId, kids) && alive > Size(kids)
    ensures var end := WalkAll(graph, true, rules, Start(rootId), alive).end;
            var acc := Fold(Items(rules, tree.entries));
            && end.Walked? && !end.result.partial && acc.Accepted() <= MAX_ENTRIES && !acc.failed
            && multiset(end.result.files) == multiset(acc.files) && multiset(end.result.assets) == multiset(acc.assets)
  {
    var end := WalkAll(graph, true, rules, Start(rootId), alive).end;
    var acc, any := Fold(Items(rules, tree.entries)), FileItem(File("", "", true, 0, 0));
    FlattenDistinct(rootId, kids);
    WalkTallies(graph, rules, rootId, kids, alive, any);
    BulkTallies(rules, tree, rootId, kids, any);
    forall x: Projected | x.Keyed() ensures Tally(end.result, x) == AccTally(acc, x) {
      WalkTallies(graph, rules, rootId, kids, alive, x);
      BulkTallies(rules, tree, rootId, kids, x);
    }
    SameTallies(end.result, acc);
  }

  /** Breadth-first over the tree or one recursive listing: the snapshot is the same. */
  lemma BfsMatchesBulk(graph: Graph, rules: Rules, rootId: string, kids: seq<Node>, tree: Tree, alive: nat)
    requires GoodTree(graph, rootId, kids) && Flattens(tree, rootId, kids) && alive > Size(kids)
    ensures var answer := BfsAnswer(graph, rootId, true, rules, alive);
            && answer.Ended? && answer.end.Walked?
            && answer.end.result.files == BulkResult(rules, tree).files
            && answer.end.result.assets == BulkResult(rules, tree).assets
            && !answer.end.result.partial && !BulkResult(rules, tree).partial
  {
    SameFound(graph, rules, rootId, kids, tree, alive);
    var end := WalkAll(graph, true, rules, Start(rootId), alive).end;
    SortedSame(rules, tree.entries, end.result, tree);
    var items := Items(rules, tree.entries);
    CutCounts(items);
    assert items[..|items|] == items;
  }
}
