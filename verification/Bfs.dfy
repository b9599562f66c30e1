/** The paged directory listing and the breadth-first scan over an arbitrary, possibly cyclic provider graph. */
module Bfs {
  import opened Common
  import opened Text
  import opened Sorting
  import opened Scan
  import opened Paths

  datatype Item = Item(id: string, name: string, isDir: bool, size: int, modifiedAt: int, sha1: string)

  // ---- Listing one directory page by page ---------------------------------------------------

  datatype Page = Page(items: seq<Item>, hasMore: bool)

  datatype PageReply = PageOk(page: Page) | PageError

  datatype ListReply = Listed(items: seq<Item>) | ListError | NonProgressing

  /** The pages from the offset on, within the given number of turns, reach one after which the source stops asking. */
  ghost predicate Stops(pages: nat -> PageReply, turns: nat, offset: nat)
    decreases turns
  {
    turns > 0 &&
    var reply := pages(offset);
    reply.PageError? || reply.page.items == [] || !reply.page.hasMore
    || Stops(pages, turns - 1, offset + |reply.page.items|)
  }

  /** Every page is the slice at its offset, of any size, and says truthfully whether more follows. */
  ghost predicate Honest(pages: nat -> PageReply, all: seq<Item>) {
    forall offset: nat :: offset <= |all| ==> HonestPage(pages(offset), all, offset)
  }

  predicate HonestPage(reply: PageReply, all: seq<Item>, offset: nat)
    requires offset <= |all|
  {
    && reply.PageOk?
    && var page := reply.page;
       && offset + |page.items| <= |all|
       && page.items == all[offset..offset + |page.items|]
       && page.hasMore == (offset + |page.items| < |all|)
       && (page.hasMore ==> page.items != [])
  }

  ghost function PagesFrom(pages: nat -> PageReply, turns: nat, offset: nat): ListReply
    requires Stops(pages, turns, offset)
    decreases turns
  {
    var reply := pages(offset);
    if reply.PageError? then ListError
    else if reply.page.items == [] && reply.page.hasMore then NonProgressing
    else if !reply.page.hasMore then Listed(reply.page.items)
    else
      match PagesFrom(pages, turns - 1, offset + |reply.page.items|)
      case Listed(rest) => Listed(reply.page.items + rest)
      case other => other
  }

  /** listProviderDirectory, for every provider on which its loop ends. */
  method ListProviderDirectory(pages: nat -> PageReply, ghost turns: nat) returns (reply: ListReply)
    requires Stops(pages, turns, 0)
    ensures reply == PagesFrom(pages, turns, 0)
  {
    var items: seq<Item> := [];
    var offset: nat := 0;
    ghost var left := turns;
    while true
      invariant Stops(pages, left, offset)
      invariant PagesFrom(pages, turns, 0) ==
                match PagesFrom(pages, left, offset)
                case Listed(rest) => Listed(items + rest)
                case other => other
      decreases left
    {
      var page := pages(offset);
      if page.PageError? { return ListError; }
      if page.page.items == [] && page.page.hasMore { return NonProgressing; }
      if !page.page.hasMore { return Listed(items + page.page.items); }
      ghost var rest := PagesFrom(pages, left - 1, offset + |page.page.items|);
      if rest.Listed? {
        assert items + (page.page.items + rest.items) == (items + page.page.items) + rest.items;
      }
      items := items + page.page.items;
      offset := offset + |page.page.items|;
      left := left - 1;
    }
  }

  /** The reply does not depend on how many turns are allowed, as long as they suffice. */
  lemma {:induction false} TurnsDoNotMatter(pages: nat -> PageReply, a: nat, b: nat, offset: nat)
    requires Stops(pages, a, offset) && Stops(pages, b, offset)
    ensures PagesFrom(pages, a, offset) == PagesFrom(pages, b, offset)
    decreases a
  {
    var reply := pages(offset);
    if reply.PageError? || reply.page.items == [] || !reply.page.hasMore {
    } else {
      TurnsDoNotMatter(pages, a - 1, b - 1, offset + |reply.page.items|);
    }
  }

  /** Whatever the page sizes, an honest listing is returned whole, in order, each item once. */
  lemma {:induction false} HonestPages(pages: nat -> PageReply, all: seq<Item>, offset: nat)
    requires Honest(pages, all) && offset <= |all|
    ensures var turns := |all| - offset + 1;
            Stops(pages, turns, offset) && PagesFrom(pages, turns, offset) == Listed(all[offset..])
    decreases |all| - offset
  {
    assert HonestPage(pages(offset), all, offset);
    var page := pages(offset).page;
    var next := offset + |page.items|;
    if page.hasMore {
      HonestPages(pages, all, next);
      StopsLater(pages, |all| - next + 1, |all| - offset, next);
      TurnsDoNotMatter(pages, |all| - next + 1, |all| - offset, next);
      assert page.items + all[next..] == all[offset..];
    } else {
      assert all[offset..next] == all[offset..];
    }
  }

  /** A listing that is honest up to a page that fails, or has nothing but announces more, is refused as a whole. */
  lemma {:induction false} FaultyPages(pages: nat -> PageReply, all: seq<Item>, offset: nat, fault: nat, turns: nat)
    requires offset <= fault <= |all| && Stops(pages, turns, offset)
    requires pages(fault).PageError? || (pages(fault).page.items == [] && pages(fault).page.hasMore)
    requires forall o: nat :: offset <= o < fault ==>
               HonestPage(pages(o), all, o) && pages(o).page.hasMore && o + |pages(o).page.items| <= fault
    ensures PagesFrom(pages, turns, offset) == if pages(fault).PageError? then ListError else NonProgressing
    decreases fault - offset
  {
    if offset == fault {
    } else {
      assert HonestPage(pages(offset), all, offset);
      FaultyPages(pages, all, offset + |pages(offset).page.items|, fault, turns - 1);
    }
  }

  lemma {:induction false} StopsLater(pages: nat -> PageReply, a: nat, b: nat, offset: nat)
    requires Stops(pages, a, offset) && a <= b
    ensures Stops(pages, b, offset)
    decreases a
  {
    var reply := pages(offset);
    if reply.PageError? || reply.page.items == [] || !reply.page.hasMore {
    } else {
      StopsLater(pages, a - 1, b - 1, offset + |reply.page.items|);
    }
  }

  // ---- The breadth-first scan ---------------------------------------------------------------

  /** What listing each directory returns; a missing key is a listing error. */
  type Graph = imap<string, seq<Item>>

  /** The pages of each directory. */
  type Provider = string -> (nat -> PageReply)

  ghost predicate Finite(provider: Provider, turns: string -> nat) {
    forall id :: Stops(provider(id), turns(id), 0)
  }

  ghost function Reply(provider: Provider, turns: string -> nat, id: string): ListReply
    requires Finite(provider, turns)
  {
    PagesFrom(provider(id), turns(id), 0)
  }

  /** The graph that a provider with finite listings serves page by page. */
  ghost function GraphOf(provider: Provider, turns: string -> nat): Graph
    requires Finite(provider, turns)
  {
    imap id: string | Reply(provider, turns, id).Listed? :: Reply(provider, turns, id).items
  }

  /** An honestly paged directory is in the graph with exactly its items. */
  lemma HonestGraph(provider: Provider, turns: string -> nat, id: string, all: seq<Item>)
    requires Finite(provider, turns) && Honest(provider(id), all)
    ensures id in GraphOf(provider, turns) && GraphOf(provider, turns)[id] == all
  {
    HonestPages(provider(id), all, 0);
    TurnsDoNotMatter(provider(id), turns(id), |all| + 1, 0);
    assert all[0..] == all;
    assert Reply(provider, turns, id) == Listed(all);
  }

  datatype Dir = Dir(id: string, path: string, depth: nat)

  datatype Walk = Walk(queue: seq<Dir>, visited: set<string>, seen: nat, result: Result)

  const NOTHING := Result([], [], [], false, 0, 0)

  function EntryOf(item: Item, parentId: string, path: string): Entry {
    Entry(item.id, parentId, item.name, item.isDir, item.size, item.modifiedAt, item.sha1, path)
  }

  function Add(r: Result, found: Projected): Result {
    match found
    case FileItem(f) => r.(files := r.files + [f])
    case AssetItem(a) => r.(assets := r.assets + [a])
    case _ => r
  }

  /** The body of the item loop for an item within the limit. */
  function Visit(recursive: bool, rules: Rules, current: Dir, item: Item, w: Walk): Walk {
    var path := current.path + "/" + item.name;
    var entry := EntryOf(item, current.id, path);
    var counted := w.(seen := w.seen + 1);
    if ShouldIgnore(path, rules.ignores) then counted
    else if item.isDir then
      var noted := counted.(result := w.result.(directories := w.result.directories + [entry]));
      if !recursive || current.depth + 1 >= MAX_DEPTH || item.id in w.visited then noted
      else noted.(visited := w.visited + {item.id}, queue := w.queue + [Dir(item.id, path, current.depth + 1)])
    else counted.(result := Add(w.result, Classify(rules, entry, path)))
  }

  datatype Visited = Within(walk: Walk) | Overflow(result: Result)

  /** The item loop; it stops at the entry limit. */
  function VisitAll(recursive: bool, rules: Rules, current: Dir, items: seq<Item>, w: Walk): (v: Visited)
    ensures v.Within? && w.seen <= MAX_ENTRIES ==>
              v.walk.seen <= MAX_ENTRIES && |v.walk.queue| - v.walk.seen <= |w.queue| - w.seen
  {
    if items == [] then Within(w)
    else if w.seen + 1 > MAX_ENTRIES then Overflow(w.result.(partial := true))
    else VisitAll(recursive, rules, current, items[1..], Visit(recursive, rules, current, items[0], w))
  }

  datatype WalkEnd = Walked(result: Result) | WalkCancelled(result: Result) | WalkFailed(result: Result)

  /** One turn of the queue loop: list the first queued directory and visit its items. */
  datatype Turn = ListingFailed | Turned(visited: Visited)

  function TurnOf(graph: Graph, recursive: bool, rules: Rules, w: Walk): Turn {
    if w.queue == [] || w.queue[0].id !in graph then ListingFailed
    else Turned(VisitAll(recursive, rules, w.queue[0], graph[w.queue[0].id], w.(queue := w.queue[1..])))
  }

  /** How a walk ends, and the directories it asks the provider for, in order. */
  datatype WalkRun = WalkRun(end: WalkEnd, listing: seq<Dir>)

  predicate Continues(turn: Walk -> Turn, w: Walk) { turn(w).Turned? && turn(w).visited.Within? }

  function Next(turn: Walk -> Turn, w: Walk): Walk
    requires Continues(turn, w)
  {
    turn(w).visited.walk
  }

  /** Every directory costs a queue slot and every slot costs an item. */
  predicate ShrinksAt(turn: Walk -> Turn, w: Walk) {
    w.queue != [] && w.seen <= MAX_ENTRIES && Continues(turn, w) ==>
      Next(turn, w).seen <= MAX_ENTRIES && |Next(turn, w).queue| - Next(turn, w).seen < |w.queue| - w.seen
  }

  ghost predicate Shrinks(turn: Walk -> Turn) { forall w :: ShrinksAt(turn, w) }

  /** The queue loop. By the measure it ends on any graph. */
  ghost function RunFrom(turn: Walk -> Turn, w: Walk, alive: nat): WalkRun
    requires Shrinks(turn) && w.seen <= MAX_ENTRIES
    decreases MAX_ENTRIES - w.seen + |w.queue|
  {
    if w.queue == [] then WalkRun(Walked(w.result), [])
    else if alive == 0 then WalkRun(WalkCancelled(w.result), [])
    else if turn(w).ListingFailed? then WalkRun(WalkFailed(w.result), [w.queue[0]])
    else if turn(w).visited.Overflow? then WalkRun(Walked(turn(w).visited.result), [w.queue[0]])
    else
      assert ShrinksAt(turn, w);
      var rest := RunFrom(turn, Next(turn, w), alive - 1);
      WalkRun(rest.end, [w.queue[0]] + rest.listing)
  }

  ghost function Turns(graph: Graph, recursive: bool, rules: Rules): (turn: Walk -> Turn)
    ensures Shrinks(turn)
  {
    w => TurnOf(graph, recursive, rules, w)
  }

  ghost function WalkAll(graph: Graph, recursive: bool, rules: Rules, w: Walk, alive: nat): WalkRun
    requires w.seen <= MAX_ENTRIES
  {
    RunFrom(Turns(graph, recursive, rules), w, alive)
  }

  function Start(rootId: string): Walk { Walk([Dir(rootId, "", 0)], {rootId}, 0, NOTHING) }

  datatype BfsOutcome = NotConfigured | Ended(end: WalkEnd)

  ghost function BfsAnswer(graph: Graph, rootId: string, recursive: bool, rules: Rules, alive: nat): BfsOutcome {
    if TrimSpace(rootId) == "" then NotConfigured
    else
      match WalkAll(graph, recursive, rules, Start(rootId), alive).end
      case Walked(result) => Ended(Walked(SortedResult(result)))
      case other => Ended(other)
  }

  // ---- Each directory is listed once --------------------------------------------------------

  function IdOf(dir: Dir): string { dir.id }

  /** Queued identities are marked and pairwise different. */
  ghost predicate QueueOnce(queue: seq<Dir>, visited: set<string>) {
    (forall i :: 0 <= i < |queue| ==> queue[i].id in visited) && DistinctBy(IdOf, queue)
  }

  /** The walk goes on from w to v: the queue is extended by directories that were not marked before. */
  ghost predicate Extends(w: Walk, v: Walk) {
    && QueueOnce(v.queue, v.visited) && w.visited <= v.visited
    && w.queue <= v.queue && forall i :: |w.queue| <= i < |v.queue| ==> v.queue[i].id !in w.visited
  }

  lemma VisitExtends(recursive: bool, rules: Rules, current: Dir, item: Item, w: Walk)
    requires QueueOnce(w.queue, w.visited)
    ensures Extends(w, Visit(recursive, rules, current, item, w))
  {
    forall i | 0 <= i < |w.queue| ensures IdOf(w.queue[i]) in w.visited { assert w.queue[i].id in w.visited; }
  }

  lemma ExtendsTransitive(a: Walk, b: Walk, c: Walk)
    requires Extends(a, b) && Extends(b, c)
    ensures Extends(a, c)
  {
    forall i | |a.queue| <= i < |c.queue| ensures c.queue[i].id !in a.visited {
      if i < |b.queue| { assert c.queue[i] == b.queue[i]; }
    }
  }

  lemma {:induction false} VisitAllExtends(recursive: bool, rules: Rules, current: Dir, items: seq<Item>, w: Walk)
    requires QueueOnce(w.queue, w.visited)
    ensures var v := VisitAll(recursive, rules, current, items, w); v.Within? ==> Extends(w, v.walk)
    decreases |items|
  {
    if items == [] || w.seen + 1 > MAX_ENTRIES {
    } else {
      var next := Visit(recursive, rules, current, items[0], w);
      VisitExtends(recursive, rules, current, items[0], w);
      VisitAllExtends(recursive, rules, current, items[1..], next);
      var v := VisitAll(recursive, rules, current, items[1..], next);
      if v.Within? { ExtendsTransitive(w, next, v.walk); }
    }
  }

  /** What is listed later was queued or not yet marked. */
  ghost predicate LaterListed(w: Walk, listing: seq<Dir>) {
    DistinctBy(IdOf, listing) && forall d :: d in listing ==> d in w.queue || d.id !in w.visited
  }

  lemma ListedFirst(w: Walk, v: Walk, rest: seq<Dir>)
    requires w.queue != [] && QueueOnce(w.queue, w.visited)
    requires Extends(w.(queue := w.queue[1..]), v) && LaterListed(v, rest)
    ensures LaterListed(w, [w.queue[0]] + rest)
  {
    var first, popped := w.queue[0], w.queue[1..];
    forall d | d in rest ensures d.id != first.id && (d in popped || d.id !in w.visited) {
      if d in v.queue {
        var i :| 0 <= i < |v.queue| && v.queue[i] == d;
        if i < |popped| {
          assert d == popped[i] == w.queue[i + 1];
          assert IdOf(w.queue[0]) != IdOf(w.queue[i + 1]);
        }
      }
    }
    assert forall d :: d in popped ==> d in w.queue;
    forall i | 0 <= i < |rest| ensures IdOf(first) != IdOf(rest[i]) { assert rest[i] in rest; }
  }

  lemma PoppedOnce(w: Walk)
    requires w.queue != [] && QueueOnce(w.queue, w.visited)
    ensures QueueOnce(w.queue[1..], w.visited)
  {
    forall i, j | 0 <= i < j < |w.queue| - 1 ensures IdOf(w.queue[1..][i]) != IdOf(w.queue[1..][j]) {
      assert IdOf(w.queue[i + 1]) != IdOf(w.queue[j + 1]);
    }
  }

  lemma TurnExtends(graph: Graph, recursive: bool, rules: Rules, w: Walk)
    requires w.queue != [] && QueueOnce(w.queue, w.visited) && Continues(Turns(graph, recursive, rules), w)
    ensures Extends(w.(queue := w.queue[1..]), Next(Turns(graph, recursive, rules), w))
  {
    PoppedOnce(w);
    VisitAllExtends(recursive, rules, w.queue[0], graph[w.queue[0].id], w.(queue := w.queue[1..]));
  }

  lemma {:induction false} ListedOnceFrom(graph: Graph, recursive: bool, rules: Rules, w: Walk, alive: nat)
    requires w.seen <= MAX_ENTRIES && QueueOnce(w.queue, w.visited)
    ensures LaterListed(w, WalkAll(graph, recursive, rules, w, alive).listing)
    decreases MAX_ENTRIES - w.seen + |w.queue|
  {
    var turn := Turns(graph, recursive, rules);
    if w.queue == [] || alive == 0 || !Continues(turn, w) {
    } else {
      var v := Next(turn, w);
      assert ShrinksAt(turn, w);
      TurnExtends(graph, recursive, rules, w);
      ListedOnceFrom(graph, recursive, rules, v, alive - 1);
      var rest := WalkAll(graph, recursive, rules, v, alive - 1).listing;
      assert WalkAll(graph, recursive, rules, w, alive).listing == [w.queue[0]] + rest;
      ListedFirst(w, v, rest);
    }
  }

  /** On every graph, cyclic or with shared directories, no directory identity is listed twice. */
  lemma ListedOnce(graph: Graph, recursive: bool, rules: Rules, rootId: string, alive: nat)
    ensures DistinctBy(IdOf, WalkAll(graph, recursive, rules, Start(rootId), alive).listing)
  {
    ListedOnceFrom(graph, recursive, rules, Start(rootId), alive);
  }

  // ---- What the walk finds ------------------------------------------------------------------

  /** An item of a listed directory. */
  datatype Met = Met(dir: Dir, item: Item) {
    function Path(): string { dir.path + "/" + item.name }
  }

  function MetIn(dir: Dir, items: seq<Item>): (r: seq<Met>)
    ensures |r| == |items|
  {
    if items == [] then [] else [Met(dir, items[0])] + MetIn(dir, items[1..])
  }

  /** The items of the listed directories, in the order of listing; what cannot be listed has none. */
  ghost function MetAll(graph: Graph, listing: seq<Dir>): seq<Met> {
    if listing == [] then []
    else
      var rest := MetAll(graph, listing[1..]);
      if listing[0].id in graph then MetIn(listing[0], graph[listing[0].id]) + rest else rest
  }

  function Upto<T>(s: seq<T>, n: nat): seq<T> { if |s| <= n then s else s[..n] }

  predicate Shown(rules: Rules, m: Met) { !ShouldIgnore(m.Path(), rules.ignores) }

  function DirectoryAt(rules: Rules, m: Met): seq<Entry> {
    if Shown(rules, m) && m.item.isDir then [EntryOf(m.item, m.dir.id, m.Path())] else []
  }

  ghost function FileAt(rules: Rules, m: Met): seq<File> {
    if Shown(rules, m) && !m.item.isDir && Lower(ExtensionOf(m.item.name)) in rules.extensions then
      [File(m.Path(), m.item.id, true, m.item.size, m.item.modifiedAt)]
    else []
  }

  ghost function AssetAt(rules: Rules, m: Met): seq<Asset> {
    var extension := Lower(ExtensionOf(m.item.name));
    if Shown(rules, m) && !m.item.isDir && extension !in rules.extensions && extension in rules.assetExtensions then
      [Asset(m.Path(), m.item.id, m.dir.id, m.item.name, extension, m.item.size, m.item.modifiedAt, m.item.sha1)]
    else []
  }

  ghost function Gather<T>(pick: Met -> seq<T>, met: seq<Met>): seq<T> {
    if met == [] then [] else pick(met[0]) + Gather(pick, met[1..])
  }

  ghost function Directories(rules: Rules, met: seq<Met>): seq<Entry> { Gather((m: Met) => DirectoryAt(rules, m), met) }

  ghost function Files(rules: Rules, met: seq<Met>): seq<File> { Gather((m: Met) => FileAt(rules, m), met) }

  ghost function Assets(rules: Rules, met: seq<Met>): seq<Asset> { Gather((m: Met) => AssetAt(rules, m), met) }

  lemma {:induction false} GatherConcat<T>(pick: Met -> seq<T>, a: seq<Met>, b: seq<Met>)
    ensures Gather(pick, a + b) == Gather(pick, a) + Gather(pick, b)
  {
    if a == [] {
      assert a + b == b;
    } else {
      HeadTail(a, b);
      GatherConcat(pick, a[1..], b);
      Regroup(pick(a[0]), Gather(pick, a[1..]), Gather(pick, b));
    }
  }

  /** The result r after the items met on top of it. */
  ghost function Grown(rules: Rules, r: Result, met: seq<Met>): Result {
    r.(directories := r.directories + Directories(rules, met), files := r.files + Files(rules, met),
       assets := r.assets + Assets(rules, met))
  }

  lemma GrownConcat(rules: Rules, r: Result, a: seq<Met>, b: seq<Met>)
    ensures Grown(rules, Grown(rules, r, a), b) == Grown(rules, r, a + b)
  {
    GatherConcat((m: Met) => DirectoryAt(rules, m), a, b);
    GatherConcat((m: Met) => FileAt(rules, m), a, b);
    GatherConcat((m: Met) => AssetAt(rules, m), a, b);
    Regroup(r.directories, Directories(rules, a), Directories(rules, b));
    Regroup(r.files, Files(rules, a), Files(rules, b));
    Regroup(r.assets, Assets(rules, a), Assets(rules, b));
  }

  lemma GatherOne<T>(pick: Met -> seq<T>, m: Met)
    ensures Gather(pick, [m]) == pick(m)
  {
    assert Gather(pick, [m][1..]) == [];
  }

  /** What one item adds. */
  lemma VisitFinds(recursive: bool, rules: Rules, current: Dir, item: Item, w: Walk)
    ensures var v := Visit(recursive, rules, current, item, w);
            v.seen == w.seen + 1 && v.result == Grown(rules, w.result, [Met(current, item)])
  {
    var m := Met(current, item);
    ExtIsExtension(item.name);
    GatherOne((m: Met) => DirectoryAt(rules, m), m);
    GatherOne((m: Met) => FileAt(rules, m), m);
    GatherOne((m: Met) => AssetAt(rules, m), m);
  }

  lemma {:induction false} VisitAllFinds(recursive: bool, rules: Rules, current: Dir, items: seq<Item>, w: Walk)
    requires w.seen <= MAX_ENTRIES
    ensures var v, met := VisitAll(recursive, rules, current, items, w), MetIn(current, items);
            if w.seen + |items| <= MAX_ENTRIES then
              v.Within? && v.walk.seen == w.seen + |items| && v.walk.result == Grown(rules, w.result, met)
            else
              v == Overflow(Grown(rules, w.result, met[..MAX_ENTRIES - w.seen]).(partial := true))
    decreases |items|
  {
    if items == [] || w.seen + 1 > MAX_ENTRIES {
      GrownByNone(rules, w.result);
    } else {
      var next, met := Visit(recursive, rules, current, items[0], w), MetIn(current, items);
      VisitFinds(recursive, rules, current, items[0], w);
      VisitAllFinds(recursive, rules, current, items[1..], next);
      if w.seen + |items| <= MAX_ENTRIES {
        GrownConcat(rules, w.result, [met[0]], met[1..]);
      } else {
        var room := MAX_ENTRIES - next.seen;
        assert [met[0]] + met[1..][..room] == met[..room + 1];
        GrownConcat(rules, w.result, [met[0]], met[1..][..room]);
      }
    }
  }

  lemma GrownByNone(rules: Rules, r: Result)
    ensures Grown(rules, r, []) == r
  {
  }

  /** Collecting item by item, apart from what is collected. */
  ghost predicate Collects(grown: (Result, seq<Met>) -> Result) {
    && (forall r :: grown(r, []) == r)
    && (forall r, met :: grown(r, met).partial == r.partial)
    && (forall r, a, b :: AddsUp(grown, r, a, b))
  }

  predicate AddsUp(grown: (Result, seq<Met>) -> Result, r: Result, a: seq<Met>, b: seq<Met>) {
    grown(grown(r, a), b) == grown(r, a + b)
  }

  ghost function Growing(rules: Rules): (grown: (Result, seq<Met>) -> Result)
    ensures Collects(grown)
  {
    assert forall r :: Grown(rules, r, []) == r by {
      forall r ensures Grown(rules, r, []) == r { GrownByNone(rules, r); }
    }
    assert forall r, a, b :: Grown(rules, Grown(rules, r, a), b) == Grown(rules, r, a + b) by {
      forall r, a, b ensures Grown(rules, Grown(rules, r, a), b) == Grown(rules, r, a + b) {
        GrownConcat(rules, r, a, b);
      }
    }
    (r: Result, met: seq<Met>) => Grown(rules, r, met)
  }

  /** What a walk with the given room for items returns after meeting these. */
  ghost function Outcome(grown: (Result, seq<Met>) -> Result, r: Result, met: seq<Met>, room: nat): Result {
    grown(r, Upto(met, room)).(partial := r.partial || |met| > room)
  }

  lemma OutcomeNext(grown: (Result, seq<Met>) -> Result, r: Result, met: seq<Met>, rest: seq<Met>, room: nat)
    requires Collects(grown) && |met| <= room
    ensures Outcome(grown, grown(r, met), rest, room - |met|) == Outcome(grown, r, met + rest, room)
  {
    assert Upto(met + rest, room) == met + Upto(rest, room - |met|);
    assert AddsUp(grown, r, met, Upto(rest, room - |met|));
  }

  /** What one turn of the queue loop adds. */
  ghost predicate FindsAt(turn: Walk -> Turn, graph: Graph, grown: (Result, seq<Met>) -> Result, w: Walk) {
    w.queue != [] && w.seen <= MAX_ENTRIES ==>
      if w.queue[0].id !in graph then turn(w).ListingFailed?
      else
        turn(w).Turned? &&
        var visited, met := turn(w).visited, MetIn(w.queue[0], graph[w.queue[0].id]);
        if visited.Within? then
          && visited.walk.seen == w.seen + |met| <= MAX_ENTRIES
          && visited.walk.result == grown(w.result, met)
        else visited.result == Outcome(grown, w.result, met, MAX_ENTRIES - w.seen) && |met| > MAX_ENTRIES - w.seen
  }

  ghost predicate Finds(turn: Walk -> Turn, graph: Graph, grown: (Result, seq<Met>) -> Result) {
    forall w :: FindsAt(turn, graph, grown, w)
  }

  lemma TurnFinds(graph: Graph, recursive: bool, rules: Rules)
    ensures Finds(Turns(graph, recursive, rules), graph, Growing(rules))
  {
    forall w ensures FindsAt(Turns(graph, recursive, rules), graph, Growing(rules), w) {
      if w.queue != [] && w.seen <= MAX_ENTRIES && w.queue[0].id in graph {
        VisitAllFinds(recursive, rules, w.queue[0], graph[w.queue[0].id], w.(queue := w.queue[1..]));
      }
    }
  }

  lemma MetFirst(graph: Graph, first: Dir, rest: seq<Dir>)
    requires first.id in graph
    ensures MetAll(graph, [first] + rest) == MetIn(first, graph[first.id]) + MetAll(graph, rest)
  {
    assert ([first] + rest)[1..] == rest;
  }

  lemma {:induction false} RunFinds(turn: Walk -> Turn, graph: Graph, grown: (Result, seq<Met>) -> Result, w: Walk,
                                    alive: nat)
    requires Shrinks(turn) && Collects(grown) && Finds(turn, graph, grown) && w.seen <= MAX_ENTRIES
    ensures var run := RunFrom(turn, w, alive);
            run.end.result == Outcome(grown, w.result, MetAll(graph, run.listing), MAX_ENTRIES - w.seen)
    decreases MAX_ENTRIES - w.seen + |w.queue|
  {
    assert FindsAt(turn, graph, grown, w);
    if w.queue == [] || alive == 0 || turn(w).ListingFailed? {
    } else {
      var first := w.queue[0];
      if turn(w).visited.Overflow? {
        MetFirst(graph, first, []);
        assert MetIn(first, graph[first.id]) + [] == MetIn(first, graph[first.id]);
      } else {
        assert ShrinksAt(turn, w);
        RunFinds(turn, graph, grown, Next(turn, w), alive - 1);
        var rest := RunFrom(turn, Next(turn, w), alive - 1).listing;
        MetFirst(graph, first, rest);
        OutcomeNext(grown, w.result, MetIn(first, graph[first.id]), MetAll(graph, rest), MAX_ENTRIES - w.seen);
      }
    }
  }

  /** Every directory but the last one listed could be listed. */
  ghost predicate ListedBut(graph: Graph, listing: seq<Dir>) {
    forall i :: 0 <= i < |listing| - 1 ==> listing[i].id in graph
  }

  lemma ListedButFirst(graph: Graph, first: Dir, rest: seq<Dir>)
    requires first.id in graph && ListedBut(graph, rest)
    ensures ListedBut(graph, [first] + rest)
  {
    forall i | 0 <= i < |[first] + rest| - 1 ensures ([first] + rest)[i].id in graph {
      if i > 0 { assert ([first] + rest)[i] == rest[i - 1]; }
    }
  }

  /** The walk stops at the first directory that cannot be listed, and asks for no more than the context allows. */
  lemma {:induction false} RunEnds(turn: Walk -> Turn, graph: Graph, grown: (Result, seq<Met>) -> Result, w: Walk,
                                   alive: nat)
    requires Shrinks(turn) && Finds(turn, graph, grown) && w.seen <= MAX_ENTRIES
    ensures var run := RunFrom(turn, w, alive);
            && ListedBut(graph, run.listing) && |run.listing| <= alive
            && (run.end.WalkFailed? <==> run.listing != [] && run.listing[|run.listing| - 1].id !in graph)
            && (run.end.WalkCancelled? ==> |run.listing| == alive)
    decreases MAX_ENTRIES - w.seen + |w.queue|
  {
    assert FindsAt(turn, graph, grown, w);
    if w.queue == [] || alive == 0 || turn(w).ListingFailed? || turn(w).visited.Overflow? {
    } else {
      assert ShrinksAt(turn, w);
      RunEnds(turn, graph, grown, Next(turn, w), alive - 1);
      ListedButFirst(graph, w.queue[0], RunFrom(turn, Next(turn, w), alive - 1).listing);
    }
  }

  /** Only a directory that cannot be listed fails the walk, and it is the last one asked for. */
  lemma WalkEnds(graph: Graph, recursive: bool, rules: Rules, rootId: string, alive: nat)
    ensures var run := WalkAll(graph, recursive, rules, Start(rootId), alive);
            && ListedBut(graph, run.listing) && |run.listing| <= alive
            && (run.end.WalkFailed? <==> run.listing != [] && run.listing[|run.listing| - 1].id !in graph)
            && (run.end.WalkCancelled? ==> |run.listing| == alive)
  {
    TurnFinds(graph, recursive, rules);
    RunEnds(Turns(graph, recursive, rules), graph, Growing(rules), Start(rootId), alive);
  }

  /** A walk collects from the listed directories, item by item, what their fields say, up to the entry limit. */
  lemma WalkFinds(graph: Graph, recursive: bool, rules: Rules, rootId: string, alive: nat)
    ensures var run := WalkAll(graph, recursive, rules, Start(rootId), alive);
            var met := MetAll(graph, run.listing);
            && run.end.result.directories == Directories(rules, Upto(met, MAX_ENTRIES))
            && run.end.result.files == Files(rules, Upto(met, MAX_ENTRIES))
            && run.end.result.assets == Assets(rules, Upto(met, MAX_ENTRIES))
            && (run.end.result.partial <==> |met| > MAX_ENTRIES)
  {
    TurnFinds(graph, recursive, rules);
    RunFinds(Turns(graph, recursive, rules), graph, Growing(rules), Start(rootId), alive);
  }

  /** Without recursion no directory is queued, so the root is all that is listed. */
  lemma {:induction false} VisitAllFlat(rules: Rules, current: Dir, items: seq<Item>, w: Walk)
    ensures var v := VisitAll(false, rules, current, items, w); v.Within? ==> v.walk.queue == w.queue
    decreases |items|
  {
    if items == [] || w.seen + 1 > MAX_ENTRIES {
    } else {
      VisitAllFlat(rules, current, items[1..], Visit(false, rules, current, items[0], w));
    }
  }

  lemma FlatListing(graph: Graph, rules: Rules, rootId: string, alive: nat)
    requires alive > 0
    ensures WalkAll(graph, false, rules, Start(rootId), alive).listing == [Dir(rootId, "", 0)]
  {
    var w, turn := Start(rootId), Turns(graph, false, rules);
    if Continues(turn, w) {
      VisitAllFlat(rules, w.queue[0], graph[rootId], w.(queue := []));
      assert w.queue[1..] == [] && Next(turn, w).queue == [];
      assert ShrinksAt(turn, w);
      assert WalkAll(graph, false, rules, w, alive).listing ==
             [w.queue[0]] + WalkAll(graph, false, rules, Next(turn, w), alive - 1).listing;
    }
  }

  ghost predicate PicksAt<T>(pick: Met -> seq<T>, met: seq<Met>, i: nat, x: T)
    requires i < |met|
  {
    x in pick(met[i])
  }

  lemma {:induction false} GatherMembers<T>(pick: Met -> seq<T>, met: seq<Met>, x: T)
    ensures x in Gather(pick, met) <==> exists i :: 0 <= i < |met| && PicksAt(pick, met, i, x)
  {
    if met == [] {
    } else {
      GatherMembers(pick, met[1..], x);
      forall i | 0 <= i < |met| - 1 ensures PicksAt(pick, met[1..], i, x) == PicksAt(pick, met, i + 1, x) {}
      if x in pick(met[0]) { assert PicksAt(pick, met, 0, x); }
      if i :| 0 <= i < |met| - 1 && PicksAt(pick, met[1..], i, x) { assert PicksAt(pick, met, i + 1, x); }
      if i :| 0 <= i < |met| && PicksAt(pick, met, i, x) {
        if i > 0 { assert PicksAt(pick, met[1..], i - 1, x); }
      }
    }
  }

  lemma {:induction false} MetInAt(dir: Dir, items: seq<Item>, k: nat)
    requires k < |items|
    ensures MetIn(dir, items)[k] == Met(dir, items[k])
  {
    if k == 0 {
    } else {
      MetInAt(dir, items[1..], k - 1);
    }
  }

  /** The facts of a direct child that a file carries. */
  function ChildFile(item: Item): File { File("/" + item.name, item.id, true, item.size, item.modifiedAt) }

  /** A child of the root that is not ignored is reported as a directory, or as a file when its extension is wanted. */
  lemma FlatFinds(graph: Graph, rules: Rules, rootId: string, alive: nat, k: nat)
    requires alive > 0 && rootId in graph && k < |graph[rootId]| <= MAX_ENTRIES
    requires !ShouldIgnore("/" + graph[rootId][k].name, rules.ignores)
    ensures var item, r := graph[rootId][k], WalkAll(graph, false, rules, Start(rootId), alive).end.result;
            && (item.isDir ==> EntryOf(item, rootId, "/" + item.name) in r.directories)
            && (forall stem, ext :: NameSplits(item.name, stem, ext) ==>
                  (!item.isDir && Lower(ext) in rules.extensions ==> ChildFile(item) in r.files))
  {
    var item, root := graph[rootId][k], Dir(rootId, "", 0);
    var met := MetIn(root, graph[rootId]);
    FlatListing(graph, rules, rootId, alive);
    WalkFinds(graph, false, rules, rootId, alive);
    MetFirst(graph, root, []);
    assert MetAll(graph, [root]) == met + [] == met && [root] == [root] + [];
    MetInAt(root, graph[rootId], k);
    assert "" + "/" + item.name == "/" + item.name;
    if item.isDir {
      assert PicksAt((m: Met) => DirectoryAt(rules, m), met, k, EntryOf(item, rootId, "/" + item.name));
      GatherMembers((m: Met) => DirectoryAt(rules, m), met, EntryOf(item, rootId, "/" + item.name));
    } else {
      ExtIsExtension(item.name);
      forall stem, ext | NameSplits(item.name, stem, ext) && Lower(ext) in rules.extensions
        ensures ChildFile(item) in Files(rules, met)
      {
        ExtIsSplit(item.name, stem, ext);
        assert PicksAt((m: Met) => FileAt(rules, m), met, k, ChildFile(item));
        GatherMembers((m: Met) => FileAt(rules, m), met, ChildFile(item));
      }
    }
  }

  /** The result reports exactly what the items met say, up to the entry limit; files and assets in some order. */
  ghost predicate Returns(rules: Rules, met: seq<Met>, r: Result) {
    && r.directories == Directories(rules, Upto(met, MAX_ENTRIES))
    && multiset(r.files) == multiset(Files(rules, Upto(met, MAX_ENTRIES)))
    && multiset(r.assets) == multiset(Assets(rules, Upto(met, MAX_ENTRIES)))
    && (r.partial <==> |met| > MAX_ENTRIES)
  }

  lemma SortedReturns(rules: Rules, met: seq<Met>, r: Result)
    requires Returns(rules, met, r)
    ensures Returns(rules, met, SortedResult(r))
  {
    SortedResultSorts(r);
  }

  // ---- The loops ----------------------------------------------------------------------------

  /** The loop over the items of one listed directory. */
  method ScanDirectory(recursive: bool, rules: Rules, current: Dir, items: seq<Item>, before: Walk)
    returns (visited: Visited)
    requires before.seen <= MAX_ENTRIES
    ensures visited == VisitAll(recursive, rules, current, items, before)
  {
    var walk := before;
    var i := 0;
    while i < |items|
      invariant 0 <= i <= |items|
      invariant VisitAll(recursive, rules, current, items, before) ==
                VisitAll(recursive, rules, current, items[i..], walk)
    {
      if walk.seen + 1 > MAX_ENTRIES {
        return Overflow(walk.result.(partial := true));
      }
      assert items[i..][1..] == items[i + 1..];
      walk := Visit(recursive, rules, current, items[i], walk);
      i := i + 1;
    }
    return Within(walk);
  }

  /** `turn` is the loop body over the graph; the trigger keeps it folded where only its name matters. */
  ghost predicate IsTurnOf(turn: Walk -> Turn, graph: Graph, recursive: bool, rules: Rules) {
    forall w {:trigger TurnOf(graph, recursive, rules, w)} :: turn(w) == TurnOf(graph, recursive, rules, w)
  }

  method TakeTurn(provider: Provider, ghost turns: string -> nat, recursive: bool, rules: Rules, w: Walk,
                  ghost turn: Walk -> Turn)
    returns (taken: Turn)
    requires Finite(provider, turns) && IsTurnOf(turn, GraphOf(provider, turns), recursive, rules)
    requires w.queue != [] && w.seen <= MAX_ENTRIES
    ensures taken == turn(w)
  {
    var current := w.queue[0];
    var reply := ListProviderDirectory(provider(current.id), turns(current.id));
    assert reply == Reply(provider, turns, current.id);
    assert turn(w) == TurnOf(GraphOf(provider, turns), recursive, rules, w);
    if !reply.Listed? { return ListingFailed; }
    var visited := ScanDirectory(recursive, rules, current, reply.items, w.(queue := w.queue[1..]));
    return Turned(visited);
  }

  /** The queue loop over a provider with finite listings. `listed` records each directory it asks for. */
  method WalkGraph(provider: Provider, ghost turns: string -> nat, rootId: string, recursive: bool, rules: Rules,
                   alive: nat, ghost turn: Walk -> Turn)
    returns (end: WalkEnd, ghost listed: seq<Dir>)
    requires Finite(provider, turns) && IsTurnOf(turn, GraphOf(provider, turns), recursive, rules) && Shrinks(turn)
    ensures end == RunFrom(turn, Start(rootId), alive).end
    ensures listed == RunFrom(turn, Start(rootId), alive).listing
  {
    var walk, left := Start(rootId), alive;
    ghost var whole := RunFrom(turn, walk, left);
    ghost var rest := whole;
    listed := [];
    while walk.queue != []
      invariant walk.seen <= MAX_ENTRIES && rest == RunFrom(turn, walk, left)
      invariant whole == WalkRun(rest.end, listed + rest.listing)
      decreases MAX_ENTRIES - walk.seen + |walk.queue|
    {
      if left == 0 { return WalkCancelled(walk.result), listed; }
      var taken := TakeTurn(provider, turns, recursive, rules, walk, turn);
      ghost var before := listed;
      listed := listed + [walk.queue[0]];
      if taken.ListingFailed? { return WalkFailed(walk.result), listed; }
      if taken.visited.Overflow? { return Walked(taken.visited.result), listed; }
      ghost var current := walk.queue[0];
      assert ShrinksAt(turn, walk);
      walk, left := taken.visited.walk, left - 1;
      rest := RunFrom(turn, walk, left);
      Regroup(before, [current], rest.listing);
    }
    return Walked(walk.result), listed;
  }

  /** ScanProvider for a provider without a recursive endpoint. */
  method ScanProviderBfs(provider: Provider, ghost turns: string -> nat, rootId: string, recursive: bool, rules: Rules,
                         alive: nat)
    returns (outcome: BfsOutcome, ghost listed: seq<Dir>)
    requires Finite(provider, turns)
    ensures outcome == BfsAnswer(GraphOf(provider, turns), rootId, recursive, rules, alive)
    ensures listed == if TrimSpace(rootId) == "" then []
                      else WalkAll(GraphOf(provider, turns), recursive, rules, Start(rootId), alive).listing
    ensures DistinctBy(IdOf, listed)
    ensures !recursive && TrimSpace(rootId) != "" && alive > 0 ==> listed == [Dir(rootId, "", 0)]
    ensures outcome.Ended? && outcome.end.Walked? ==> InPathOrder(outcome.end.result)
    ensures outcome.Ended? ==> Returns(rules, MetAll(GraphOf(provider, turns), listed), outcome.end.result)
  {
    if TrimSpace(rootId) == "" { return NotConfigured, []; }
    ghost var graph := GraphOf(provider, turns);
    var end;
    end, listed := WalkGraph(provider, turns, rootId, recursive, rules, alive, Turns(graph, recursive, rules));
    ListedOnce(graph, recursive, rules, rootId, alive);
    WalkFinds(graph, recursive, rules, rootId, alive);
    SortedInOrder(end.result);
    SortedReturns(rules, MetAll(graph, listed), end.result);
    if !recursive && alive > 0 { FlatListing(graph, rules, rootId, alive); }
    outcome := Ended(if end.Walked? then Walked(SortedResult(end.result)) else end);
  }
}
