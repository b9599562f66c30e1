/**
 Provider entries, their projection onto files and assets, the first-wins deduplication that
 the streamed and the bulk scan share, and the bulk scan itself.
 */
module Scan {
  import opened Text
  import opened Sorting

  const MAX_ENTRIES: nat := 250000
  const MAX_DEPTH: nat := 64

  /** One provider item together with its path below the scanned root. */
  datatype Entry = Entry(
    id: string, parentId: string, name: string, isDir: bool, size: int, modifiedAt: int, sha1: string,
    relativePath: string)

  datatype File = File(relativePath: string, providerId: string, providerIdStable: bool, size: int, modifiedAt: int)

  datatype Asset = Asset(
    relativePath: string, providerId: string, parentProviderId: string, name: string, extension: string,
    size: int, modifiedAt: int, hashHint: string)

  datatype Rules = Rules(extensions: set<string>, assetExtensions: set<string>, ignores: seq<string>)

  datatype Projected = Failed | Skipped | FileItem(file: File) | AssetItem(asset: Asset) {
    predicate Keyed() { FileItem? || AssetItem? }

    function Path(): string
      requires Keyed()
    {
      if FileItem? then file.relativePath else asset.relativePath
    }

    function Provider(): string
      requires Keyed()
    {
      if FileItem? then file.providerId else asset.providerId
    }
  }

  // ---- Ignoring and projecting -------------------------------------------------------------

  function TrimSlashesLeft(s: string): string {
    if s != [] && s[0] == '/' then TrimSlashesLeft(s[1..]) else s
  }

  function TrimSlashesRight(s: string): string {
    if s != [] && s[|s| - 1] == '/' then TrimSlashesRight(s[..|s| - 1]) else s
  }

  const RECYCLE := ".ohmycine-recycle"

  predicate MatchesPattern(lower: string, patterns: seq<string>, i: nat)
    requires i < |patterns|
  {
    var pattern := Lower(TrimSpace(patterns[i]));
    pattern != "" && Contains(lower, pattern)
  }

  predicate ShouldIgnore(path: string, patterns: seq<string>) {
    var lower := Lower(path);
    || RECYCLE in Split(TrimSlashesRight(TrimSlashesLeft(lower)), '/')
    || exists i :: 0 <= i < |patterns| && MatchesPattern(lower, patterns, i)
  }

  function Slashed(s: string): (r: string)
    ensures |r| == |s|
    ensures forall i :: 0 <= i < |s| ==> r[i] == if s[i] == '\\' then '/' else s[i]
  {
    seq(|s|, i requires 0 <= i < |s| => if s[i] == '\\' then '/' else s[i])
  }

  /** The segment stack of filepath.Clean on a rooted path. */
  function CleanSegments(segments: seq<string>): seq<string> {
    if segments == [] then []
    else
      var done, last := CleanSegments(segments[..|segments| - 1]), segments[|segments| - 1];
      if last == "" || last == "." then done
      else if last == ".." then (if done == [] then [] else done[..|done| - 1])
      else done + [last]
  }

  /** filepath.Clean on a path that starts with a slash. */
  function CleanRooted(path: string): string {
    var kept := CleanSegments(Split(path, '/'));
    if kept == [] then "/" else Rooted(kept)
  }

  /** filepath.Ext */
  function Ext(name: string): string {
    if name == [] || name[|name| - 1] == '/' then ""
    else if name[|name| - 1] == '.' then "."
    else
      var rest := Ext(name[..|name| - 1]);
      if rest == "" then "" else rest + [name[|name| - 1]]
  }

  function Classify(rules: Rules, e: Entry, path: string): Projected {
    var extension := Lower(Ext(e.name));
    if extension in rules.extensions then
      FileItem(File(path, e.id, true, e.size, e.modifiedAt))
    else if extension in rules.assetExtensions then
      AssetItem(Asset(path, e.id, e.parentId, e.name, extension, e.size, e.modifiedAt, e.sha1))
    else
      Skipped
  }

  predicate Unprintable(path: string) {
    '\0' in path || '\r' in path || '\n' in path
  }

  /** processProviderTreeEntry */
  function Project(rules: Rules, e: Entry): Projected {
    var path := TrimSpace(e.relativePath);
    if e.isDir || ShouldIgnore(path, rules.ignores) then Skipped
    else if !HasPrefix(path, "/") then Failed
    else if ".." in Split(Slashed(path), '/') then Failed
    else
      var clean := CleanRooted(path);
      if clean == "/" || Unprintable(clean) then Failed else Classify(rules, e, clean)
  }

  // ---- Ordered, first-wins deduplication ---------------------------------------------------

  datatype Acc = Acc(
    files: seq<File>, assets: seq<Asset>, seenPaths: set<string>, seenProviders: set<string>,
    deduplicated: nat, failed: bool)
  {
    function Accepted(): nat { |files| + |assets| }
  }

  const EMPTY := Acc([], [], {}, {}, 0, false)

  predicate Admits(acc: Acc, item: Projected) {
    && item.Keyed()
    && item.Path() !in acc.seenPaths
    && (item.Provider() == "" || item.Provider() !in acc.seenProviders)
  }

  /** One call of the consumer on the next item in provider order. */
  function Consume(acc: Acc, item: Projected): Acc {
    if item.Failed? then acc.(failed := true)
    else if item.Skipped? then acc
    else if !Admits(acc, item) then acc.(deduplicated := acc.deduplicated + 1)
    else
      var provider := item.Provider();
      var marked := acc.(
        seenPaths := acc.seenPaths + {item.Path()},
        seenProviders := if provider == "" then acc.seenProviders else acc.seenProviders + {provider});
      if item.FileItem? then marked.(files := acc.files + [item.file])
      else marked.(assets := acc.assets + [item.asset])
  }

  /** The sequential reference: every item consumed in order. */
  function Fold(items: seq<Projected>): Acc {
    if items == [] then EMPTY else Consume(Fold(items[..|items| - 1]), items[|items| - 1])
  }

  lemma FoldNext(items: seq<Projected>, k: nat)
    requires k < |items|
    ensures Fold(items[..k + 1]) == Consume(Fold(items[..k]), items[k])
  {
    assert items[..k + 1][..k] == items[..k];
  }

  // ---- What the fold means -----------------------------------------------------------------

  predicate Conflict(a: Projected, b: Projected)
    requires a.Keyed() && b.Keyed()
  {
    a.Path() == b.Path() || (a.Provider() == b.Provider() && a.Provider() != "")
  }

  /** Item i is kept when it is a file or an asset and no kept item before it conflicts with it. */
  predicate Kept(items: seq<Projected>, i: nat)
    requires i < |items|
    decreases i, 0
  {
    items[i].Keyed() && forall j :: 0 <= j < i ==> !Blocks(items, j, i)
  }

  /** The earlier item j is kept and conflicts with item i. */
  predicate Blocks(items: seq<Projected>, j: nat, i: nat)
    requires j < i < |items| && items[i].Keyed()
    decreases j, 1
  {
    Kept(items, j) && Conflict(items[j], items[i])
  }

  function KeptFiles(items: seq<Projected>, n: nat): seq<File>
    requires n <= |items|
  {
    if n == 0 then []
    else KeptFiles(items, n - 1) + if Kept(items, n - 1) && items[n - 1].FileItem? then [items[n - 1].file] else []
  }

  function KeptAssets(items: seq<Projected>, n: nat): seq<Asset>
    requires n <= |items|
  {
    if n == 0 then []
    else KeptAssets(items, n - 1) + if Kept(items, n - 1) && items[n - 1].AssetItem? then [items[n - 1].asset] else []
  }

  function DroppedCount(items: seq<Projected>, n: nat): nat
    requires n <= |items|
  {
    if n == 0 then 0
    else DroppedCount(items, n - 1) + if items[n - 1].Keyed() && !Kept(items, n - 1) then 1 else 0
  }

  predicate KeptPath(items: seq<Projected>, j: nat, p: string)
    requires j < |items|
  {
    Kept(items, j) && items[j].Path() == p
  }

  predicate KeptProvider(items: seq<Projected>, j: nat, p: string)
    requires j < |items|
  {
    p != "" && Kept(items, j) && items[j].Provider() == p
  }

  /** The seen sets hold exactly the paths and the non-empty provider identities of the kept items. */
  ghost predicate Marks(items: seq<Projected>, n: nat, acc: Acc)
    requires n <= |items|
  {
    && (forall p :: p in acc.seenPaths <==> exists j :: 0 <= j < n && KeptPath(items, j, p))
    && (forall p :: p in acc.seenProviders <==> exists j :: 0 <= j < n && KeptProvider(items, j, p))
  }

  lemma BlockedIsSeen(items: seq<Projected>, n: nat, acc: Acc, j: nat)
    requires j < n < |items| && Marks(items, n, acc) && items[n].Keyed() && Blocks(items, j, n)
    ensures !Admits(acc, items[n])
  {
    if items[j].Path() == items[n].Path() {
      assert KeptPath(items, j, items[n].Path());
    } else {
      assert KeptProvider(items, j, items[n].Provider());
    }
  }

  lemma SeenIsBlocked(items: seq<Projected>, n: nat, acc: Acc) returns (j: nat)
    requires n < |items| && Marks(items, n, acc) && items[n].Keyed() && !Admits(acc, items[n])
    ensures j < n && Blocks(items, j, n)
  {
    if items[n].Path() in acc.seenPaths {
      j :| 0 <= j < n && KeptPath(items, j, items[n].Path());
    } else {
      j :| 0 <= j < n && KeptProvider(items, j, items[n].Provider());
    }
  }

  lemma MarksAdmit(items: seq<Projected>, n: nat, acc: Acc)
    requires n < |items| && Marks(items, n, acc)
    ensures Admits(acc, items[n]) <==> Kept(items, n)
  {
    if items[n].Keyed() {
      if Admits(acc, items[n]) {
        forall j | 0 <= j < n ensures !Blocks(items, j, n) {
          if Blocks(items, j, n) { BlockedIsSeen(items, n, acc, j); }
        }
      } else {
        var j := SeenIsBlocked(items, n, acc);
      }
    }
  }

  lemma MarksStep(items: seq<Projected>, n: nat, acc: Acc)
    requires n < |items| && Marks(items, n, acc)
    ensures Marks(items, n + 1, Consume(acc, items[n]))
  {
    MarksAdmit(items, n, acc);
    var after := Consume(acc, items[n]);
    forall p ensures p in after.seenPaths <==> exists j :: 0 <= j < n + 1 && KeptPath(items, j, p) {
      assert p in after.seenPaths <==> p in acc.seenPaths || KeptPath(items, n, p);
      if p in acc.seenPaths {
        var j :| 0 <= j < n && KeptPath(items, j, p);
      }
    }
    forall p ensures p in after.seenProviders <==> exists j :: 0 <= j < n + 1 && KeptProvider(items, j, p) {
      assert p in after.seenProviders <==> p in acc.seenProviders || KeptProvider(items, n, p);
      if p in acc.seenProviders {
        var j :| 0 <= j < n && KeptProvider(items, j, p);
      }
    }
  }

  lemma {:induction false} FoldMarks(items: seq<Projected>, n: nat)
    requires n <= |items|
    ensures Marks(items, n, Fold(items[..n]))
  {
    if n == 0 {
    } else {
      FoldMarks(items, n - 1);
      FoldNext(items, n - 1);
      MarksStep(items, n - 1, Fold(items[..n - 1]));
    }
  }

  lemma FoldAdmits(items: seq<Projected>, n: nat)
    requires n < |items|
    ensures Admits(Fold(items[..n]), items[n]) <==> Kept(items, n)
  {
    FoldMarks(items, n);
    MarksAdmit(items, n, Fold(items[..n]));
  }

  lemma ConsumeKeeps(acc: Acc, item: Projected, kept: bool)
    requires Admits(acc, item) == kept
    ensures var next := Consume(acc, item);
            && next.files == acc.files + (if kept && item.FileItem? then [item.file] else [])
            && next.assets == acc.assets + (if kept && item.AssetItem? then [item.asset] else [])
            && next.deduplicated == acc.deduplicated + (if item.Keyed() && !kept then 1 else 0)
            && next.failed == (acc.failed || item.Failed?)
  {
  }

  predicate AnyFailed(items: seq<Projected>, n: nat)
    requires n <= |items|
  {
    n > 0 && (AnyFailed(items, n - 1) || items[n - 1].Failed?)
  }

  /** The accumulator holds the greedy first-wins selection of the first n items. */
  ghost predicate Selects(items: seq<Projected>, n: nat, acc: Acc)
    requires n <= |items|
  {
    && acc.files == KeptFiles(items, n) && acc.assets == KeptAssets(items, n)
    && acc.deduplicated == DroppedCount(items, n) && (acc.failed <==> AnyFailed(items, n))
  }

  lemma SelectsNext(items: seq<Projected>, n: nat, acc: Acc)
    requires n < |items| && Selects(items, n, acc) && Admits(acc, items[n]) == Kept(items, n)
    ensures Selects(items, n + 1, Consume(acc, items[n]))
  {
    ConsumeKeeps(acc, items[n], Kept(items, n));
  }

  /** The fold computes exactly the greedy first-wins selection. */
  lemma {:induction false} FoldKeeps(items: seq<Projected>, n: nat)
    requires n <= |items|
    ensures Selects(items, n, Fold(items[..n]))
  {
    if n == 0 {
    } else {
      FoldKeeps(items, n - 1);
      FoldNext(items, n - 1);
      FoldAdmits(items, n - 1);
      SelectsNext(items, n - 1, Fold(items[..n - 1]));
    }
  }

  // ---- Accepted keys are unique, so the final sort is -------------------------------------

  ghost predicate DistinctKeys(acc: Acc) {
    && (forall i, j :: 0 <= i < j < |acc.files| ==> !Conflict(FileItem(acc.files[i]), FileItem(acc.files[j])))
    && (forall i, j :: 0 <= i < j < |acc.assets| ==> !Conflict(AssetItem(acc.assets[i]), AssetItem(acc.assets[j])))
    && (forall i, j :: 0 <= i < |acc.files| && 0 <= j < |acc.assets| ==>
          !Conflict(FileItem(acc.files[i]), AssetItem(acc.assets[j])))
  }

  predicate Marked(acc: Acc, item: Projected)
    requires item.Keyed()
  {
    item.Path() in acc.seenPaths && (item.Provider() == "" || item.Provider() in acc.seenProviders)
  }

  ghost predicate AllMarked(acc: Acc) {
    && (forall f :: f in acc.files ==> Marked(acc, FileItem(f)))
    && (forall a :: a in acc.assets ==> Marked(acc, AssetItem(a)))
  }

  lemma AdmittedApart(acc: Acc, item: Projected)
    requires AllMarked(acc) && Admits(acc, item)
    ensures forall i :: 0 <= i < |acc.files| ==> !Conflict(FileItem(acc.files[i]), item)
    ensures forall i :: 0 <= i < |acc.assets| ==> !Conflict(item, AssetItem(acc.assets[i]))
                                                  && !Conflict(AssetItem(acc.assets[i]), item)
  {
    forall i | 0 <= i < |acc.files| ensures !Conflict(FileItem(acc.files[i]), item) {
      assert Marked(acc, FileItem(acc.files[i]));
    }
    forall i | 0 <= i < |acc.assets|
      ensures !Conflict(item, AssetItem(acc.assets[i])) && !Conflict(AssetItem(acc.assets[i]), item)
    {
      assert Marked(acc, AssetItem(acc.assets[i]));
    }
  }

  lemma ConsumeDistinct(acc: Acc, item: Projected)
    requires DistinctKeys(acc) && AllMarked(acc)
    ensures DistinctKeys(Consume(acc, item)) && AllMarked(Consume(acc, item))
  {
    if Admits(acc, item) { AdmittedApart(acc, item); }
  }

  /** Accepted items never share a path or a non-empty provider identity. */
  lemma {:induction false} FoldDistinct(items: seq<Projected>)
    ensures DistinctKeys(Fold(items)) && AllMarked(Fold(items))
  {
    if items == [] {
    } else {
      FoldDistinct(items[..|items| - 1]);
      ConsumeDistinct(Fold(items[..|items| - 1]), items[|items| - 1]);
    }
  }

  predicate FileLess(a: File, b: File) { Less(a.relativePath, b.relativePath) }

  predicate AssetLess(a: Asset, b: Asset) { Less(a.relativePath, b.relativePath) }

  lemma LessIsWeakOrder()
    ensures WeakOrder(Less)
  {
    forall x ensures !Less(x, x) { LessIrreflexive(x); }
    forall x, y, z | Less(x, y) && Less(y, z) ensures Less(x, z) { LessTransitive(x, y, z); }
    forall x, y, z | Less(x, z) ensures Less(x, y) || Less(y, z) {
      LessTotal(x, y);
      if Less(y, x) { LessTransitive(y, x, z); }
    }
  }

  lemma PathOrders()
    ensures WeakOrder(FileLess) && WeakOrder(AssetLess)
  {
    LessIsWeakOrder();
  }

  lemma DistinctSeparate(files: seq<File>, assets: seq<Asset>)
    requires forall i, j :: 0 <= i < j < |files| ==> files[i].relativePath != files[j].relativePath
    requires forall i, j :: 0 <= i < j < |assets| ==> assets[i].relativePath != assets[j].relativePath
    ensures Separates(FileLess, files) && Separates(AssetLess, assets)
  {
    forall x, y | x in files && y in files && x != y ensures FileLess(x, y) || FileLess(y, x) {
      LessTotal(x.relativePath, y.relativePath);
    }
    forall x, y | x in assets && y in assets && x != y ensures AssetLess(x, y) || AssetLess(y, x) {
      LessTotal(x.relativePath, y.relativePath);
    }
  }

  /** However the final unstable sort breaks ties, a fold has one sorted file list and one sorted asset list. */
  lemma FoldSortUnique(items: seq<Projected>, f1: seq<File>, f2: seq<File>, a1: seq<Asset>, a2: seq<Asset>)
    requires IsSortOf(FileLess, Fold(items).files, f1) && IsSortOf(FileLess, Fold(items).files, f2)
    requires IsSortOf(AssetLess, Fold(items).assets, a1) && IsSortOf(AssetLess, Fold(items).assets, a2)
    ensures f1 == f2 && a1 == a2
  {
    FoldDistinct(items);
    DistinctSeparate(Fold(items).files, Fold(items).assets);
    SameMembers(f1, Fold(items).files);
    SameMembers(a1, Fold(items).assets);
    SortUnique(FileLess, f1, f2);
    SortUnique(AssetLess, a1, a2);
  }

  // ---- Results, and the bulk scan ---------------------------------------------------------

  datatype Result = Result(
    directories: seq<Entry>, files: seq<File>, assets: seq<Asset>, partial: bool, deduplicated: nat, enumerated: nat)

  function SortedResult(r: Result): Result {
    r.(files := Sort(FileLess, r.files), assets := Sort(AssetLess, r.assets))
  }

  lemma SortedResultSorts(r: Result)
    ensures IsSortOf(FileLess, r.files, SortedResult(r).files)
    ensures IsSortOf(AssetLess, r.assets, SortedResult(r).assets)
  {
    PathOrders();
    SortSorts(FileLess, r.files);
    SortSorts(AssetLess, r.assets);
  }

  datatype Tree = Tree(directories: seq<Entry>, entries: seq<Entry>, partial: bool)

  function Items(rules: Rules, entries: seq<Entry>): (r: seq<Projected>)
    ensures |r| == |entries|
    ensures forall i :: 0 <= i < |r| ==> r[i] == Project(rules, entries[i])
  {
    seq(|entries|, i requires 0 <= i < |entries| => Project(rules, entries[i]))
  }

  function Snapshot(tree: Tree, acc: Acc, cut: bool): Result {
    Result(tree.directories, acc.files, acc.assets, tree.partial || acc.failed || cut, acc.deduplicated, |tree.entries|)
  }

  /** The entry limit turns item k away. */
  predicate Overflows(items: seq<Projected>, k: nat)
    requires k < |items|
  {
    Admits(Fold(items[..k]), items[k]) && Fold(items[..k]).Accepted() >= MAX_ENTRIES
  }

  /** The first item at or after k that the entry limit turns away, or the end. */
  function Cut(items: seq<Projected>, k: nat): (c: nat)
    requires k <= |items|
    ensures k <= c <= |items|
    decreases |items| - k
  {
    if k == |items| || Overflows(items, k) then k else Cut(items, k + 1)
  }

  function BulkResult(rules: Rules, tree: Tree): Result {
    var items := Items(rules, tree.entries);
    var k := Cut(items, 0);
    SortedResult(Snapshot(tree, Fold(items[..k]), k < |items|))
  }

  datatype ScanOutcome = Complete(result: Result) | Cancelled(result: Result) | DriverFailed

  datatype TreeReply = TreeListed(tree: Tree) | TreeError

  /** The loop of the bulk scan from item k on. */
  function Continue(tree: Tree, items: seq<Projected>, k: nat, acc: Acc, alive: nat): ScanOutcome
    requires k <= |items|
    decreases |items| - k
  {
    if k == |items| then Complete(SortedResult(Snapshot(tree, acc, false)))
    else if alive <= k then Cancelled(Snapshot(tree, acc, false))
    else if Admits(acc, items[k]) && acc.Accepted() >= MAX_ENTRIES then
      Complete(SortedResult(Snapshot(tree, acc, true)))
    else Continue(tree, items, k + 1, Consume(acc, items[k]), alive)
  }

  lemma {:induction false} ContinueMeaning(tree: Tree, items: seq<Projected>, k: nat, alive: nat)
    requires k <= |items| && k <= alive
    ensures var c := Cut(items, k);
            Continue(tree, items, k, Fold(items[..k]), alive) ==
            if alive < |items| && alive <= c then Cancelled(Snapshot(tree, Fold(items[..alive]), false))
            else Complete(SortedResult(Snapshot(tree, Fold(items[..c]), c < |items|)))
    decreases |items| - k
  {
    if k == |items| || k == alive || Overflows(items, k) {
    } else {
      FoldNext(items, k);
      ContinueMeaning(tree, items, k + 1, alive);
    }
  }

  /** scanProviderTree; the context is found cancelled at iteration `alive` and every later one. */
  method ScanProviderTree(reply: TreeReply, rules: Rules, alive: nat) returns (outcome: ScanOutcome)
    ensures reply.TreeError? <==> outcome.DriverFailed?
    ensures reply.TreeListed? ==>
              var items := Items(rules, reply.tree.entries);
              if alive < |items| && alive <= Cut(items, 0)
              then outcome == Cancelled(Snapshot(reply.tree, Fold(items[..alive]), false))
              else outcome == Complete(BulkResult(rules, reply.tree))
  {
    if reply.TreeError? {
      return DriverFailed;
    }
    var tree := reply.tree;
    ghost var items := Items(rules, tree.entries);
    ContinueMeaning(tree, items, 0, alive);
    ghost var acc := EMPTY;
    ghost var goal := Continue(tree, items, 0, EMPTY, alive);
    var files, assets, partial, deduplicated := [], [], tree.partial, 0;
    var seenPaths, seenProviders := {}, {};
    var sequence := 0;
    while sequence < |tree.entries|
      invariant sequence <= |tree.entries|
      invariant goal == Continue(tree, items, sequence, acc, alive)
      invariant acc == Acc(files, assets, seenPaths, seenProviders, deduplicated, acc.failed)
      invariant partial == (tree.partial || acc.failed)
    {
      if alive <= sequence {
        return Cancelled(Result(tree.directories, files, assets, partial, deduplicated, |tree.entries|));
      }
      var projected := Project(rules, tree.entries[sequence]);
      acc := Consume(acc, projected);
      if projected.Failed? {
        partial := true;
      } else if projected.Skipped? {
      } else if projected.Path() in seenPaths {
        deduplicated := deduplicated + 1;
      } else if projected.Provider() != "" && projected.Provider() in seenProviders {
        deduplicated := deduplicated + 1;
      } else {
        if projected.Provider() != "" {
          seenProviders := seenProviders + {projected.Provider()};
        }
        seenPaths := seenPaths + {projected.Path()};
        if |files| + |assets| >= MAX_ENTRIES {
          partial := true;
          return Complete(SortedResult(Result(tree.directories, files, assets, partial, deduplicated, |tree.entries|)));
        }
        if projected.FileItem? {
          files := files + [projected.file];
        } else {
          assets := assets + [projected.asset];
        }
      }
      sequence := sequence + 1;
    }
    return Complete(SortedResult(Result(tree.directories, files, assets, partial, deduplicated, |tree.entries|)));
  }

  // ---- The streamed and the bulk result ---------------------------------------------------

  /** What the streamed scan returns once the whole stream has been consumed. */
  function StreamResult(rules: Rules, tree: Tree): Result {
    var acc := Fold(Items(rules, tree.entries));
    SortedResult(Snapshot(tree, acc, acc.Accepted() >= MAX_ENTRIES))
  }

  lemma {:induction false} AnyFailedMeans(items: seq<Projected>, n: nat)
    requires n <= |items|
    ensures AnyFailed(items, n) <==> exists i :: 0 <= i < n && items[i].Failed?
  {
    if n == 0 {
    } else {
      AnyFailedMeans(items, n - 1);
    }
  }

  /** Files and assets are in ascending order of their paths. */
  predicate InPathOrder(r: Result) {
    && (forall i, j :: 0 <= i < j < |r.files| ==> !Less(r.files[j].relativePath, r.files[i].relativePath))
    && (forall i, j :: 0 <= i < j < |r.assets| ==> !Less(r.assets[j].relativePath, r.assets[i].relativePath))
  }

  lemma SortedInOrder(r: Result)
    ensures InPathOrder(SortedResult(r))
  {
    SortedResultSorts(r);
    var files, assets := SortedResult(r).files, SortedResult(r).assets;
    assert forall i, j :: 0 <= i < j < |files| ==> !FileLess(files[j], files[i]);
    assert forall i, j :: 0 <= i < j < |assets| ==> !AssetLess(assets[j], assets[i]);
  }

  /** A snapshot reports the selection among the first k items, and says so when something is missing from it. */
  ghost predicate Reports(tree: Tree, items: seq<Projected>, k: nat, full: bool, r: Result)
    requires k <= |items|
  {
    && r.directories == tree.directories && r.enumerated == |tree.entries|
    && multiset(r.files) == multiset(KeptFiles(items, k)) && multiset(r.assets) == multiset(KeptAssets(items, k))
    && r.deduplicated == DroppedCount(items, k) && InPathOrder(r)
    && (r.partial <==> tree.partial || full || exists i :: 0 <= i < k && items[i].Failed?)
  }

  lemma SnapshotReports(tree: Tree, items: seq<Projected>, k: nat, full: bool)
    requires k <= |items|
    ensures Reports(tree, items, k, full, SortedResult(Snapshot(tree, Fold(items[..k]), full)))
  {
    FoldKeeps(items, k);
    AnyFailedMeans(items, k);
    SortedResultSorts(Snapshot(tree, Fold(items[..k]), full));
    SortedInOrder(Snapshot(tree, Fold(items[..k]), full));
  }

  /** The streamed result selects among all items, the bulk result among those before the entry limit is passed. */
  lemma ResultsReport(rules: Rules, tree: Tree) returns (k: nat)
    ensures var items := Items(rules, tree.entries);
            && k <= |items| && Reports(tree, items, k, k < |items|, BulkResult(rules, tree))
            && |KeptFiles(items, k)| + |KeptAssets(items, k)| <= MAX_ENTRIES
            && (k < |items| ==> Kept(items, k) && |KeptFiles(items, k)| + |KeptAssets(items, k)| == MAX_ENTRIES)
    ensures var items := Items(rules, tree.entries);
            var n := |items|;
            Reports(tree, items, n, |KeptFiles(items, n)| + |KeptAssets(items, n)| >= MAX_ENTRIES,
                    StreamResult(rules, tree))
  {
    var items := Items(rules, tree.entries);
    k := Cut(items, 0);
    CutBounds(items, 0);
    SnapshotReports(tree, items, k, k < |items|);
    FoldKeeps(items, k);
    if k < |items| { FoldAdmits(items, k); }
    FoldKeeps(items, |items|);
    assert items[..|items|] == items;
    SnapshotReports(tree, items, |items|, Fold(items).Accepted() >= MAX_ENTRIES);
  }

  lemma {:induction false} AcceptedGrows(items: seq<Projected>, k: nat, m: nat)
    requires k <= m <= |items|
    ensures Fold(items[..k]).Accepted() <= Fold(items[..m]).Accepted()
  {
    if k == m {
    } else {
      AcceptedGrows(items, k, m - 1);
      FoldNext(items, m - 1);
    }
  }

  lemma {:induction false} CutBounds(items: seq<Projected>, k: nat)
    requires k <= |items| && Fold(items[..k]).Accepted() <= MAX_ENTRIES
    ensures Fold(items[..Cut(items, k)]).Accepted() <= MAX_ENTRIES
    ensures Cut(items, k) < |items| ==> Overflows(items, Cut(items, k))
    decreases |items| - k
  {
    if k == |items| || Overflows(items, k) {
    } else {
      FoldNext(items, k);
      CutBounds(items, k + 1);
    }
  }

  lemma SortedResultCounts(r: Result)
    ensures |SortedResult(r).files| + |SortedResult(r).assets| == |r.files| + |r.assets|
  {
    SortedResultSorts(r);
    SameMembers(SortedResult(r).files, r.files);
    SameMembers(SortedResult(r).assets, r.assets);
  }

  lemma OverflowDisagrees(tree: Tree, full: Acc, cut: Acc, a: bool, b: bool)
    requires full.Accepted() != cut.Accepted()
    ensures SortedResult(Snapshot(tree, full, a)) != SortedResult(Snapshot(tree, cut, b))
  {
    SortedResultCounts(Snapshot(tree, full, a));
    SortedResultCounts(Snapshot(tree, cut, b));
  }

  lemma CutCounts(items: seq<Projected>)
    ensures Cut(items, 0) == |items| ==> Fold(items).Accepted() <= MAX_ENTRIES
    ensures Cut(items, 0) < |items| ==>
              Fold(items[..Cut(items, 0)]).Accepted() <= MAX_ENTRIES < Fold(items).Accepted()
  {
    var k := Cut(items, 0);
    CutBounds(items, 0);
    assert items[..|items|] == items;
    if k < |items| {
      FoldNext(items, k);
      AcceptedGrows(items, k + 1, |items|);
    }
  }

  /**
   The two scans agree exactly below the entry limit, and at the limit only when the snapshot is partial anyway:
   the streamed scan reports a full snapshot as partial, the bulk scan only an overflowing one.
   */
  lemma StreamAgreesWithBulk(rules: Rules, tree: Tree)
    ensures var acc := Fold(Items(rules, tree.entries));
            StreamResult(rules, tree) == BulkResult(rules, tree) <==>
            acc.Accepted() < MAX_ENTRIES || (acc.Accepted() == MAX_ENTRIES && (tree.partial || acc.failed))
  {
    var items := Items(rules, tree.entries);
    var k, acc := Cut(items, 0), Fold(items);
    CutCounts(items);
    if k < |items| {
      OverflowDisagrees(tree, acc, Fold(items[..k]), acc.Accepted() >= MAX_ENTRIES, true);
    } else {
      assert items[..k] == items;
      assert Snapshot(tree, acc, false).partial == (tree.partial || acc.failed);
    }
  }
}
