/** A snapshot that fills the entry limit exactly: the streamed scan calls it partial, the bulk scan does not. */
module ScanLimit {
  import opened Text
  import opened Scan
  import opened Paths

  function Letters(n: nat): string { seq(n, _ => 'a') }

  /** Files without an extension count, nothing is ignored. */
  const ANYTHING := Rules({""}, {}, [])

  function PathOf(n: nat): string { "/" + Letters(n + 1) }

  function EntryOf(n: nat): Entry { Entry("", "", Letters(n + 1), false, 0, 0, "", PathOf(n)) }

  function FileOf(n: nat): File { File(PathOf(n), "", true, 0, 0) }

  function Entries(n: nat): (r: seq<Entry>)
    ensures |r| == n && forall i :: 0 <= i < n ==> r[i] == EntryOf(i)
  {
    seq(n, i requires 0 <= i < n => EntryOf(i))
  }

  lemma LettersAreGood(n: nat)
    requires n > 0
    ensures GoodName(Letters(n))
  {
    var s := Letters(n);
    assert s[0] == 'a' && s[n - 1] == 'a' && forall c :: c in s ==> c == 'a';
    assert Slashed(s) == s;
    SplitWithout(s, '/');
  }

  lemma {:induction false} NoDot(s: string)
    requires forall i :: 0 <= i < |s| ==> s[i] == 'a'
    ensures Ext(s) == ""
  {
    if s == [] {
    } else {
      NoDot(s[..|s| - 1]);
    }
  }

  lemma NotIgnored(n: nat)
    ensures !ShouldIgnore(PathOf(n), [])
  {
    var s := Letters(n + 1);
    var path := PathOf(n);
    assert Lower(path) == path;
    RecycleSegment(path);
    assert path == "" + ['/'] + s;
    SplitJoin("", s, '/');
    SplitWithout(s, '/');
    assert s[0] != RECYCLE[0];
  }

  lemma ProjectsToFile(n: nat)
    ensures Project(ANYTHING, EntryOf(n)) == FileItem(FileOf(n))
  {
    var s := Letters(n + 1);
    LettersAreGood(n + 1);
    assert [s][..0] == [] && Rooted([s]) == Rooted([]) + "/" + s == PathOf(n);
    ProjectGood(ANYTHING, EntryOf(n), [s]);
    NotIgnored(n);
    NoDot(s);
    assert Lower("") == "";
  }

  /** The fold of the first n entries holds n files with short paths. */
  ghost predicate Holds(acc: Acc, n: nat) {
    && |acc.files| == n && acc.assets == [] && acc.seenProviders == {} && !acc.failed
    && forall p :: p in acc.seenPaths ==> |p| <= n + 1
  }

  lemma HoldsNext(acc: Acc, n: nat)
    requires Holds(acc, n)
    ensures Holds(Consume(acc, FileItem(FileOf(n))), n + 1)
  {
    assert |PathOf(n)| == n + 2;
  }

  lemma {:induction false} FoldHolds(items: seq<Projected>, n: nat)
    requires n <= |items| && forall i :: 0 <= i < |items| ==> items[i] == FileItem(FileOf(i))
    ensures Holds(Fold(items[..n]), n)
  {
    if n == 0 {
    } else {
      FoldHolds(items, n - 1);
      FoldNext(items, n - 1);
      HoldsNext(Fold(items[..n - 1]), n - 1);
    }
  }

  /** Both scans accept the same 250000 files; only the streamed result says that something may be missing. */
  lemma FullTreeDiffers() returns (tree: Tree)
    ensures Fold(Items(ANYTHING, tree.entries)).Accepted() == MAX_ENTRIES
    ensures StreamResult(ANYTHING, tree).files == BulkResult(ANYTHING, tree).files
    ensures StreamResult(ANYTHING, tree).partial && !BulkResult(ANYTHING, tree).partial
  {
    tree := Tree([], Entries(MAX_ENTRIES), false);
    var items := Items(ANYTHING, tree.entries);
    forall i | 0 <= i < |items| ensures items[i] == FileItem(FileOf(i)) { ProjectsToFile(i); }
    FoldHolds(items, |items|);
    assert items[..|items|] == items;
    CutCounts(items);
  }
}
